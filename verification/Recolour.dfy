/** Recolouring a code box in place: `_split_multiline_runs` and `recolour_box`
    (scripts/deck_edit.py), stated on what the independent checker sees of the box. */
module Recolour {
  import opened Text
  import opened TextTree
  import opened CodeText
  import opened Colours
  import opened BoxInk

  /** No element occurs twice among a paragraph's children. */
  ghost predicate OwnRuns(c: seq<Child>) {
    forall i, j :: 0 <= i < j < |c| && c[i].RunChild? && c[j].RunChild? ==> c[i].run != c[j].run
  }

  ghost predicate Singles(v: seq<Piece>) {
    forall i :: 0 <= i < |v| && v[i].Ink? ==> Single(v[i].text)
  }

  lemma SinglesJoin(a: seq<Piece>, b: seq<Piece>)
    ensures Singles(a + b) <==> Singles(a) && Singles(b)
  {
    if Singles(a + b) {
      forall i | 0 <= i < |a| && a[i].Ink? ensures Single(a[i].text) { assert (a + b)[i] == a[i]; }
      forall i | 0 <= i < |b| && b[i].Ink? ensures Single(b[i].text) { assert (a + b)[|a| + i] == b[i]; }
    }
  }

  lemma ViewJoin(a: seq<Child>, b: seq<Child>)
    ensures View(a + b) == View(a) + View(b)
    ensures RunsOf(a + b) == RunsOf(a) + RunsOf(b)
  {
    forall i | 0 <= i < |b| && b[i].RunChild? ensures b[i].run in RunsOf(a + b) {
      assert (a + b)[|a| + i] == b[i];
    }
    forall i | 0 <= i < |a| && a[i].RunChild? ensures a[i].run in RunsOf(a + b) {
      assert (a + b)[i] == a[i];
    }
  }

  // ------------------------------------------------------------------- splitting runs

  /** Copies of a run, one for each text. */
  method Copies(r: Run, texts: seq<string>) returns (more: seq<Child>)
    ensures |more| == |texts| && OwnRuns(more)
    ensures forall h :: 0 <= h < |more| ==> more[h].RunChild? && fresh(more[h].run)
    ensures forall h :: 0 <= h < |more| ==>
              more[h].run.text == texts[h] && more[h].run.rgb == r.rgb && more[h].run.format == r.format
  {
    more := [];
    for k := 0 to |texts|
      invariant |more| == k && OwnRuns(more)
      invariant forall h :: 0 <= h < k ==> more[h].RunChild? && fresh(more[h].run)
      invariant forall h :: 0 <= h < k ==>
                  more[h].run.text == texts[h] && more[h].run.rgb == r.rgb && more[h].run.format == r.format
    {
      var copy := new Run(texts[k], r.rgb, r.format);
      more := more + [RunChild(copy)];
    }
  }

  /** One run: it keeps its first piece, copies of it hold the others. */
  method SplitRun(r: Run) returns (more: seq<Child>)
    modifies r
    ensures r.rgb == old(r.rgb) && OwnRuns(more)
    ensures forall h :: 0 <= h < |more| ==> more[h].RunChild? && fresh(more[h].run)
    ensures View([RunChild(r)] + more)
         == if old(Single(r.text)) then [Ink(old(r.text), r.rgb, r.format)]
            else Inks(Pieces(SplitLines(old(r.text))), r.rgb, r.format)
    ensures old(Single(r.text)) <==> more == []
    ensures old(Single(r.text)) ==> r.text == old(r.text)
    ensures Single(r.text) && forall h :: 0 <= h < |more| ==> Single(more[h].run.text)
  {
    hide SplitLines, StripNewlines, Single, Pieces;
    more := [];
    if Single(r.text) {
      assert [RunChild(r)] + more == [RunChild(r)];
      return;
    }
    PiecesSingle(r.text);
    var pieces := Pieces(SplitLines(r.text));
    r.text := pieces[0];
    more := Copies(r, pieces[1..]);
  }

  /** The split children show the same text and the same ink, every character in its format. */
  ghost predicate Shows(v: seq<Piece>, w: seq<Piece>) {
    InkLines(v) == InkLines(w) && Flat(v) == Flat(w) && Typed(v) == Typed(w)
  }

  lemma ShowsMore(v: seq<Piece>, w: seq<Piece>, x: Piece, y: seq<Piece>)
    requires Shows(v, w) && Shows(y, [x])
    ensures Shows(v + y, w + [x])
  {
    InkLinesJoin(v, y);
    InkLinesJoin(w, [x]);
    TypedJoin(v, y);
    TypedJoin(w, [x]);
  }

  lemma PiecesShow(t: string, rgb: Option<Rgb>, f: nat)
    ensures Shows(Inks(Pieces(SplitLines(t)), rgb, f), [Ink(t, rgb, f)])
  {
    hide SplitLines, Inked, Glue, Pieces, InkLines, InkedAll, PieceSegs, Typed, Flat;
    PiecesInk(t, rgb, f);
    PiecesFlat(t, rgb, f);
    TypedInks(Pieces(SplitLines(t)), rgb, f);
    OneInk(t, rgb, f);
  }

  lemma OneInk(t: string, rgb: Option<Rgb>, f: nat)
    ensures InkLines([Ink(t, rgb, f)]) == InkedAll(PieceSegs(Ink(t, rgb, f)))
    ensures Flat([Ink(t, rgb, f)]) == t && Typed([Ink(t, rgb, f)]) == TypedText(t, f)
  {
    hide Inked, Glue, AuditLines, SplitLines;
    InkLinesAppend([], Ink(t, rgb, f));
    FlatAppend([], Ink(t, rgb, f));
    TypedAppend([], Ink(t, rgb, f));
    NoInk();
    GlueUnit(InkedAll(PieceSegs(Ink(t, rgb, f))));
    assert [] + [Ink(t, rgb, f)] == [Ink(t, rgb, f)] && "" + t == t;
  }

  function RunIn(x: Child): set<Run> {
    if x.RunChild? then {x.run} else {}
  }

  method SplitChild(x: Child) returns (more: seq<Child>)
    modifies RunIn(x)
    ensures Shows(View(more), [old(PieceOf(x))])
    ensures more != [] && more[0] == x && OwnRuns(more)
    ensures forall h :: 1 <= h < |more| ==> more[h].RunChild? && fresh(more[h].run)
    ensures fresh(RunsOf(more) - RunIn(x))
    ensures Singles(View(more))
    ensures more == [x] <==> old(Singles([PieceOf(x)]))
    ensures x.RunChild? ==> x.run.rgb == old(x.run.rgb) && (more == [x] ==> x.run.text == old(x.run.text))
  {
    hide Shows, Single, View, SplitLines, Pieces, RunsOf;
    ghost var was := [PieceOf(x)];
    assert was[0] == PieceOf(x);
    more := [x];
    if x.RunChild? {
      var copies := SplitRun(x.run);
      PiecesShow(old(x.run.text), x.run.rgb, x.run.format);
      more := [x] + copies;
      if copies == [] { assert more == [x]; }
    } else {
      ViewOne(x);
    }
    ShowsSame([old(PieceOf(x))]);
    Members(more);
  }

  lemma ViewOne(x: Child)
    ensures View([x]) == [PieceOf(x)]
  {
  }

  lemma ShowsSame(v: seq<Piece>)
    ensures Shows(v, v)
  {
  }

  /** `_split_multiline_runs` on one paragraph: the text and the ink stay, and a paragraph
      with no run to split is left as it is. */
  method SplitParagraph(p: Paragraph) returns (n: nat)
    requires OwnRuns(p.children)
    modifies p, RunsOf(p.children)
    ensures OwnRuns(p.children) && Singles(View(p.children))
    ensures fresh(RunsOf(p.children) - old(RunsOf(p.children)))
    ensures Shows(View(p.children), old(View(p.children)))
    ensures forall r :: r in old(RunsOf(p.children)) ==> r.rgb == old(r.rgb)
    ensures n == 0 <==> old(Singles(View(p.children)))
    ensures n == 0 ==> p.children == old(p.children) && forall r :: r in old(RunsOf(p.children)) ==>
        r.text == old(r.text)
  {
    hide Shows, Single, View, SplitLines, Pieces, Built, RunsOf, Singles;
    var c := p.children;
    Members(c);
    ghost var v := View(c);
    var out: seq<Child> := [];
    n := 0;
    NothingShown(v, c);
    for i := 0 to |c|
      invariant p.children == c && Built(c, i, out)
      invariant Singles(View(out))
      invariant fresh(RunsOf(out) - RunsOf(c))
      invariant forall j :: i <= j < |c| && c[j].RunChild? ==> c[j].run.text == old(c[j].run.text)
      invariant forall r :: r in RunsOf(c) ==> r.rgb == old(r.rgb)
      invariant Shows(View(out), v[..i])
      invariant n == 0 <==> Singles(v[..i])
      invariant n == 0 ==> out == c[..i] && forall r :: r in RunsOf(c) ==> r.text == old(r.text)
    {
      label before:
      BuiltApart(c, i, out);
      var more := SplitChild(c[i]);
      BuiltMore(c, i, out, more);
      ViewStable@before(out);
      assert RunIn(c[i]) <= RunsOf(c);
      if more != [c[i]] { n := n + 1; }
      assert v[..i + 1] == v[..i] + [v[i]];
      ViewJoin(out, more);
      SinglesJoin(View(out), View(more));
      SinglesJoin(v[..i], [v[i]]);
      ShowsMore(View(out), v[..i], v[i], View(more));
      out := out + more;
    }
    assert v[..|c|] == v;
    BuiltApart(c, |c|, out);
    Members(out);
    p.children := out;
  }

  lemma Members(c: seq<Child>)
    ensures forall j :: 0 <= j < |c| && c[j].RunChild? ==> c[j].run in RunsOf(c)
    ensures forall r :: r in RunsOf(c) ==> exists j :: 0 <= j < |c| && c[j] == RunChild(r)
  {
  }

  /** The children made so far are distinct, and none is one still to come. */
  ghost predicate Built(c: seq<Child>, i: nat, out: seq<Child>) {
    && OwnRuns(out)
    && forall h, j :: 0 <= h < |out| && i <= j < |c| && out[h].RunChild? && c[j].RunChild? ==> out[h].run != c[j].run
  }

  lemma BuiltApart(c: seq<Child>, i: nat, out: seq<Child>)
    requires Built(c, i, out)
    ensures OwnRuns(out)
    ensures i < |c| && c[i].RunChild? ==> forall h :: 0 <= h < |out| && out[h].RunChild? ==> out[h].run != c[i].run
  {
  }

  lemma BuiltMore(c: seq<Child>, i: nat, out: seq<Child>, more: seq<Child>)
    requires i < |c| && OwnRuns(c) && Built(c, i, out) && more != [] && more[0] == c[i] && OwnRuns(more)
    requires forall h :: 1 <= h < |more| ==> more[h].RunChild?
    requires forall h, j :: 1 <= h < |more| && 0 <= j < |c| && c[j].RunChild? ==> more[h].run != c[j].run
    requires forall h, j :: 1 <= h < |more| && 0 <= j < |out| && out[j].RunChild? ==> more[h].run != out[j].run
    ensures Built(c, i + 1, out + more)
  {
  }

  lemma NothingShown(v: seq<Piece>, c: seq<Child>)
    ensures Shows(View([]), v[..0]) && Built(c, 0, []) && RunsOf([]) == {} && Singles(v[..0])
  {
  }

  // ------------------------------------------------------------------------- painting

  ghost function RunSet(line: seq<Run>): set<Run> {
    set r | r in line
  }

  ghost predicate Distinct(line: seq<Run>) {
    forall i, j :: 0 <= i < j < |line| ==> line[i] != line[j]
  }

  /** A line of runs as segments. */
  ghost function Segs(line: seq<Run>): (s: seq<Seg>)
    reads RunSet(line)
    ensures |s| == |line| && forall i :: 0 <= i < |line| ==> s[i] == Seg(StripNewlines(line[i].text), line[i].rgb)
  {
    if line == [] then []
    else Segs(line[..|line| - 1]) + [Seg(StripNewlines(line[|line| - 1].text), line[|line| - 1].rgb)]
  }

  /** The loop over one line's runs. */
  method PaintLine(line: seq<Run>, r: Rule) returns (changed: nat)
    requires Distinct(line)
    modifies RunSet(line)
    ensures Segs(line) == Paint(old(Segs(line)), r) && Recoloured(old(Segs(line)), Segs(line), r)
    ensures changed == Changes(old(Segs(line)), Paint(old(Segs(line)), r))
    ensures forall x :: x in line ==> x.text == old(x.text)
    ensures changed == 0 ==> forall x :: x in line ==> x.rgb == old(x.rgb)
  {
    hide Segs, StripNewlines, Blank, ModeOf, PaintPart, Changes, JoinText, Recoloured;
    ghost var segs := Segs(line);
    PaintMeans(segs, r);
    var text := TextOfLine(line);
    changed := 0;
    if Blank(text) {
      NoChanges(segs, Paint(segs, r));
      return;
    }
    var whole := r.isComment(text);
    var seenCode, inComment := false, false;
    NothingPainted(segs, whole, r);
    for i := 0 to |line|
      invariant Mode(seenCode, inComment) == if whole then Mode(false, false) else ModeOf(segs[..i], r)
      invariant forall h :: 0 <= h < |line| ==> line[h].text == old(line[h].text)
      invariant forall h :: i <= h < |line| ==> line[h].rgb == segs[h].rgb
      invariant changed == 0 ==> forall h :: 0 <= h < |line| ==> line[h].rgb == segs[h].rgb
      invariant forall h :: 0 <= h < i ==>
          Seg(StripNewlines(line[h].text), line[h].rgb) == PaintPart(segs[..i], whole, r)[h]
      invariant changed == Changes(segs[..i], PaintPart(segs[..i], whole, r))
    {
      PaintStep(segs, i, whole, r);
      var t := StripNewlines(line[i].text);
      if Blank(t) { continue; }
      var want: Rgb;
      if whole {
        want := r.comment;
      } else {
        if seenCode && !inComment && r.isComment(t) { inComment := true; }
        want := if inComment then r.comment else r.code;
        if !r.isComment(t) { seenCode := true; }
      }
      var have := line[i].rgb;
      if have == Some(want) || (!r.Ours(have) && !r.force) { continue; }
      line[i].rgb := Some(want);
      changed := changed + 1;
    }
    assert segs[..|segs|] == segs;
  }

  lemma NothingPainted(segs: seq<Seg>, whole: bool, r: Rule)
    ensures ModeOf(segs[..0], r) == Mode(false, false) && PaintPart(segs[..0], whole, r) == []
    ensures Changes(segs[..0], []) == 0
  {
  }

  lemma PaintStep(segs: seq<Seg>, i: nat, whole: bool, r: Rule)
    requires i < |segs|
    ensures ModeOf(segs[..i + 1], r) == Enter(ModeOf(segs[..i], r), segs[i].text, r)
    ensures var painted := PaintSeg(segs[i], Want(segs[..i], segs[i].text, whole, r), r);
            && PaintPart(segs[..i + 1], whole, r) == PaintPart(segs[..i], whole, r) + [painted]
            && Changes(segs[..i + 1], PaintPart(segs[..i + 1], whole, r))
            == Changes(segs[..i], PaintPart(segs[..i], whole, r)) + if painted == segs[i] then 0 else 1
  {
    assert segs[..i + 1][..i] == segs[..i];
    ChangesLast(segs[..i + 1], PaintPart(segs[..i + 1], whole, r));
  }

  method TextOfLine(line: seq<Run>) returns (text: string)
    ensures text == old(JoinText(Segs(line)))
  {
    hide StripNewlines, Segs, JoinText;
    text := "";
    ghost var segs := Segs(line);
    assert JoinText(segs[..0]) == "" by { NoText(segs); }
    for i := 0 to |line|
      invariant text == JoinText(segs[..i])
    {
      JoinStep(segs, i);
      text := text + StripNewlines(line[i].text);
    }
    assert segs[..|segs|] == segs;
  }

  lemma NoText(segs: seq<Seg>)
    ensures JoinText(segs[..0]) == ""
  {
  }

  lemma JoinStep(segs: seq<Seg>, i: nat)
    requires i < |segs|
    ensures JoinText(segs[..i + 1]) == JoinText(segs[..i]) + segs[i].text
  {
    assert segs[..i + 1][..i] == segs[..i];
  }

  // ------------------------------------------------------------------- lines of runs

  ghost function ChildRuns(x: Child): (lines: seq<seq<Run>>)
    reads RunIn(x)
    ensures lines != []
  {
    match x
    case RunChild(r) => if r.text != "" && r.text[|r.text| - 1] == '\n' then [[r], []] else [[r]]
    case Break(_) => [[], []]
    case Field(_) => [[]]
  }

  /** The lines of a paragraph whose runs are split, as the runs on them. */
  ghost function RunLines(c: seq<Child>): (lines: seq<seq<Run>>)
    reads RunsOf(c)
    ensures lines != []
  {
    if c == [] then [[]] else Glue(RunLines(c[..|c| - 1]), ChildRuns(c[|c| - 1]))
  }

  ghost function SegsAll(lines: seq<seq<Run>>): (r: seq<seq<Seg>>)
    reads *
    ensures |r| == |lines| && forall k :: 0 <= k < |r| ==> r[k] == Segs(lines[k])
  {
    seq(|lines|, k requires 0 <= k < |lines| reads * => Segs(lines[k]))
  }

  lemma SegsJoin(a: seq<Run>, b: seq<Run>)
    ensures Segs(a + b) == Segs(a) + Segs(b)
  {
  }

  lemma SegsGlue(a: seq<seq<Run>>, b: seq<seq<Run>>)
    requires a != [] && b != []
    ensures SegsAll(Glue(a, b)) == Glue(SegsAll(a), SegsAll(b))
  {
    hide Segs;
    SegsJoin(a[|a| - 1], b[0]);
  }

  lemma ChildInk(x: Child)
    requires x.RunChild? ==> Single(x.run.text)
    ensures InkedAll(SegsAll(ChildRuns(x))) == InkedAll(PieceSegs(PieceOf(x)))
  {
    if x.RunChild? {
      var t, rgb := x.run.text, x.run.rgb;
      SingleMeans(t);
      OnePiece(StripNewlines(t), rgb, x.run.format);
      hide StripNewlines, SplitLines, PieceSegs, Inked;
      assert Segs([x.run]) == [Seg(StripNewlines(t), rgb)];
      NoRuns();
    } else {
      NoRuns();
    }
  }

  lemma NoRuns()
    ensures Segs([]) == [] && Inked([]) == []
  {
  }

  /** The runs on the lines carry what the checker sees. */
  lemma {:induction false} RunLinesInk(c: seq<Child>)
    requires Singles(View(c))
    ensures InkedAll(SegsAll(RunLines(c))) == InkLines(View(c))
  {
    if c == [] {
      NoRuns();
      assert SegsAll([[]]) == [[]];
    } else {
      var init, x := c[..|c| - 1], c[|c| - 1];
      SinglesJoin(View(init), [PieceOf(x)]);
      assert View(c) == View(init) + [PieceOf(x)];
      RunLinesInk(init);
      assert View(c)[|init|] == PieceOf(x);
      ChildInk(x);
      InkLinesAppend(View(init), PieceOf(x));
      SegsGlue(RunLines(init), ChildRuns(x));
      InkedGlue(SegsAll(RunLines(init)), SegsAll(ChildRuns(x)));
    }
  }

  /** Lines of distinct runs, no run on two of them. */
  ghost predicate Apart(lines: seq<seq<Run>>, among: set<Run>) {
    && (forall k :: 0 <= k < |lines| ==> Distinct(lines[k]) && RunSet(lines[k]) <= among)
    && (forall k, h :: 0 <= h < k < |lines| ==> RunSet(lines[h]) !! RunSet(lines[k]))
  }

  lemma ApartClose(lines: seq<seq<Run>>, among: set<Run>)
    requires Apart(lines, among)
    ensures Apart(lines + [[]], among)
  {
  }

  lemma ApartMore(lines: seq<seq<Run>>, among: set<Run>, r: Run)
    requires Apart(lines, among) && lines != [] && r !in among
    ensures Apart(lines[..|lines| - 1] + [lines[|lines| - 1] + [r]], among + {r})
  {
  }

  lemma RunsLast(c: seq<Child>)
    requires c != []
    ensures RunsOf(c) == RunsOf(c[..|c| - 1]) + RunIn(c[|c| - 1])
  {
  }

  lemma {:induction false} RunLinesApart(c: seq<Child>)
    requires OwnRuns(c)
    ensures Apart(RunLines(c), RunsOf(c))
  {
    if c != [] {
      var init, x := c[..|c| - 1], c[|c| - 1];
      RunLinesApart(init);
      RunsLast(c);
      var lines := RunLines(init);
      match x {
        case RunChild(r) =>
          LastIsOwn(c);
          ApartMore(lines, RunsOf(init), r);
          GlueChar(lines, r);
          var more := lines[..|lines| - 1] + [lines[|lines| - 1] + [r]];
          ApartClose(more, RunsOf(c));
        case Break(_) =>
          ApartClose(lines, RunsOf(c));
          assert lines[|lines| - 1] + [] == lines[|lines| - 1];
          assert Glue(lines, [[], []]) == lines + [[]];
        case Field(_) =>
          GlueUnit(lines);
      }
    }
  }

  lemma LastIsOwn(c: seq<Child>)
    requires OwnRuns(c) && c != [] && c[|c| - 1].RunChild?
    ensures c[|c| - 1].run !in RunsOf(c[..|c| - 1]) && OwnRuns(c[..|c| - 1])
  {
  }

  /** Runs whose text did not change are on the same lines. */
  twostate lemma {:induction false} RunLinesStable(c: seq<Child>)
    requires forall i :: 0 <= i < |c| && c[i].RunChild? ==> c[i].run.text == old(c[i].run.text)
    ensures RunLines(c) == old(RunLines(c))
  {
    if c != [] { RunLinesStable(c[..|c| - 1]); }
  }

  /** The lines of one paragraph, as `recolour_box` collects them. */
  method CollectLines(p: Paragraph) returns (lines: seq<seq<Run>>)
    ensures lines == old(RunLines(p.children))
  {
    hide RunLines;
    lines := [];
    var cur: seq<Run> := [];
    NoRunLines(p.children);
    for i := 0 to |p.children|
      invariant lines + [cur] == old(RunLines(p.children[..i]))
    {
      RunLinesStep(p.children, i);
      RunLinesStable(p.children[..i + 1]);
      RunLinesStable(p.children[..i]);
      match p.children[i] {
        case RunChild(r) =>
          cur := cur + [r];
          if r.text != "" && r.text[|r.text| - 1] == '\n' {
            lines := lines + [cur];
            cur := [];
          }
        case Break(_) =>
          GlueEnd(lines, cur);
          lines := lines + [cur];
          cur := [];
        case Field(_) =>
          GlueEnd(lines, cur);
      }
    }
    assert p.children[..|p.children|] == p.children;
    lines := lines + [cur];
  }

  lemma NoRunLines(c: seq<Child>)
    ensures RunLines(c[..0]) == [[]]
  {
  }

  lemma RunLinesStep(c: seq<Child>, i: nat)
    requires i < |c|
    ensures RunLines(c[..i + 1]) == Glue(RunLines(c[..i]), ChildRuns(c[i]))
  {
    assert c[..i + 1][..i] == c[..i];
  }

  lemma GlueEnd<T>(lines: seq<seq<T>>, cur: seq<T>)
    ensures Glue(lines + [cur], [[], []]) == lines + [cur] + [[]]
    ensures Glue(lines + [cur], [[]]) == lines + [cur]
  {
    assert cur + [] == cur;
  }

  // ------------------------------------------------------------------------ a paragraph

  function PaintAll(lines: seq<seq<Seg>>, r: Rule): (p: seq<seq<Seg>>)
    ensures |p| == |lines| && forall k :: 0 <= k < |p| ==> p[k] == Paint(lines[k], r)
  {
    seq(|lines|, k requires 0 <= k < |lines| => Paint(lines[k], r))
  }

  /** How many segments of the lines change. */
  function ChangesAll(lines: seq<seq<Seg>>, r: Rule): nat {
    if lines == [] then 0
    else ChangesAll(lines[..|lines| - 1], r) + LineChanges(lines[|lines| - 1], r)
  }

  function LineChanges(line: seq<Seg>, r: Rule): nat {
    PaintIdempotent(line, r);
    Changes(line, Paint(line, r))
  }

  lemma ChangesStep(lines: seq<seq<Seg>>, k: nat, r: Rule)
    requires k < |lines|
    ensures ChangesAll(lines[..k + 1], r) == ChangesAll(lines[..k], r) + LineChanges(lines[k], r)
  {
    assert lines[..k + 1][..k] == lines[..k];
  }

  /** Segments without text change nothing about the painting of a line. */
  lemma InkedLine(line: seq<Seg>, r: Rule)
    ensures Inked(Paint(line, r)) == Paint(Inked(line), r)
    ensures LineChanges(Inked(line), r) == LineChanges(line, r)
  {
    InkedMode(line, r);
    var whole := r.isComment(JoinText(line));
    InkedPaint(line, whole, r);
    InkedChanges(line, whole, r);
    NoChanges(line, line);
    NoChanges(Inked(line), Inked(line));
  }

  lemma InkedLines(lines: seq<seq<Seg>>, r: Rule)
    ensures InkedAll(PaintAll(lines, r)) == PaintAll(InkedAll(lines), r)
    ensures ChangesAll(InkedAll(lines), r) == ChangesAll(lines, r)
  {
    forall k | 0 <= k < |lines| ensures Inked(Paint(lines[k], r)) == Paint(Inked(lines[k]), r) {
      InkedLine(lines[k], r);
    }
    InkedCount(lines, r);
  }

  lemma {:induction false} InkedCount(lines: seq<seq<Seg>>, r: Rule)
    ensures ChangesAll(InkedAll(lines), r) == ChangesAll(lines, r)
  {
    hide Paint, LineChanges, Inked;
    if lines == [] {
      assert InkedAll(lines) == [];
    } else {
      var init, last := lines[..|lines| - 1], lines[|lines| - 1];
      InkedCount(init, r);
      InkedLine(last, r);
      assert InkedAll(lines)[..|init|] == InkedAll(init);
    }
  }

  /** The loop over the lines. */
  method PaintLines(lines: seq<seq<Run>>, ghost among: set<Run>, r: Rule) returns (changed: nat)
    requires Apart(lines, among)
    modifies among
    ensures SegsAll(lines) == PaintAll(old(SegsAll(lines)), r)
    ensures changed == ChangesAll(old(SegsAll(lines)), r)
    ensures forall x :: x in among ==> x.text == old(x.text) && (changed == 0 ==> x.rgb == old(x.rgb))
  {
    hide Segs, Paint, LineChanges, StripNewlines;
    ghost var segs := SegsAll(lines);
    changed := 0;
    for k := 0 to |lines|
      invariant forall h :: 0 <= h < k ==> Segs(lines[h]) == Paint(segs[h], r)
      invariant forall h :: k <= h < |lines| ==> Segs(lines[h]) == segs[h]
      invariant changed == ChangesAll(segs[..k], r)
      invariant forall x :: x in among ==> x.text == old(x.text) && (changed == 0 ==> x.rgb == old(x.rgb))
    {
      ChangesStep(segs, k, r);
      var n := PaintLine(lines[k], r);
      assert n == LineChanges(segs[k], r) by { LineChangesIs(segs[k], r); }
      changed := changed + n;
    }
    assert segs[..|lines|] == segs;
  }

  lemma LineChangesIs(line: seq<Seg>, r: Rule)
    ensures |line| == |Paint(line, r)| && LineChanges(line, r) == Changes(line, Paint(line, r))
  {
  }

  /** Recolouring one paragraph whose runs are split. */
  method PaintParagraph(p: Paragraph, r: Rule) returns (changed: nat)
    requires OwnRuns(p.children) && Singles(View(p.children))
    modifies RunsOf(p.children)
    ensures InkLines(View(p.children)) == PaintAll(old(InkLines(View(p.children))), r)
    ensures changed == ChangesAll(old(InkLines(View(p.children))), r)
    ensures Flat(View(p.children)) == old(Flat(View(p.children))) && Singles(View(p.children))
    ensures Typed(View(p.children)) == old(Typed(View(p.children)))
    ensures forall x :: x in RunsOf(p.children) ==> x.text == old(x.text) && (changed == 0 ==> x.rgb == old(x.rgb))
  {
    hide RunLines, InkLines, InkedAll, PaintAll, ChangesAll, View, Singles;
    var lines := CollectLines(p);
    RunLinesApart(p.children);
    RunLinesInk(p.children);
    ghost var segs := SegsAll(lines);
    InkedLines(segs, r);
    label before:
    changed := PaintLines(lines, RunsOf(p.children), r);
    Members(p.children);
    RunLinesStable@before(p.children);
    SameSingles(p.children);
    RunLinesInk(p.children);
  }

  twostate lemma SameSingles(c: seq<Child>)
    requires forall i :: 0 <= i < |c| && c[i].RunChild? ==> c[i].run.text == old(c[i].run.text)
    requires old(Singles(View(c)))
    ensures Singles(View(c)) && Flat(View(c)) == old(Flat(View(c))) && Typed(View(c)) == old(Typed(View(c)))
    decreases |c|
  {
    hide Flat, Typed, Single;
    forall i | 0 <= i < |c| && View(c)[i].Ink? ensures Single(View(c)[i].text) {
      assert old(View(c))[i].Ink?;
    }
    SameFlat(c);
  }

  twostate lemma {:induction false} SameFlat(c: seq<Child>)
    requires forall i :: 0 <= i < |c| && c[i].RunChild? ==> c[i].run.text == old(c[i].run.text)
    ensures Flat(View(c)) == old(Flat(View(c))) && Typed(View(c)) == old(Typed(View(c)))
  {
    if c != [] { SameFlat(c[..|c| - 1]); }
  }

  // --------------------------------------------------------------------------- the box

  /** The elements of a box are a tree: no paragraph and no run occurs twice. */
  ghost predicate Tree(ps: seq<Paragraph>)
    reads ps
  {
    && (forall k :: 0 <= k < |ps| ==> OwnRuns(ps[k].children))
    && (forall h, k :: 0 <= h < k < |ps| ==> ps[h] != ps[k] && RunsOf(ps[h].children) !! RunsOf(ps[k].children))
  }

  ghost function Views(ps: seq<Paragraph>): (v: seq<seq<Piece>>)
    reads *
    ensures |v| == |ps| && forall k :: 0 <= k < |ps| ==> v[k] == View(ps[k].children)
  {
    seq(|ps|, k requires 0 <= k < |ps| reads * => View(ps[k].children))
  }

  /** What the checker sees of a box, paragraph by paragraph. */
  ghost function InkOf(views: seq<seq<Piece>>): (lines: seq<seq<seq<Seg>>>)
    ensures |lines| == |views| && forall k :: 0 <= k < |views| ==> lines[k] == InkLines(views[k])
  {
    seq(|views|, k requires 0 <= k < |views| => InkLines(views[k]))
  }

  /** Its characters and their formats, paragraph by paragraph. */
  ghost function TypedOf(views: seq<seq<Piece>>): (t: seq<seq<(char, nat)>>)
    ensures |t| == |views| && forall k :: 0 <= k < |views| ==> t[k] == Typed(views[k])
  {
    seq(|views|, k requires 0 <= k < |views| => Typed(views[k]))
  }

  twostate predicate OthersKept(ps: seq<Paragraph>, k: nat)
    reads *
  {
    forall h :: 0 <= h < |ps| && h != k ==>
      ps[h].children == old(ps[h].children) && View(ps[h].children) == old(View(ps[h].children))
  }

  /** Splitting one of the box's paragraphs leaves the others alone. */
  method SplitAt(ps: seq<Paragraph>, k: nat) returns (n: nat)
    requires Tree(ps) && k < |ps|
    modifies ps[k], RunsOf(ps[k].children)
    ensures Tree(ps) && OthersKept(ps, k)
    ensures Singles(View(ps[k].children)) && Shows(View(ps[k].children), old(View(ps[k].children)))
    ensures fresh(RunsOf(ps[k].children) - old(RunsOf(ps[k].children)))
    ensures n == 0 <==> old(Singles(View(ps[k].children)))
    ensures n == 0 ==> ps[k].children == old(ps[k].children) && View(ps[k].children) == old(View(ps[k].children))
  {
    hide View, Shows, Singles;
    n := SplitParagraph(ps[k]);
    forall h | 0 <= h < |ps| && h != k
      ensures ps[h].children == old(ps[h].children) && View(ps[h].children) == old(View(ps[h].children))
    {
      Members(ps[h].children);
      ViewStable(ps[h].children);
    }
    if n == 0 {
      Members(ps[k].children);
      ViewStable(ps[k].children);
    }
  }

  method PaintAt(ps: seq<Paragraph>, k: nat, r: Rule) returns (changed: nat)
    requires Tree(ps) && k < |ps| && Singles(View(ps[k].children))
    modifies RunsOf(ps[k].children)
    ensures OthersKept(ps, k) && ps[k].children == old(ps[k].children)
    ensures InkLines(View(ps[k].children)) == PaintAll(old(InkLines(View(ps[k].children))), r)
    ensures Flat(View(ps[k].children)) == old(Flat(View(ps[k].children))) && Singles(View(ps[k].children))
    ensures Typed(View(ps[k].children)) == old(Typed(View(ps[k].children)))
    ensures changed == ChangesAll(old(InkLines(View(ps[k].children))), r)
    ensures changed == 0 ==> View(ps[k].children) == old(View(ps[k].children))
  {
    hide View, Singles, InkLines, PaintAll, ChangesAll, Flat, Typed;
    changed := PaintParagraph(ps[k], r);
    forall h | 0 <= h < |ps| && h != k
      ensures ps[h].children == old(ps[h].children) && View(ps[h].children) == old(View(ps[h].children))
    {
      Members(ps[h].children);
      ViewStable(ps[h].children);
    }
    if changed == 0 {
      Members(ps[k].children);
      ViewStable(ps[k].children);
    }
  }

  ghost function AllRuns(ps: seq<Paragraph>): set<Run>
    reads ps
  {
    set p, x | p in ps && x in RunsOf(p.children) :: x
  }

  ghost predicate AllSingle(views: seq<seq<Piece>>) {
    forall k :: 0 <= k < |views| ==> Singles(views[k])
  }

  ghost function ChildrenOf(ps: seq<Paragraph>): (c: seq<seq<Child>>)
    reads ps
    ensures |c| == |ps| && forall k :: 0 <= k < |ps| ==> c[k] == ps[k].children
  {
    seq(|ps|, k requires 0 <= k < |ps| reads ps => ps[k].children)
  }

  /** `_split_multiline_runs` on the box. */
  method SplitMultilineRuns(ps: seq<Paragraph>) returns (n: nat)
    requires Tree(ps)
    modifies ps, AllRuns(ps)
    ensures Tree(ps) && AllSingle(Views(ps)) && fresh(AllRuns(ps) - old(AllRuns(ps)))
    ensures InkOf(Views(ps)) == old(InkOf(Views(ps))) && Flats(ps) == old(Flats(ps))
    ensures TypedOf(Views(ps)) == old(TypedOf(Views(ps)))
    ensures n == 0 <==> old(AllSingle(Views(ps)))
    ensures n == 0 ==> Views(ps) == old(Views(ps)) && ChildrenOf(ps) == old(ChildrenOf(ps))
  {
    hide View, Singles, InkLines, Flat, RunsOf, OwnRuns, Tree, Shows, InkOf, Flats, Views, TypedOf;
    n := 0;
    ghost var views, children := Views(ps), ChildrenOf(ps);
    for k := 0 to |ps|
      invariant Tree(ps)
      invariant forall h :: 0 <= h < k ==> Singles(View(ps[h].children)) && Shows(View(ps[h].children), views[h])
      invariant forall h :: k <= h < |ps| ==> ps[h].children == children[h] && View(ps[h].children) == views[h]
      invariant forall h :: 0 <= h < |ps| ==> fresh(RunsOf(ps[h].children) - RunsOf(children[h]))
      invariant n == 0 <==> forall h :: 0 <= h < k ==> Singles(views[h])
      invariant n == 0 ==> forall h :: 0 <= h < |ps| ==>
          ps[h].children == children[h] && View(ps[h].children) == views[h]
    {
      label before:
      var m := SplitAt(ps, k);
      n := n + m;
      assert forall x :: x in RunsOf(ps[k].children) && old(allocated(x)) ==> old@before(allocated(x));
    }
    SameShown(Views(ps), views);
  }

  lemma SameShown(v: seq<seq<Piece>>, w: seq<seq<Piece>>)
    requires |v| == |w| && forall k :: 0 <= k < |v| ==> Shows(v[k], w[k])
    ensures InkOf(v) == InkOf(w) && TypedOf(v) == TypedOf(w) && forall k :: 0 <= k < |v| ==> Flat(v[k]) == Flat(w[k])
  {
  }

  function PaintBox(ink: seq<seq<seq<Seg>>>, r: Rule): (p: seq<seq<seq<Seg>>>)
    ensures |p| == |ink| && forall k :: 0 <= k < |p| ==> p[k] == PaintAll(ink[k], r)
  {
    seq(|ink|, k requires 0 <= k < |ink| => PaintAll(ink[k], r))
  }

  /** How many segments of the box change. */
  function BoxChanges(ink: seq<seq<seq<Seg>>>, r: Rule): nat {
    if ink == [] then 0 else BoxChanges(ink[..|ink| - 1], r) + ChangesAll(ink[|ink| - 1], r)
  }

  lemma BoxChangesStep(ink: seq<seq<seq<Seg>>>, k: nat, r: Rule)
    requires k < |ink|
    ensures BoxChanges(ink[..k + 1], r) == BoxChanges(ink[..k], r) + ChangesAll(ink[k], r)
  {
    assert ink[..k + 1][..k] == ink[..k];
  }

  /** The loop over the box's lines; a line never leaves its paragraph. */
  method PaintRuns(ps: seq<Paragraph>, r: Rule) returns (changed: nat)
    requires Tree(ps) && AllSingle(Views(ps))
    modifies AllRuns(ps)
    ensures Tree(ps) && InkOf(Views(ps)) == PaintBox(old(InkOf(Views(ps))), r) && Flats(ps) == old(Flats(ps))
    ensures TypedOf(Views(ps)) == old(TypedOf(Views(ps)))
    ensures ChildrenOf(ps) == old(ChildrenOf(ps)) && AllSingle(Views(ps))
    ensures changed == BoxChanges(old(InkOf(Views(ps))), r)
    ensures changed == 0 ==> Views(ps) == old(Views(ps))
  {
    hide View, Singles, InkLines, Flat, RunsOf, PaintAll, ChangesAll, Tree, BoxChanges, OwnRuns, Typed;
    ghost var views, flats := Views(ps), Flats(ps);
    ghost var ink := InkOf(views);
    changed := 0;
    NoBoxChanges(ink, r);
    for k := 0 to |ps|
      invariant forall h :: 0 <= h < |ps| ==> Singles(View(ps[h].children)) && Flat(View(ps[h].children)) == flats[h]
      invariant forall h :: 0 <= h < |ps| ==> Typed(View(ps[h].children)) == Typed(views[h])
      invariant forall h :: 0 <= h < k ==> InkLines(View(ps[h].children)) == PaintAll(ink[h], r)
      invariant forall h :: k <= h < |ps| ==> View(ps[h].children) == views[h]
      invariant changed == BoxChanges(ink[..k], r)
      invariant changed == 0 ==> forall h :: 0 <= h < |ps| ==> View(ps[h].children) == views[h]
    {
      BoxChangesStep(ink, k, r);
      var n := PaintAt(ps, k, r);
      changed := changed + n;
    }
    assert ink[..|ps|] == ink;
  }

  lemma NoBoxChanges(ink: seq<seq<seq<Seg>>>, r: Rule)
    ensures BoxChanges(ink[..0], r) == 0
  {
  }

  ghost predicate BoxRecoloured(was: seq<seq<seq<Seg>>>, now: seq<seq<seq<Seg>>>, r: Rule) {
    && SameShapes(was, now)
    && forall p, i :: 0 <= p < |was| && 0 <= i < |was[p]| ==> Recoloured(was[p][i], now[p][i], r)
  }

  lemma BoxPaintMeans(ink: seq<seq<seq<Seg>>>, r: Rule)
    ensures BoxRecoloured(ink, PaintBox(ink, r), r)
  {
    hide Paint, SegRecoloured;
    forall p, i | 0 <= p < |ink| && 0 <= i < |ink[p]| ensures Recoloured(ink[p][i], PaintBox(ink, r)[p][i], r) {
      PaintMeans(ink[p][i], r);
    }
  }

  lemma BoxShapes(ink: seq<seq<seq<Seg>>>, r: Rule)
    ensures SameShapes(ink, PaintBox(ink, r))
  {
    BoxPaintMeans(ink, r);
  }

  /** Where the segments are that differ: on which line, and where on it. */
  ghost function DifferOn(lines: seq<seq<Seg>>, now: seq<seq<Seg>>): set<(nat, nat)>
    requires SameShape(lines, now)
  {
    set i: nat, k: nat | i < |lines| && k < |lines[i]| && lines[i][k] != now[i][k] :: (i, k)
  }

  /** In which paragraph, on which of its lines, and where on it. */
  ghost function DifferIn(ink: seq<seq<seq<Seg>>>, now: seq<seq<seq<Seg>>>): set<(nat, (nat, nat))>
    requires SameShapes(ink, now)
  {
    set p: nat, x | p < |ink| && x in DifferOn(ink[p], now[p]) :: (p, x)
  }

  ghost function Tag<T(!new)>(n: nat, s: set<T>): set<(nat, T)> {
    set x | x in s :: (n, x)
  }

  lemma {:induction false} Tagged<T(!new)>(n: nat, s: set<T>)
    ensures |Tag(n, s)| == |s|
  {
    if s != {} {
      var y :| y in s;
      Tagged(n, s - {y});
      assert Tag(n, s) == Tag(n, s - {y}) + {(n, y)};
    }
  }

  ghost predicate SameShape(lines: seq<seq<Seg>>, now: seq<seq<Seg>>) {
    |now| == |lines| && forall i :: 0 <= i < |lines| ==> |now[i]| == |lines[i]|
  }

  lemma DifferOnLast(lines: seq<seq<Seg>>, now: seq<seq<Seg>>)
    requires lines != [] && SameShape(lines, now)
    ensures var n := |lines| - 1;
            && SameShape(lines[..n], now[..n])
            && |DifferOn(lines, now)| == |DifferOn(lines[..n], now[..n])| + |Differ(lines[n], now[n])|
  {
    var n := |lines| - 1;
    var before, here := DifferOn(lines[..n], now[..n]), Differ(lines[n], now[n]);
    var tagged := Tag(n, here);
    Tagged(n, here);
    assert before !! tagged && |before + tagged| == |before| + |tagged|;
    forall x | x in DifferOn(lines, now) ensures x in before + tagged {
      if x.0 < n { assert lines[..n][x.0][x.1] != now[..n][x.0][x.1]; }
    }
    forall x | x in before + tagged ensures x in DifferOn(lines, now) {
      assert lines[x.0][x.1] != now[x.0][x.1];
    }
    assert DifferOn(lines, now) == before + tagged;
  }

  lemma {:induction false} LinesCount(lines: seq<seq<Seg>>, r: Rule)
    requires SameShape(lines, PaintAll(lines, r))
    ensures ChangesAll(lines, r) == |DifferOn(lines, PaintAll(lines, r))|
  {
    if lines != [] {
      var n := |lines| - 1;
      DifferOnLast(lines, PaintAll(lines, r));
      LineChangesIs(lines[n], r);
      ChangesCount(lines[n], Paint(lines[n], r));
      hide Paint, LineChanges, Changes, DifferOn, Differ;
      assert PaintAll(lines, r)[..n] == PaintAll(lines[..n], r);
      LinesCount(lines[..n], r);
    }
  }

  ghost predicate SameShapes(ink: seq<seq<seq<Seg>>>, now: seq<seq<seq<Seg>>>) {
    |now| == |ink| && forall p :: 0 <= p < |ink| ==> SameShape(ink[p], now[p])
  }

  lemma DifferInIs(ink: seq<seq<seq<Seg>>>, now: seq<seq<seq<Seg>>>)
    requires ink != [] && SameShapes(ink, now)
    ensures var n := |ink| - 1;
            && SameShapes(ink[..n], now[..n])
            && DifferIn(ink, now) == DifferIn(ink[..n], now[..n]) + Tag(n, DifferOn(ink[n], now[n]))
            && DifferIn(ink[..n], now[..n]) !! Tag(n, DifferOn(ink[n], now[n]))
  {
    hide DifferOn, SameShape;
    assert SameShapes(ink[..|ink| - 1], now[..|ink| - 1]);
  }

  lemma DifferInLast(ink: seq<seq<seq<Seg>>>, now: seq<seq<seq<Seg>>>)
    requires ink != [] && SameShapes(ink, now)
    ensures var n := |ink| - 1;
            && SameShapes(ink[..n], now[..n])
            && |DifferIn(ink, now)| == |DifferIn(ink[..n], now[..n])| + |DifferOn(ink[n], now[n])|
  {
    DifferInIs(ink, now);
    hide DifferOn, SameShape, DifferIn, Tag;
    var n := |ink| - 1;
    Tagged(n, DifferOn(ink[n], now[n]));
    var before, tagged := DifferIn(ink[..n], now[..n]), Tag(n, DifferOn(ink[n], now[n]));
    assert |before + tagged| == |before| + |tagged|;
  }

  lemma {:induction false} BoxCount(ink: seq<seq<seq<Seg>>>, r: Rule)
    requires SameShapes(ink, PaintBox(ink, r))
    ensures BoxChanges(ink, r) == |DifferIn(ink, PaintBox(ink, r))|
  {
    if ink != [] {
      var n := |ink| - 1;
      DifferInLast(ink, PaintBox(ink, r));
      hide PaintAll, ChangesAll, DifferIn, DifferOn;
      assert PaintBox(ink, r)[..n] == PaintBox(ink[..n], r);
      BoxCount(ink[..n], r);
      LinesCount(ink[n], r);
    }
  }

  /** `recolour_box`: every line keeps its text, each character in its format, and the checker sees
      each line as the rule paints it: code and comments in the two colours asked for, segments in a
      third colour unless forced in their own. `changed` counts the segments that changed, and a box
      without runs to split and without changes is left as it was. */
  method RecolourBox(tx: TextBody, r: Rule) returns (changed: nat)
    requires Tree(tx.paras)
    modifies tx.paras, AllRuns(tx.paras)
    ensures Tree(tx.paras) && AllSingle(Views(tx.paras)) && fresh(AllRuns(tx.paras) - old(AllRuns(tx.paras)))
    ensures InkOf(Views(tx.paras)) == PaintBox(old(InkOf(Views(tx.paras))), r)
    ensures BoxRecoloured(old(InkOf(Views(tx.paras))), InkOf(Views(tx.paras)), r)
    ensures changed == |DifferIn(old(InkOf(Views(tx.paras))), InkOf(Views(tx.paras)))|
    ensures Flats(tx.paras) == old(Flats(tx.paras)) && Reading(tx.paras) == old(Reading(tx.paras))
    ensures TypedOf(Views(tx.paras)) == old(TypedOf(Views(tx.paras)))
    ensures changed == BoxChanges(old(InkOf(Views(tx.paras))), r)
    ensures changed == 0 && old(AllSingle(Views(tx.paras))) ==>
      Views(tx.paras) == old(Views(tx.paras)) && ChildrenOf(tx.paras) == old(ChildrenOf(tx.paras))
  {
    hide InkOf, PaintBox, Tree, AllSingle, BoxChanges, BoxRecoloured, DifferIn, Views, ChildrenOf, TypedOf, Flats;
    ghost var ink := InkOf(Views(tx.paras));
    BoxPaintMeans(ink, r);
    BoxShapes(ink, r);
    BoxCount(ink, r);
    var _ := SplitMultilineRuns(tx.paras);
    changed := PaintRuns(tx.paras, r);
  }

  // --------------------------------------------------------------------- what follows

  lemma {:induction false} PaintedNoChanges(lines: seq<seq<Seg>>, r: Rule)
    ensures ChangesAll(PaintAll(lines, r), r) == 0
  {
    hide Paint, LineChanges, Changes;
    if lines != [] {
      var init, last := lines[..|lines| - 1], lines[|lines| - 1];
      PaintedNoChanges(init, r);
      PaintIdempotent(last, r);
      NoChanges(Paint(last, r), Paint(last, r));
      LineChangesIs(Paint(last, r), r);
      assert PaintAll(lines, r)[..|init|] == PaintAll(init, r);
    }
  }

  lemma {:induction false} PaintedBoxNoChanges(ink: seq<seq<seq<Seg>>>, r: Rule)
    ensures BoxChanges(PaintBox(ink, r), r) == 0
  {
    if ink != [] {
      var init, last := ink[..|ink| - 1], ink[|ink| - 1];
      PaintedBoxNoChanges(init, r);
      PaintedNoChanges(last, r);
      assert PaintBox(ink, r)[..|init|] == PaintBox(init, r);
    }
  }

  /** Recolouring a box that was recoloured changes nothing in it: no run is split, and every
      run keeps its text, colour and place. */
  method RecolourAgain(tx: TextBody, r: Rule, ghost ink: seq<seq<seq<Seg>>>) returns (changed: nat)
    requires Tree(tx.paras) && AllSingle(Views(tx.paras)) && InkOf(Views(tx.paras)) == PaintBox(ink, r)
    modifies tx.paras, AllRuns(tx.paras)
    ensures changed == 0 && Tree(tx.paras)
    ensures Views(tx.paras) == old(Views(tx.paras)) && ChildrenOf(tx.paras) == old(ChildrenOf(tx.paras))
  {
    hide InkOf, PaintBox, Tree, AllSingle, BoxChanges, AllRuns, Views, ChildrenOf, TypedOf, Flats;
    PaintedBoxNoChanges(ink, r);
    changed := RecolourBox(tx, r);
  }

  /** Recolouring twice: `views` and `children` are what the first pass left. */
  method RecolourTwice(tx: TextBody, r: Rule)
    returns (first: nat, second: nat, ghost views: seq<seq<Piece>>, ghost children: seq<seq<Child>>)
    requires Tree(tx.paras)
    modifies tx.paras, AllRuns(tx.paras)
    ensures second == 0 && first == BoxChanges(old(InkOf(Views(tx.paras))), r)
    ensures InkOf(views) == PaintBox(old(InkOf(Views(tx.paras))), r)
    ensures Views(tx.paras) == views && ChildrenOf(tx.paras) == children
  {
    hide InkOf, PaintBox, Tree, AllSingle, BoxChanges, AllRuns, Views, ChildrenOf, TypedOf, Flats;
    ghost var ink := InkOf(Views(tx.paras));
    first := RecolourBox(tx, r);
    views, children := Views(tx.paras), ChildrenOf(tx.paras);
    second := RecolourAgain(tx, r, ink);
  }

  lemma {:induction false} InkedShape(line: seq<Seg>, r: Rule)
    ensures Paintable(Inked(line), r) <==> Paintable(line, r)
    ensures CommentTrails(Inked(line), r) <==> CommentTrails(line, r)
  {
    if line != [] {
      var before, last := line[..|line| - 1], line[|line| - 1];
      InkedShape(before, r);
      InkedMode(before, r);
      InkedLast(line);
      LastOfLine(line, r);
      if last.text != "" { LastOfLine(Inked(line), r); }
      hide Inked, Paintable, CommentTrails, ModeOf;
    }
  }

  lemma AuditSees(line: seq<Seg>, r: Rule)
    ensures Hits(Inked(line), r) == Hits(line, r) && JoinText(Inked(line)) == JoinText(line)
  {
    InkedMode(line, r);
    InkedHits(line, r.isComment(JoinText(line)), r);
  }

  /** v is what a paragraph was, w what recolouring to the house colours left: the
      independent checker reports nothing on line i exactly when that line is blank, or it
      was all ours to paint and is a comment, or a code line on which nothing but comments
      follows the start of a trailing comment. */
  lemma AuditClean(v: seq<Piece>, w: seq<Piece>, i: nat, r: Rule)
    requires r.House() && InkLines(w) == PaintAll(InkLines(v), r) && i < |AuditLines(v)|
    ensures |AuditLines(w)| == |AuditLines(v)|
    ensures var line := AuditLines(v)[i];
            Hits(AuditLines(w)[i], r) == {} <==>
            (|| Blank(JoinText(line))
             || (Paintable(line, r) && (r.isComment(JoinText(line)) || CommentTrails(line, r))))
  {
    var line := AuditLines(v)[i];
    assert |InkLines(w)| == |InkLines(v)|;
    assert InkLines(w)[i] == Paint(Inked(line), r);
    AuditSees(AuditLines(w)[i], r);
    AuditSees(line, r);
    InkedShape(line, r);
    CleanAfterPaint(Inked(line), r);
  }
}
