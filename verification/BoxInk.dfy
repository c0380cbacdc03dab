/** What the checker's reader, `box_lines` (_plans/s12-manifest/tools/colour_audit.py), sees
    of a code box, and why it sees the same once runs are split at their newlines. */
module BoxInk {
  import opened Text
  import opened TextTree
  import opened CodeText
  import opened Colours

  // ------------------------------------------------------------- the checker's reader

  function PartSegs(parts: seq<string>, rgb: Option<Rgb>): (lines: seq<seq<Seg>>)
    ensures |lines| == |parts| && forall k :: 0 <= k < |parts| ==> lines[k] == [Seg(parts[k], rgb)]
  {
    seq(|parts|, k requires 0 <= k < |parts| => [Seg(parts[k], rgb)])
  }

  function PieceSegs(x: Piece): (lines: seq<seq<Seg>>)
    ensures lines != []
  {
    match x
    case Ink(t, rgb, _) => PartSegs(SplitLines(t), rgb)
    case Brk(_) => [[], []]
    case Skip => [[]]
  }

  /** The lines of a paragraph as segments: runs are cut at newlines, breaks end lines. */
  function AuditLines(v: seq<Piece>): (lines: seq<seq<Seg>>)
    ensures lines != []
  {
    if v == [] then [[]] else Glue(AuditLines(v[..|v| - 1]), PieceSegs(v[|v| - 1]))
  }

  method RunSegs(r: Run, cur: seq<Seg>) returns (closed: seq<seq<Seg>>, now: seq<Seg>)
    ensures closed + [now] == Glue([cur], PieceSegs(Ink(r.text, r.rgb, r.format)))
  {
    hide Glue, SplitLines;
    closed, now := [], cur;
    var parts := SplitLines(r.text);
    for k := 0 to |parts|
      invariant k == 0 ==> closed == [] && now == cur
      invariant k > 0 ==> closed + [now] == Glue([cur], PartSegs(parts[..k], r.rgb))
    {
      PartStep(cur, closed, now, parts, k, r.rgb);
      if k > 0 {
        closed := closed + [now];
        now := [];
      }
      assert [] + [Seg(parts[k], r.rgb)] == [Seg(parts[k], r.rgb)];
      now := now + [Seg(parts[k], r.rgb)];
    }
    assert parts[..|parts|] == parts;
  }

  /** `box_lines`, one paragraph's share. */
  method ParagraphLines(p: Paragraph) returns (lines: seq<seq<Seg>>)
    ensures lines == AuditLines(View(p.children))
  {
    hide AuditLines, View, Glue, SplitLines;
    var done: seq<seq<Seg>>, cur: seq<Seg> := [], [];
    NoLines(p.children);
    for i := 0 to |p.children|
      invariant done + [cur] == AuditLines(View(p.children[..i]))
    {
      label before:
      ViewStep(p.children, i);
      ghost var more := PieceSegs(PieceOf(p.children[i]));
      AuditAppend(View(p.children[..i]), PieceOf(p.children[i]));
      GlueHead(done, cur, more);
      assert AuditLines(View(p.children[..i + 1])) == done + Glue([cur], more);
      match p.children[i] {
        case RunChild(r) =>
          hide PieceSegs;
          var closed, now := RunSegs(r, cur);
          ViewStable@before(p.children[..i + 1]);
          assert done + (closed + [now]) == done + closed + [now];
          done, cur := done + closed, now;
        case Break(_) =>
          BreakSegs(cur);
          assert done + [cur, []] == (done + [cur]) + [[]];
          done := done + [cur];
          cur := [];
        case Field(_) =>
          BreakSegs(cur);
      }
    }
    assert p.children[..|p.children|] == p.children;
    lines := done + [cur];
  }

  lemma NoLines(c: seq<Child>)
    ensures AuditLines(View(c[..0])) == [[]]
  {
  }

  lemma AuditAppend(v: seq<Piece>, x: Piece)
    ensures AuditLines(v + [x]) == Glue(AuditLines(v), PieceSegs(x))
  {
  }

  lemma BreakSegs(cur: seq<Seg>)
    ensures Glue([cur], [[], []]) == [cur, []] && Glue([cur], [[]]) == [cur]
  {
    assert cur + [] == cur;
  }

  lemma PartStep(head: seq<Seg>, closed: seq<seq<Seg>>, now: seq<Seg>, parts: seq<string>, k: nat, rgb: Option<Rgb>)
    requires k < |parts| && (k == 0 ==> closed == [] && now == head)
    requires k > 0 ==> closed + [now] == Glue([head], PartSegs(parts[..k], rgb))
    ensures Glue([head], PartSegs(parts[..k + 1], rgb))
         == if k == 0 then [now + [Seg(parts[0], rgb)]] else closed + [now] + [[Seg(parts[k], rgb)]]
  {
  }

  // ---------------------------------------------------- lines without their empty segments

  function InkedAll(lines: seq<seq<Seg>>): (r: seq<seq<Seg>>)
    ensures |r| == |lines| && forall k :: 0 <= k < |r| ==> r[k] == Inked(lines[k])
  {
    seq(|lines|, k requires 0 <= k < |lines| => Inked(lines[k]))
  }

  /** What the checker sees of a paragraph, segments without text left out. */
  function InkLines(v: seq<Piece>): (lines: seq<seq<Seg>>)
    ensures lines != []
  {
    InkedAll(AuditLines(v))
  }

  lemma {:induction false} InkedJoin(a: seq<Seg>, b: seq<Seg>)
    ensures Inked(a + b) == Inked(a) + Inked(b)
  {
    if b == [] {
      assert a + b == a;
    } else {
      var init, x := b[..|b| - 1], b[|b| - 1];
      InkedJoin(a, init);
      hide Inked;
      LastApart(b);
      JoinApart(a, b);
    }
  }

  /** The text of a line is its segments' texts, from the first to the last. */
  lemma {:induction false} JoinTextParts(a: seq<Seg>, b: seq<Seg>)
    ensures JoinText(a + b) == JoinText(a) + JoinText(b)
    ensures |a| == 1 ==> JoinText(a) == a[0].text
  {
    if |a| == 1 { assert a[..0] == [] && JoinText([]) == ""; }
    if b == [] {
      assert a + b == a && JoinText(b) == "";
    } else {
      var init, x := b[..|b| - 1], b[|b| - 1];
      JoinTextLast(b);
      JoinTextLast(a + b);
      hide JoinText;
      JoinTextParts(a, init);
      assert (a + b)[..|a + b| - 1] == a + init;
      PlusAssoc(JoinText(a), JoinText(init), x.text);
    }
  }

  lemma JoinTextLast(s: seq<Seg>)
    requires s != []
    ensures JoinText(s) == JoinText(s[..|s| - 1]) + s[|s| - 1].text
  {
  }

  lemma InkedGlue(a: seq<seq<Seg>>, b: seq<seq<Seg>>)
    requires a != [] && b != []
    ensures InkedAll(Glue(a, b)) == Glue(InkedAll(a), InkedAll(b))
  {
    InkedJoin(a[|a| - 1], b[0]);
  }

  lemma InkLinesAppend(v: seq<Piece>, x: Piece)
    ensures InkLines(v + [x]) == Glue(InkLines(v), InkedAll(PieceSegs(x)))
  {
    assert (v + [x])[..|v|] == v;
    InkedGlue(AuditLines(v), PieceSegs(x));
  }

  lemma NoInk()
    ensures InkLines([]) == [[]] && Flat([]) == ""
  {
  }

  lemma {:induction false} InkLinesJoin(v: seq<Piece>, w: seq<Piece>)
    ensures InkLines(v + w) == Glue(InkLines(v), InkLines(w))
    ensures Flat(v + w) == Flat(v) + Flat(w)
  {
    hide Glue, InkLines, InkedAll, Flat;
    if w == [] {
      assert v + w == v;
      GlueUnit(InkLines(v));
      NoInk();
      assert Flat(v) + "" == Flat(v);
    } else {
      var init, x := w[..|w| - 1], w[|w| - 1];
      InkLinesJoin(v, init);
      assert w == init + [x] && v + w == (v + init) + [x];
      InkLinesAppend(v + init, x);
      InkLinesAppend(init, x);
      GlueAssoc(InkLines(v), InkLines(init), InkedAll(PieceSegs(x)));
      FlatAppend(v + init, x);
      FlatAppend(init, x);
    }
  }

  // ---------------------------------------------------------- characters and their formats

  function TypedText(t: string, f: nat): (r: seq<(char, nat)>)
    ensures |r| == |t| && forall i :: 0 <= i < |t| ==> r[i] == (t[i], f)
  {
    seq(|t|, i requires 0 <= i < |t| => (t[i], f))
  }

  function TypedPiece(x: Piece): seq<(char, nat)> {
    match x
    case Ink(t, _, f) => TypedText(t, f)
    case Brk(style) => [('\n', style)]
    case Skip => []
  }

  /** The code with the format of each character, a break being a newline. */
  function Typed(v: seq<Piece>): seq<(char, nat)> {
    if v == [] then [] else Typed(v[..|v| - 1]) + TypedPiece(v[|v| - 1])
  }

  lemma TypedAppend(v: seq<Piece>, x: Piece)
    ensures Typed(v + [x]) == Typed(v) + TypedPiece(x)
  {
    assert (v + [x])[..|v|] == v;
  }

  lemma {:induction false} TypedJoin(v: seq<Piece>, w: seq<Piece>)
    ensures Typed(v + w) == Typed(v) + Typed(w)
  {
    hide Typed, TypedPiece;
    if w == [] {
      NoneTyped(None, 0);
      assert v + w == v;
    } else {
      var init, x := w[..|w| - 1], w[|w| - 1];
      TypedJoin(v, init);
      TypedAppend(v + init, x);
      TypedAppend(init, x);
      LastApart(w);
      JoinApart(v, w);
      PlusAssoc(Typed(v), Typed(init), TypedPiece(x));
    }
  }

  lemma NoneTyped(rgb: Option<Rgb>, f: nat)
    ensures Typed(Inks([], rgb, f)) == [] == TypedText(Flat(Inks([], rgb, f)), f) && Typed([]) == []
  {
  }

  lemma TypedTextJoin(s: string, t: string, f: nat)
    ensures TypedText(s + t, f) == TypedText(s, f) + TypedText(t, f)
  {
  }

  /** Pieces in one format. */
  lemma {:induction false} TypedInks(texts: seq<string>, rgb: Option<Rgb>, f: nat)
    ensures Typed(Inks(texts, rgb, f)) == TypedText(Flat(Inks(texts, rgb, f)), f)
  {
    hide Typed, Flat;
    if texts == [] {
      NoneTyped(rgb, f);
    } else {
      var init, x := texts[..|texts| - 1], texts[|texts| - 1];
      TypedInks(init, rgb, f);
      assert Inks(texts, rgb, f) == Inks(init, rgb, f) + [Ink(x, rgb, f)];
      var v := Inks(init, rgb, f);
      hide Inks;
      TypedAppend(v, Ink(x, rgb, f));
      FlatAppend(v, Ink(x, rgb, f));
      TypedTextJoin(Flat(v), x, f);
    }
  }

  // ------------------------------------------------------------------- splitting runs

  /** `s.rstrip("\n")` */
  function StripNewlines(s: string): (r: string)
    ensures r <= s
  {
    if s != "" && s[|s| - 1] == '\n' then StripNewlines(s[..|s| - 1]) else s
  }

  /** A run that is left whole: at most one newline, and that at the end. */
  predicate Single(t: string) {
    OneLine(StripNewlines(t)) && |SplitLines(t)| - 1 <= 1
  }

  /** The pieces of a run with more lines: each but the last keeps its newline. */
  function Pieces(parts: seq<string>): seq<string>
    requires parts != []
  {
    Ended(parts[..|parts| - 1]) + if parts[|parts| - 1] == "" then [] else [parts[|parts| - 1]]
  }

  function Ended(parts: seq<string>): (r: seq<string>)
    ensures |r| == |parts| && forall k :: 0 <= k < |r| ==> r[k] == parts[k] + "\n"
  {
    seq(|parts|, k requires 0 <= k < |parts| => parts[k] + "\n")
  }

  function Inks(texts: seq<string>, rgb: Option<Rgb>, f: nat): (v: seq<Piece>)
    ensures |v| == |texts| && forall k :: 0 <= k < |v| ==> v[k] == Ink(texts[k], rgb, f)
  {
    seq(|texts|, k requires 0 <= k < |texts| => Ink(texts[k], rgb, f))
  }

  lemma SplitEnded(t: string)
    requires OneLine(t)
    ensures SplitLines(t + "\n") == [t, ""]
  {
    SplitOne(t);
    SplitAround(t, "");
    assert t + "\n" + "" == t + "\n";
  }

  lemma GlueTail<T>(a: seq<seq<T>>, x: seq<T>)
    ensures Glue(a + [[]], [x]) == a + [x]
    ensures Glue(a + [[]], [x, []]) == a + [x] + [[]]
  {
    assert [] + x == x;
  }

  lemma EndedLast(parts: seq<string>, rgb: Option<Rgb>, f: nat)
    requires parts != []
    ensures var init, last := parts[..|parts| - 1], parts[|parts| - 1];
            && Inks(Ended(parts), rgb, f) == Inks(Ended(init), rgb, f) + [Ink(last + "\n", rgb, f)]
            && Inks(Pieces(parts), rgb, f) == Inks(Ended(init), rgb, f) + if last == "" then [] else [Ink(last, rgb, f)]
  {
  }

  lemma OnePiece(t: string, rgb: Option<Rgb>, f: nat)
    requires OneLine(t)
    ensures InkedAll(PieceSegs(Ink(t, rgb, f))) == [Inked([Seg(t, rgb)])]
    ensures InkedAll(PieceSegs(Ink(t + "\n", rgb, f))) == [Inked([Seg(t, rgb)]), []]
  {
    SplitOne(t);
    SplitEnded(t);
    assert Inked([Seg("", rgb)]) == [] by { assert [Seg("", rgb)][..0] == []; }
  }

  lemma PartsLast(parts: seq<string>, rgb: Option<Rgb>)
    requires parts != []
    ensures var init, last := parts[..|parts| - 1], parts[|parts| - 1];
            InkedAll(PartSegs(parts, rgb)) == InkedAll(PartSegs(init, rgb)) + [Inked([Seg(last, rgb)])]
  {
  }

  lemma {:induction false} EndedInks(parts: seq<string>, rgb: Option<Rgb>, f: nat)
    requires forall k :: 0 <= k < |parts| ==> OneLine(parts[k])
    ensures InkLines(Inks(Ended(parts), rgb, f)) == InkedAll(PartSegs(parts, rgb)) + [[]]
  {
    hide Glue, InkLines, InkedAll, PieceSegs;
    if parts == [] {
      NoInk();
      assert InkedAll(PartSegs([], rgb)) == [];
    } else {
      var init, last := parts[..|parts| - 1], parts[|parts| - 1];
      EndedInks(init, rgb, f);
      OnePiece(last, rgb, f);
      EndedLast(parts, rgb, f);
      InkLinesAppend(Inks(Ended(init), rgb, f), Ink(last + "\n", rgb, f));
      GlueTail(InkedAll(PartSegs(init, rgb)), Inked([Seg(last, rgb)]));
      PartsLast(parts, rgb);
    }
  }

  /** The pieces show the checker what the whole run did. */
  lemma PiecesInk(t: string, rgb: Option<Rgb>, f: nat)
    ensures InkLines(Inks(Pieces(SplitLines(t)), rgb, f)) == InkedAll(PieceSegs(Ink(t, rgb, f)))
  {
    SplitOne(t);
    var parts := SplitLines(t);
    assert PieceSegs(Ink(t, rgb, f)) == PartSegs(parts, rgb);
    EndedLast(parts, rgb, f);
    hide Glue, InkLines, InkedAll, PieceSegs, SplitLines, Pieces;
    var init, last := parts[..|parts| - 1], parts[|parts| - 1];
    EndedInks(init, rgb, f);
    PartsLast(parts, rgb);
    var ended := Inks(Ended(init), rgb, f);
    if last == "" {
      assert ended + [] == ended;
      assert Inked([Seg("", rgb)]) == [] by { assert [Seg("", rgb)][..0] == []; }
    } else {
      InkLinesAppend(ended, Ink(last, rgb, f));
      OnePiece(last, rgb, f);
      GlueTail(InkedAll(PartSegs(init, rgb)), Inked([Seg(last, rgb)]));
    }
  }

  lemma NoEnded(last: string, rgb: Option<Rgb>, f: nat)
    ensures Flat(Inks(Ended([]), rgb, f)) + last == JoinLines([] + [last])
  {
  }

  lemma {:induction false} EndedFlat(parts: seq<string>, last: string, rgb: Option<Rgb>, f: nat)
    ensures Flat(Inks(Ended(parts), rgb, f)) + last == JoinLines(parts + [last])
  {
    hide Flat, JoinLines, Inks, Ended;
    if parts == [] {
      NoEnded(last, rgb, f);
    } else {
      var init, x := parts[..|parts| - 1], parts[|parts| - 1];
      EndedFlat(init, x, rgb, f);
      assert parts == init + [x];
      JoinLast(parts, last);
      EndedLast(parts, rgb, f);
      FlatAppend(Inks(Ended(init), rgb, f), Ink(x + "\n", rgb, f));
      var head := Flat(Inks(Ended(init), rgb, f));
    }
  }

  /** The pieces together are the text of the run. */
  lemma PiecesFlat(t: string, rgb: Option<Rgb>, f: nat)
    ensures Flat(Inks(Pieces(SplitLines(t)), rgb, f)) == t
  {
    JoinSplit(t);
    hide Flat, JoinLines, SplitLines, Pieces;
    var parts := SplitLines(t);
    EndedLast(parts, rgb, f);
    var init, last := parts[..|parts| - 1], parts[|parts| - 1];
    EndedFlat(init, last, rgb, f);
    assert parts == init + [last];
    var ended := Inks(Ended(init), rgb, f);
    if last == "" {
      assert ended + [] == ended;
      assert Flat(ended) + "" == Flat(ended);
    } else {
      FlatAppend(ended, Ink(last, rgb, f));
    }
  }

  /** No piece needs splitting again, and a run that does has two pieces at least. */
  lemma PiecesSingle(t: string)
    ensures forall k :: 0 <= k < |Pieces(SplitLines(t))| ==> Single(Pieces(SplitLines(t))[k])
    ensures !Single(t) ==> |Pieces(SplitLines(t))| >= 2
  {
    hide SplitLines, Single;
    var parts := SplitLines(t);
    SplitOne(t);
    forall k | 0 <= k < |parts| ensures Single(parts[k]) && Single(parts[k] + "\n") {
      EndedSingle(parts[k]);
    }
    if |parts| == 1 {
      EndedSingle(t);
    } else if |parts| == 2 && parts[1] == "" {
      JoinSplit(t);
      assert t == parts[0] + "\n" by { JoinLast([parts[0]], ""); assert parts == [parts[0]] + [""]; }
    }
  }

  lemma EndedSingle(t: string)
    requires OneLine(t)
    ensures Single(t) && Single(t + "\n")
  {
    SplitEnded(t);
    SplitOne(t);
    assert (t + "\n")[..|t|] == t;
  }

  /** The text of a run that is left whole. */
  lemma SingleMeans(t: string)
    requires Single(t)
    ensures var u := StripNewlines(t); OneLine(u) && (t == u || t == u + "\n")
    ensures t == StripNewlines(t) <==> (t == "" || t[|t| - 1] != '\n')
  {
    if t != "" && t[|t| - 1] == '\n' {
      var init := t[..|t| - 1];
      LastApart(t);
      Closed(init, t);
      hide SplitLines;
      SplitOne(init);
      assert StripNewlines(t) == init;
    }
  }

  lemma Closed(init: string, t: string)
    requires t == init + "\n"
    ensures SplitLines(t) == SplitLines(init) + [""]
  {
    hide SplitLines;
    SplitAround(init, "");
    assert init + "\n" + "" == t;
    EmptyLines();
  }

}
