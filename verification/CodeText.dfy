/** How the deck editors read a code box: `code_lines` (scripts/deck_edit.py). A box may
    keep one line per paragraph, lines parted by breaks, lines parted by newlines inside
    runs, or any mix; runs may be split anywhere. */
module CodeText {
  import opened Text
  import opened TextTree

  // --------------------------------------------------------------- lists of lines

  /** Two lists of lines end to end: the last of one and the first of the other join. */
  function Glue<T>(a: seq<seq<T>>, b: seq<seq<T>>): (r: seq<seq<T>>)
    requires a != [] && b != []
    ensures |r| == |a| + |b| - 1
  {
    a[..|a| - 1] + [a[|a| - 1] + b[0]] + b[1..]
  }

  lemma LastApart<T>(l: seq<T>)
    requires l != []
    ensures l == l[..|l| - 1] + [l[|l| - 1]]
  {
  }

  lemma JoinApart<T>(a: seq<T>, b: seq<T>)
    requires b != []
    ensures a + b == (a + b[..|b| - 1]) + [b[|b| - 1]]
  {
  }

  lemma PlusAssoc<T>(a: seq<T>, b: seq<T>, c: seq<T>)
    ensures a + b + c == a + (b + c)
  {
  }

  lemma GlueAssoc<T>(a: seq<seq<T>>, b: seq<seq<T>>, c: seq<seq<T>>)
    requires a != [] && b != [] && c != []
    ensures Glue(Glue(a, b), c) == Glue(a, Glue(b, c))
  {
    if |b| == 1 {
      assert (a[|a| - 1] + b[0]) + c[0] == a[|a| - 1] + (b[0] + c[0]);
    }
  }

  lemma GlueUnit<T>(a: seq<seq<T>>)
    requires a != []
    ensures Glue(a, [[]]) == a && Glue([[]], a) == a
  {
    assert a[|a| - 1] + [] == a[|a| - 1] && [] + a[0] == a[0];
  }

  lemma GlueAround<T>(a: seq<seq<T>>, b: seq<seq<T>>)
    requires a != [] && b != []
    ensures Glue(Glue(a, [[], []]), b) == a + b
  {
    assert a[|a| - 1] + [] == a[|a| - 1] && [] + b[0] == b[0];
  }

  lemma GlueChar<T>(a: seq<seq<T>>, x: T)
    requires a != []
    ensures Glue(a, [[], []]) == a + [[]]
    ensures Glue(a, [[x]]) == a[..|a| - 1] + [a[|a| - 1] + [x]]
  {
    assert a[|a| - 1] + [] == a[|a| - 1];
  }

  lemma GlueHead<T>(a: seq<seq<T>>, x: seq<T>, b: seq<seq<T>>)
    requires b != []
    ensures Glue(a + [x], b) == a + Glue([x], b)
  {
  }

  function CharLines(c: char): (lines: seq<string>)
    ensures lines != []
  {
    if c == '\n' then ["", ""] else [[c]]
  }

  /** `s.split("\n")` */
  function SplitLines(s: string): (lines: seq<string>)
    ensures lines != []
  {
    if s == "" then [""] else Glue(SplitLines(s[..|s| - 1]), CharLines(s[|s| - 1]))
  }

  lemma SplitChar(s: string, c: char)
    ensures SplitLines(s + [c]) == Glue(SplitLines(s), CharLines(c)) && SplitLines("") == [""]
  {
    assert (s + [c])[..|s|] == s;
  }

  lemma {:induction false} SplitGlue(s: string, t: string)
    ensures SplitLines(s + t) == Glue(SplitLines(s), SplitLines(t))
  {
    hide Glue, SplitLines;
    if t == "" {
      assert s + t == s;
      SplitChar("", ' ');
      GlueUnit(SplitLines(s));
    } else {
      var n := |t| - 1;
      SplitGlue(s, t[..n]);
      LastApart(t);
      JoinApart(s, t);
      SplitChar(s + t[..n], t[n]);
      SplitChar(t[..n], t[n]);
      GlueAssoc(SplitLines(s), SplitLines(t[..n]), CharLines(t[n]));
    }
  }

  predicate OneLine(s: string) {
    '\n' !in s
  }

  lemma {:induction false} SplitOne(s: string)
    ensures SplitLines(s) == [s] <==> OneLine(s)
    ensures |SplitLines(s)| == 1 <==> OneLine(s)
    ensures forall k :: 0 <= k < |SplitLines(s)| ==> OneLine(SplitLines(s)[k])
  {
    if s != "" {
      var init := s[..|s| - 1];
      SplitOne(init);
      assert s == init + [s[|s| - 1]];
      var before := SplitLines(init);
      assert s[|s| - 1] == '\n' ==> SplitLines(s) == before + [""]
        by { assert before[|before| - 1] + "" == before[|before| - 1]; }
    }
  }

  /** `"\n".join(lines)` */
  function JoinLines(lines: seq<string>): string {
    if lines == [] then ""
    else if |lines| == 1 then lines[0]
    else JoinLines(lines[..|lines| - 1]) + "\n" + lines[|lines| - 1]
  }

  lemma JoinLast(l: seq<string>, last: string)
    requires l != []
    ensures JoinLines(l + [last]) == JoinLines(l) + "\n" + last
  {
  }

  /** One more character. */
  lemma SplitMore(t: string)
    requires t != ""
    ensures var l, c := SplitLines(t[..|t| - 1]), t[|t| - 1];
            SplitLines(t) == if c == '\n' then l + [""] else l[..|l| - 1] + [l[|l| - 1] + [c]]
  {
    GlueChar(SplitLines(t[..|t| - 1]), t[|t| - 1]);
    hide Glue;
  }

  lemma {:induction false} JoinSplit(t: string)
    ensures JoinLines(SplitLines(t)) == t
  {
    if t != "" {
      var init, c := t[..|t| - 1], t[|t| - 1];
      JoinSplit(init);
      var l := SplitLines(init);
      assert t == init + [c];
      SplitMore(t);
      hide SplitLines, JoinLines;
      JoinLast(l, "");
      LastApart(l);
    }
  }

  /** The lines of each string in turn. */
  function Relines(texts: seq<string>): seq<string> {
    if texts == [] then [] else Relines(texts[..|texts| - 1]) + SplitLines(texts[|texts| - 1])
  }

  lemma SplitAround(s: string, t: string)
    ensures SplitLines(s + "\n" + t) == SplitLines(s) + SplitLines(t)
  {
    SplitGlue(s, "\n");
    SplitGlue(s + "\n", t);
    assert SplitLines("\n") == ["", ""] by {
      assert "\n"[..0] == "";
      GlueUnit(CharLines('\n'));
    }
    hide SplitLines, Glue;
    GlueAround(SplitLines(s), SplitLines(t));
  }

  /** Splitting what was joined: a newline inside a line splits it too. */
  lemma {:induction false} SplitJoin(lines: seq<string>)
    requires lines != []
    ensures SplitLines(JoinLines(lines)) == Relines(lines)
  {
    hide SplitLines;
    var init, last := lines[..|lines| - 1], lines[|lines| - 1];
    if init == [] {
      assert Relines(init) == [];
    } else {
      SplitJoin(init);
      SplitAround(JoinLines(init), last);
    }
  }

  ghost predicate AllOneLine(lines: seq<string>) {
    forall k :: 0 <= k < |lines| ==> OneLine(lines[k])
  }

  /** A list of texts reads back as itself exactly when none of them holds a newline. */
  lemma {:induction false} RelinesExact(lines: seq<string>)
    ensures Relines(lines) == lines <==> AllOneLine(lines)
    ensures |Relines(lines)| >= |lines|
    ensures |Relines(lines)| == |lines| ==> AllOneLine(lines)
  {
    if lines != [] {
      RelinesExact(lines[..|lines| - 1]);
      SplitOne(lines[|lines| - 1]);
      assert lines == lines[..|lines| - 1] + [lines[|lines| - 1]];
    }
  }

  /** What is read never holds a newline. */
  lemma {:induction false} RelinesOneLine(texts: seq<string>)
    ensures AllOneLine(Relines(texts))
  {
    if texts != [] {
      RelinesOneLine(texts[..|texts| - 1]);
      SplitOne(texts[|texts| - 1]);
    }
  }

  lemma RelinesAppend(texts: seq<string>, t: string)
    ensures Relines(texts + [t]) == Relines(texts) + SplitLines(t)
  {
  }

  // ------------------------------------------------------------------- paragraphs

  /** What a reader of code sees of a child; a field's text is not part of the code. */
  datatype Piece = Ink(text: string, rgb: Option<Rgb>, format: nat) | Brk(style: nat) | Skip

  function PieceOf(c: Child): Piece
    reads if c.RunChild? then {c.run} else {}
  {
    match c
    case RunChild(r) => Ink(r.text, r.rgb, r.format)
    case Field(_) => Skip
    case Break(style) => Brk(style)
  }

  ghost function View(c: seq<Child>): (v: seq<Piece>)
    reads RunsOf(c)
    ensures |v| == |c| && forall i :: 0 <= i < |c| ==> v[i] == PieceOf(c[i])
  {
    if c == [] then [] else View(c[..|c| - 1]) + [PieceOf(c[|c| - 1])]
  }

  /** Runs that did not change read the same. */
  twostate lemma {:induction false} ViewStable(c: seq<Child>)
    requires forall i :: 0 <= i < |c| && c[i].RunChild? ==>
        c[i].run.text == old(c[i].run.text) && c[i].run.rgb == old(c[i].run.rgb)
    ensures View(c) == old(View(c))
  {
    if c != [] { ViewStable(c[..|c| - 1]); }
  }

  function PieceText(x: Piece): string {
    match x
    case Ink(t, _, _) => t
    case Brk(_) => "\n"
    case Skip => ""
  }

  /** The code of a paragraph as one string, a break being a newline. */
  function Flat(v: seq<Piece>): string {
    if v == [] then "" else Flat(v[..|v| - 1]) + PieceText(v[|v| - 1])
  }

  lemma FlatAppend(v: seq<Piece>, x: Piece)
    ensures Flat(v + [x]) == Flat(v) + PieceText(x)
  {
  }

  /** The flat texts of a box's paragraphs, and the code lines they hold. */
  ghost function Flats(ps: seq<Paragraph>): (f: seq<string>)
    reads *
    ensures |f| == |ps| && forall k :: 0 <= k < |ps| ==> f[k] == Flat(View(ps[k].children))
  {
    seq(|ps|, k requires 0 <= k < |ps| reads * => Flat(View(ps[k].children)))
  }

  ghost function Reading(ps: seq<Paragraph>): seq<string>
    reads *
  {
    Relines(Flats(ps))
  }

  // -------------------------------------------------------------------- code_lines

  /** A line as `code_lines` reports it: `run` is the one to take the format from. */
  datatype CodeLine = CodeLine(p: Paragraph, run: Option<Run>, br: Option<Child>, text: string, nonblank: bool)

  ghost function TextsOf(lines: seq<CodeLine>): (t: seq<string>)
    ensures |t| == |lines| && forall k :: 0 <= k < |lines| ==> t[k] == lines[k].text
  {
    if lines == [] then [] else TextsOf(lines[..|lines| - 1]) + [lines[|lines| - 1].text]
  }

  lemma TextsAppend(a: seq<CodeLine>, b: seq<CodeLine>)
    ensures TextsOf(a + b) == TextsOf(a) + TextsOf(b)
  {
  }

  /** The parts of runs on a line, and the break that ends it. */
  datatype Row = Row(marks: seq<(Run, string)>, br: Option<Child>)

  /** The first run that puts text that is not blank on the line. */
  function FirstInked(marks: seq<(Run, string)>): (r: Option<Run>)
    ensures r.None? ==> forall h :: 0 <= h < |marks| ==> Blank(marks[h].1)
    ensures r.Some? ==> exists k :: 0 <= k < |marks| && marks[k].0 == r.value && !Blank(marks[k].1)
                                    && forall h :: 0 <= h < k ==> Blank(marks[h].1)
  {
    if marks == [] then None
    else
      var before := FirstInked(marks[..|marks| - 1]);
      if before.Some? then before else if !Blank(marks[|marks| - 1].1) then Some(marks[|marks| - 1].0) else None
  }

  /** The run to take the line's format from: that one, or on a blank line the first there is. */
  function TemplateOf(marks: seq<(Run, string)>): Option<Run> {
    if FirstInked(marks).Some? then FirstInked(marks) else if marks == [] then None else Some(marks[0].0)
  }

  lemma TemplateMeans(marks: seq<(Run, string)>)
    ensures TemplateOf(marks).None? <==> marks == []
    ensures TemplateOf(marks).Some? ==>
              exists k :: 0 <= k < |marks| && marks[k].0 == TemplateOf(marks).value && (!Blank(marks[k].1) || k == 0)
                          && forall h :: 0 <= h < (if Blank(marks[k].1) then |marks| else k) ==> Blank(marks[h].1)
  {
    hide Blank;
  }

  function RowText(marks: seq<(Run, string)>): string {
    if marks == [] then "" else RowText(marks[..|marks| - 1]) + marks[|marks| - 1].1
  }

  function LineOf(p: Paragraph, row: Row): CodeLine {
    CodeLine(p, TemplateOf(row.marks), row.br, RowText(row.marks), FirstInked(row.marks).Some?)
  }

  ghost function LinesFor(p: Paragraph, rows: seq<Row>): (l: seq<CodeLine>)
    ensures |l| == |rows| && forall k :: 0 <= k < |l| ==> l[k] == LineOf(p, rows[k])
  {
    seq(|rows|, k requires 0 <= k < |rows| => LineOf(p, rows[k]))
  }

  function GlueRows(a: seq<Row>, b: seq<Row>): (r: seq<Row>)
    requires a != [] && b != []
    ensures |r| == |a| + |b| - 1
  {
    a[..|a| - 1] + [Row(a[|a| - 1].marks + b[0].marks, b[0].br)] + b[1..]
  }

  function PartRows(r: Run, parts: seq<string>): (rows: seq<Row>)
    ensures |rows| == |parts| && forall k :: 0 <= k < |parts| ==> rows[k] == Row([(r, parts[k])], None)
  {
    seq(|parts|, k requires 0 <= k < |parts| => Row([(r, parts[k])], None))
  }

  function ChildRows(x: Child): (rows: seq<Row>)
    reads if x.RunChild? then {x.run} else {}
    ensures rows != [] && rows[|rows| - 1].br.None?
  {
    match x
    case RunChild(r) => PartRows(r, SplitLines(r.text))
    case Break(_) => [Row([], Some(x)), Row([], None)]
    case Field(_) => [Row([], None)]
  }

  /** The lines of a paragraph as parts of its runs: a run is cut at its newlines, a break
      ends a line. */
  ghost function RowsOf(c: seq<Child>): (rows: seq<Row>)
    reads RunsOf(c)
    ensures rows != [] && rows[|rows| - 1].br.None?
  {
    if c == [] then [Row([], None)] else GlueRows(RowsOf(c[..|c| - 1]), ChildRows(c[|c| - 1]))
  }

  twostate lemma {:induction false} RowsStable(c: seq<Child>)
    requires forall i :: 0 <= i < |c| && c[i].RunChild? ==> c[i].run.text == old(c[i].run.text)
    ensures RowsOf(c) == old(RowsOf(c))
  {
    if c != [] { RowsStable(c[..|c| - 1]); }
  }

  lemma RowsStep(c: seq<Child>, i: nat)
    requires i < |c|
    ensures RowsOf(c[..i + 1]) == GlueRows(RowsOf(c[..i]), ChildRows(c[i]))
    ensures RowsOf(c[..0]) == [Row([], None)]
  {
    hide ChildRows, GlueRows;
    assert c[..i + 1][..i] == c[..i];
  }

  /** What `code_lines` reads of each paragraph, and of the box. */
  ghost function LinesOfEach(ps: seq<Paragraph>): (each: seq<seq<CodeLine>>)
    reads *
    ensures |each| == |ps| && forall k :: 0 <= k < |ps| ==> each[k] == LinesFor(ps[k], RowsOf(ps[k].children))
  {
    seq(|ps|, k requires 0 <= k < |ps| reads * => LinesFor(ps[k], RowsOf(ps[k].children)))
  }

  ghost function CodeLinesOf(ps: seq<Paragraph>): seq<CodeLine>
    reads *
  {
    Concat(LinesOfEach(ps))
  }

  // ------------------------------------------------------------------- what the rows say

  ghost function RowTexts(rows: seq<Row>): (t: seq<string>)
    ensures |t| == |rows| && forall k :: 0 <= k < |t| ==> t[k] == RowText(rows[k].marks)
  {
    seq(|rows|, k requires 0 <= k < |rows| => RowText(rows[k].marks))
  }

  lemma NoRowText()
    ensures RowText([]) == ""
  {
  }

  lemma RowTextMore(marks: seq<(Run, string)>, x: (Run, string))
    ensures RowText(marks + [x]) == RowText(marks) + x.1
  {
    assert (marks + [x])[..|marks|] == marks;
  }

  lemma {:induction false} RowTextJoin(a: seq<(Run, string)>, b: seq<(Run, string)>)
    ensures RowText(a + b) == RowText(a) + RowText(b)
  {
    hide RowText;
    if b == [] {
      NoRowText();
      assert a + b == a;
    } else {
      var init, x := b[..|b| - 1], b[|b| - 1];
      RowTextJoin(a, init);
      LastApart(b);
      JoinApart(a, b);
      RowTextMore(a + init, x);
      RowTextMore(init, x);
      PlusAssoc(RowText(a), RowText(init), x.1);
    }
  }

  lemma RowTextsGlue(a: seq<Row>, b: seq<Row>)
    requires a != [] && b != []
    ensures RowTexts(GlueRows(a, b)) == Glue(RowTexts(a), RowTexts(b))
  {
    RowTextJoin(a[|a| - 1].marks, b[0].marks);
    hide RowText;
  }

  lemma ChildRowTexts(x: Child)
    ensures RowTexts(ChildRows(x)) == SplitLines(PieceText(PieceOf(x)))
  {
    EmptyLines();
    if x.RunChild? {
      var parts := SplitLines(x.run.text);
      hide SplitLines;
      forall k | 0 <= k < |parts| ensures RowText(PartRows(x.run, parts)[k].marks) == parts[k] {
        assert RowText([(x.run, parts[k])][..0]) == "";
      }
      assert RowTexts(PartRows(x.run, parts)) == parts;
    }
  }

  /** The rows' texts are the lines of the flat text. */
  lemma {:induction false} RowsText(c: seq<Child>)
    ensures RowTexts(RowsOf(c)) == SplitLines(Flat(View(c)))
  {
    hide SplitLines, Glue, GlueRows, ChildRows;
    if c == [] {
      EmptyLines();
      assert RowTexts([Row([], None)]) == [""];
    } else {
      var n := |c| - 1;
      RowsText(c[..n]);
      RowsStep(c, n);
      ViewStep(c, n);
      assert c[..n + 1] == c;
      hide View, Flat, RowsOf;
      ChildRowTexts(c[n]);
      RowTextsGlue(RowsOf(c[..n]), ChildRows(c[n]));
      SplitGlue(Flat(View(c[..n])), PieceText(PieceOf(c[n])));
    }
  }

  /** Parts of the paragraph's runs, breaks of the paragraph. */
  ghost predicate RowIn(row: Row, c: seq<Child>) {
    && (forall k :: 0 <= k < |row.marks| ==> RunChild(row.marks[k].0) in c)
    && (row.br.Some? ==> row.br.value.Break? && row.br.value in c)
  }

  lemma RowWider(row: Row, c: seq<Child>, x: Child)
    requires RowIn(row, c)
    ensures RowIn(row, c + [x])
  {
  }

  lemma ChildRowsIn(c: seq<Child>, x: Child)
    requires x in c
    ensures forall k :: 0 <= k < |ChildRows(x)| ==> RowIn(ChildRows(x)[k], c)
    ensures HasBr(ChildRows(x)) <==> x.Break?
  {
    hide SplitLines;
    if x.Break? { assert ChildRows(x)[0].br.Some?; }
  }

  lemma {:induction false} RowsIn(c: seq<Child>)
    ensures forall k :: 0 <= k < |RowsOf(c)| ==> RowIn(RowsOf(c)[k], c)
    ensures HasBr(RowsOf(c)) <==> AnyBreak(c)
  {
    hide RowIn, HasBr, AnyBreak, ChildRows, GlueRows;
    if c == [] {
      NoRowsIn();
    } else {
      var n := |c| - 1;
      var a, b := RowsOf(c[..n]), ChildRows(c[n]);
      RowsIn(c[..n]);
      assert c == c[..n] + [c[n]] && c[..n + 1] == c;
      hide RowsOf;
      ChildRowsIn(c, c[n]);
      forall k | 0 <= k < |a| ensures RowIn(a[k], c) { RowWider(a[k], c[..n], c[n]); }
      GlueRowsIn(a, b, c);
      AnyBreakStep(c, n);
    }
  }

  lemma NoRowsIn()
    ensures RowIn(Row([], None), []) && !HasBr([Row([], None)]) && !AnyBreak([])
  {
  }

  ghost predicate HasBr(rows: seq<Row>) {
    exists k :: 0 <= k < |rows| && rows[k].br.Some?
  }

  lemma GlueRowsIn(a: seq<Row>, b: seq<Row>, c: seq<Child>)
    requires a != [] && b != []
    requires forall k :: 0 <= k < |a| ==> RowIn(a[k], c)
    requires forall k :: 0 <= k < |b| ==> RowIn(b[k], c)
    ensures forall k :: 0 <= k < |GlueRows(a, b)| ==> RowIn(GlueRows(a, b)[k], c)
    ensures a[|a| - 1].br.None? ==> (HasBr(GlueRows(a, b)) <==> HasBr(a) || HasBr(b))
  {
    var r := GlueRows(a, b);
    if k :| 0 <= k < |a| && a[k].br.Some? { assert a[|a| - 1].br.None? ==> r[k].br.Some?; }
    if k :| 0 <= k < |b| && b[k].br.Some? { assert r[|a| - 1 + k].br.Some?; }
  }

  /** A line with text has a run, one of its paragraph's, to take the format from. */
  ghost predicate Formatted(l: CodeLine, ps: seq<Paragraph>)
    reads ps
  {
    && l.p in ps
    && (l.run.Some? ==> RunChild(l.run.value) in l.p.children)
    && (l.br.Some? ==> l.br.value.Break? && l.br.value in l.p.children)
    && (!Blank(l.text) ==> l.run.Some?)
    && (l.nonblank <==> !Blank(l.text))
  }

  lemma {:induction false} InkedText(marks: seq<(Run, string)>)
    ensures FirstInked(marks).Some? <==> !Blank(RowText(marks))
  {
    if marks != [] {
      var init, x := marks[..|marks| - 1], marks[|marks| - 1];
      InkedText(init);
      BlankAppend(RowText(init), x.1);
    }
  }

  lemma RowFormatted(p: Paragraph, row: Row)
    requires RowIn(row, p.children)
    ensures Formatted(LineOf(p, row), [p])
  {
    hide RowText;
    InkedText(row.marks);
  }

  lemma CodeLinesStep(ps: seq<Paragraph>, i: nat)
    requires i < |ps|
    ensures CodeLinesOf(ps[..i + 1]) == CodeLinesOf(ps[..i]) + LinesFor(ps[i], RowsOf(ps[i].children))
    ensures CodeLinesOf(ps[..0]) == []
  {
    hide RowsOf, LinesFor;
    ConcatStep(LinesOfEach(ps[..i + 1]), i);
    assert LinesOfEach(ps[..i + 1])[..i] == LinesOfEach(ps[..i]);
    assert LinesOfEach(ps[..i + 1])[..i + 1] == LinesOfEach(ps[..i + 1]);
  }

  /** The lines read, line by line: their texts are those of the paragraphs' flat texts, their
      runs and breaks are their paragraphs', and one has a break exactly when some paragraph has. */
  lemma {:induction false} CodeLinesMean(ps: seq<Paragraph>, n: nat)
    requires n <= |ps|
    ensures TextsOf(CodeLinesOf(ps[..n])) == Reading(ps[..n])
    ensures forall k :: 0 <= k < |CodeLinesOf(ps[..n])| ==> Formatted(CodeLinesOf(ps[..n])[k], ps)
    ensures AnyBr(CodeLinesOf(ps[..n])) <==> exists i :: 0 <= i < n && AnyBreak(ps[i].children)
  {
    hide Formatted, SplitLines, Flat, View, AnyBreak, AnyBr, RowsOf, CodeLinesOf, RowText, Reading;
    if n == 0 {
      NothingHere(ps);
    } else {
      var i := n - 1;
      var more := LinesFor(ps[i], RowsOf(ps[i].children));
      CodeLinesMean(ps, i);
      CodeLinesStep(ps, i);
      ReadingStep(ps, i);
      RowsText(ps[i].children);
      TextsAppend(CodeLinesOf(ps[..i]), more);
      assert TextsOf(more) == SplitLines(Flat(View(ps[i].children)));
      ParagraphFormatted(ps, i);
      AnyBrJoin(CodeLinesOf(ps[..i]), more);
    }
  }

  lemma NothingHere(ps: seq<Paragraph>)
    ensures CodeLinesOf(ps[..0]) == [] && Reading(ps[..0]) == [] && !AnyBr([])
  {
  }

  lemma ParagraphFormatted(ps: seq<Paragraph>, i: nat)
    requires i < |ps|
    ensures var l := LinesFor(ps[i], RowsOf(ps[i].children));
            && (forall k :: 0 <= k < |l| ==> Formatted(l[k], ps))
            && (AnyBr(l) <==> AnyBreak(ps[i].children))
  {
    hide RowsOf, RowIn, AnyBreak;
    var rows := RowsOf(ps[i].children);
    RowsIn(ps[i].children);
    forall k | 0 <= k < |rows| ensures Formatted(LineOf(ps[i], rows[k]), ps) {
      RowFormatted(ps[i], rows[k]);
    }
  }

  // ------------------------------------------------------------------------ the reader

  /** `cur` with one part of a run on it: the first run that puts text that is not blank on a
      line is its template, one that puts only blanks there a fallback. */
  function WithPart(cur: CodeLine, run: Run, part: string): CodeLine {
    var now := cur.(text := cur.text + part);
    if !Blank(part) then if now.nonblank then now else now.(run := Some(run), nonblank := true)
    else if now.run.None? then now.(run := Some(run))
    else now
  }

  lemma WithPartIs(p: Paragraph, row: Row, run: Run, part: string)
    ensures WithPart(LineOf(p, row), run, part) == LineOf(p, Row(row.marks + [(run, part)], row.br))
  {
    assert (row.marks + [(run, part)])[..|row.marks|] == row.marks;
    hide RowText, Blank;
  }

  lemma PartRowsMore(row: Row, run: Run, parts: seq<string>, k: nat)
    requires k < |parts|
    ensures GlueRows([row], PartRows(run, parts[..k + 1]))
         == if k == 0 then [Row(row.marks + [(run, parts[0])], None)]
            else GlueRows([row], PartRows(run, parts[..k])) + [Row([(run, parts[k])], None)]
  {
  }

  /** One run's part of the reading. */
  method ReadRun(p: Paragraph, run: Run, cur: CodeLine, ghost row: Row) returns (closed: seq<CodeLine>, now: CodeLine)
    requires cur == LineOf(p, row) && row.br.None?
    ensures closed + [now] == LinesFor(p, GlueRows([row], ChildRows(RunChild(run))))
  {
    hide WithPart, Blank, SplitLines, LineOf;
    closed, now := [], cur;
    var parts := SplitLines(run.text);
    for k := 0 to |parts|
      invariant k == 0 ==> closed == [] && now == cur
      invariant k > 0 ==> closed + [now] == LinesFor(p, GlueRows([row], PartRows(run, parts[..k])))
    {
      PartRowsMore(row, run, parts, k);
      if k == 0 {
        WithPartIs(p, row, run, parts[k]);
      } else {
        closed := closed + [now];
        now := CodeLine(p, None, None, "", false);
        FreshLine(p);
        WithPartIs(p, Row([], None), run, parts[k]);
        assert [] + [(run, parts[k])] == [(run, parts[k])];
      }
      now := WithPart(now, run, parts[k]);
    }
    assert parts[..|parts|] == parts;
  }

  lemma FreshLine(p: Paragraph)
    ensures LineOf(p, Row([], None)) == CodeLine(p, None, None, "", false)
  {
  }

  ghost predicate AnyBr(lines: seq<CodeLine>) {
    exists k :: 0 <= k < |lines| && lines[k].br.Some?
  }

  ghost predicate AnyBreak(c: seq<Child>) {
    exists i :: 0 <= i < |c| && c[i].Break?
  }

  /** More lines after those before the last row. */
  lemma LinesGlue(p: Paragraph, rows: seq<Row>, b: seq<Row>, lines: seq<CodeLine>, cur: CodeLine, more: seq<CodeLine>)
    requires rows != [] && b != [] && lines + [cur] == LinesFor(p, rows)
    requires more == LinesFor(p, GlueRows([rows[|rows| - 1]], b))
    ensures lines + more == LinesFor(p, GlueRows(rows, b))
  {
    hide LineOf;
  }

  lemma LastLine(p: Paragraph, rows: seq<Row>, lines: seq<CodeLine>, cur: CodeLine)
    requires rows != [] && lines + [cur] == LinesFor(p, rows)
    ensures cur == LineOf(p, rows[|rows| - 1])
  {
    hide LineOf;
    assert (lines + [cur])[|rows| - 1] == cur;
  }

  /** One paragraph's lines, each with its template run and the break that ends it. */
  method ReadParagraph(p: Paragraph) returns (lines: seq<CodeLine>)
    ensures lines == LinesFor(p, RowsOf(p.children))
  {
    hide RowsOf, LineOf, SplitLines, GlueRows, LinesFor, ChildRows;
    var c := p.children;
    lines := [];
    var cur := CodeLine(p, None, None, "", false);
    FreshLine(p);
    NoRows(p, c);
    assert [] + [cur] == [cur];
    ghost var rows := RowsOf(c[..0]);
    for i := 0 to |c|
      invariant rows == RowsOf(c[..i]) && lines + [cur] == LinesFor(p, rows)
    {
      label before:
      RowsStep(c, i);
      ghost var row := rows[|rows| - 1];
      ghost var b := ChildRows(c[i]);
      LastLine(p, rows, lines, cur);
      match c[i] {
        case RunChild(r) =>
          var closed, now := ReadRun(p, r, cur, row);
          RowsStable@before(c[..i + 1]);
          LinesGlue(p, rows, b, lines, cur, closed + [now]);
          assert lines + (closed + [now]) == (lines + closed) + [now];
          lines, cur := lines + closed, now;
        case Break(_) =>
          BreakRows(p, row, c[i]);
          var closed, now := cur.(br := Some(c[i])), CodeLine(p, None, None, "", false);
          LinesGlue(p, rows, b, lines, cur, [closed, now]);
          assert lines + [closed, now] == (lines + [closed]) + [now];
          lines, cur := lines + [closed], now;
        case Field(_) =>
          FieldRows(p, row, c[i]);
          LinesGlue(p, rows, b, lines, cur, [cur]);
      }
      rows := RowsOf(c[..i + 1]);
    }
    assert c[..|c|] == c;
    lines := lines + [cur];
  }

  lemma NoRows(p: Paragraph, c: seq<Child>)
    ensures [LineOf(p, Row([], None))] == LinesFor(p, RowsOf(c[..0]))
  {
  }

  lemma BreakRows(p: Paragraph, row: Row, b: Child)
    requires b.Break?
    ensures LinesFor(p, GlueRows([row], ChildRows(b))) == [LineOf(p, row).(br := Some(b)), LineOf(p, Row([], None))]
  {
    assert row.marks + [] == row.marks;
  }

  lemma FieldRows(p: Paragraph, row: Row, x: Child)
    requires x.Field? && row.br.None?
    ensures LinesFor(p, GlueRows([row], ChildRows(x))) == [LineOf(p, row)]
  {
    assert row.marks + [] == row.marks;
  }

  lemma AnyBrJoin(a: seq<CodeLine>, b: seq<CodeLine>)
    ensures AnyBr(a + b) <==> AnyBr(a) || AnyBr(b)
  {
    if AnyBr(a) {
      var k :| 0 <= k < |a| && a[k].br.Some?;
      assert (a + b)[k] == a[k];
    }
    if AnyBr(b) {
      var k :| 0 <= k < |b| && b[k].br.Some?;
      assert (a + b)[|a| + k] == b[k];
    }
  }

  lemma AnyBreakStep(c: seq<Child>, i: nat)
    requires i < |c|
    ensures AnyBreak(c[..i + 1]) <==> AnyBreak(c[..i]) || c[i].Break?
  {
  }

  lemma EmptyLines()
    ensures SplitLines("") == [""] && SplitLines("\n") == ["", ""]
  {
    assert "\n"[..0] == "";
  }

  lemma ViewStep(c: seq<Child>, i: nat)
    requires i < |c|
    ensures View(c[..i + 1]) == View(c[..i]) + [PieceOf(c[i])]
    ensures Flat(View(c[..i + 1])) == Flat(View(c[..i])) + PieceText(PieceOf(c[i]))
  {
    assert c[..i + 1][..i] == c[..i];
    FlatAppend(View(c[..i]), PieceOf(c[i]));
  }

  lemma NoneRead()
    ensures Concat<CodeLine>([]) == []
  {
  }

  /** `code_lines` */
  method CodeLines(ps: seq<Paragraph>) returns (lines: seq<CodeLine>)
    ensures lines == old(CodeLinesOf(ps))
  {
    hide RowsOf, LinesFor, Concat;
    ghost var each := LinesOfEach(ps);
    NoneRead();
    lines := [];
    assert each[..0] == [];
    for i := 0 to |ps|
      invariant lines == Concat(each[..i])
    {
      var more := ReadParagraph(ps[i]);
      RowsStable(ps[i].children);
      ConcatStep(each, i);
      lines := lines + more;
    }
    assert each[..|ps|] == each;
  }

  // --------------------------------------------- the other reader of boxes, by its breaks

  ghost function LineTexts(lines: seq<seq<Child>>): (t: seq<string>)
    reads *
    ensures |t| == |lines| && forall k :: 0 <= k < |lines| ==> t[k] == LineText(lines[k])
  {
    seq(|lines|, k requires 0 <= k < |lines| reads * => LineText(lines[k]))
  }

  /** More text on the last line. */
  lemma RelinesMore(init: seq<string>, last: string, t: string)
    ensures Relines(init + [last + t]) == Glue(Relines(init + [last]), SplitLines(t))
  {
    RelinesAppend(init, last + t);
    RelinesAppend(init, last);
    SplitGlue(last, t);
    hide SplitLines, Relines;
  }

  /** Lines parted by breaks only, then at the newlines inside: the lines `code_lines` reads. */
  lemma {:induction false} ReadersAgree(c: seq<Child>)
    requires NoFields(c)
    ensures SplitLines(Flat(View(c))) == Relines(LineTexts(LinesOf(c)))
  {
    hide SplitLines, Relines, Glue, LinesOf, LineText, View, Flat;
    if c == [] {
      LinesOfOne([]);
      EmptyReading();
    } else {
      var n := |c| - 1;
      var init, x := c[..n], c[n];
      ReadersAgree(init);
      ViewStep(c, n);
      assert c[..n + 1] == c && c == init + [x];
      SplitGlue(Flat(View(init)), PieceText(PieceOf(x)));
      var lines := LinesOf(init);
      var m := |lines| - 1;
      LastApart(LineTexts(lines));
      assert LineTexts(lines)[..m] == LineTexts(lines[..m]);
      if x.Break? {
        LinesBreak(init, x);
        EmptyLines();
        EmptyText();
        assert LineTexts(lines + [[]]) == LineTexts(lines) + [""];
        RelinesAppend(LineTexts(lines), "");
        GlueBreak(Relines(LineTexts(lines)));
      } else {
        LinesExtend(init, [x]);
        TextMore(lines[m], x);
        assert LineTexts(LinesOf(c)) == LineTexts(lines[..m]) + [LineText(lines[m]) + ChildText(x)];
        RelinesMore(LineTexts(lines[..m]), LineText(lines[m]), ChildText(x));
      }
    }
  }

  lemma GlueBreak<T>(a: seq<seq<T>>)
    requires a != []
    ensures Glue(a, [[], []]) == a + [[]]
  {
    assert a[|a| - 1] + [] == a[|a| - 1];
  }

  lemma EmptyText()
    ensures LineText([]) == ""
  {
  }

  lemma EmptyReading()
    ensures SplitLines(Flat(View([]))) == Relines(LineTexts([[]]))
  {
  }

  lemma TextMore(line: seq<Child>, x: Child)
    ensures LineText(line + [x]) == LineText(line) + ChildText(x)
  {
  }

  /** So a box without fields whose lines, parted by breaks, have certain texts, as cut_code
      leaves it, reads as those texts exactly when none of them holds a newline. */
  lemma ReadsAsTexts(ps: seq<Paragraph>, texts: seq<string>)
    requires forall h :: 0 <= h < |ps| ==> NoFields(ps[h].children)
    requires LineTexts(BoxLines(ps)) == texts
    ensures Reading(ps) == texts <==> AllOneLine(texts)
  {
    BoxReadersAgree(ps, |ps|);
    assert ps[..|ps|] == ps;
    RelinesExact(texts);
  }

  lemma {:induction false} BoxReadersAgree(ps: seq<Paragraph>, k: nat)
    requires k <= |ps| && forall h :: 0 <= h < |ps| ==> NoFields(ps[h].children)
    ensures Reading(ps[..k]) == Relines(LineTexts(BoxLines(ps[..k])))
  {
    hide SplitLines, Relines, Flat, View, LinesOf, LineText, Concat;
    if k == 0 {
      assert ps[..0] == [];
      NothingRead();
    } else {
      BoxReadersAgree(ps, k - 1);
      ReadingStep(ps, k - 1);
      ReadersAgree(ps[k - 1].children);
      assert Groups(ps[..k])[..k - 1] == Groups(ps[..k - 1]) && Groups(ps[..k])[..k] == Groups(ps[..k]);
      ConcatStep(Groups(ps[..k]), k - 1);
      var before, more := BoxLines(ps[..k - 1]), LinesOf(ps[k - 1].children);
      assert LineTexts(before + more) == LineTexts(before) + LineTexts(more);
      RelinesJoin(LineTexts(before), LineTexts(more));
    }
  }

  lemma NothingRead()
    ensures Reading([]) == Relines(LineTexts(BoxLines([])))
  {
  }

  lemma ReadingStep(ps: seq<Paragraph>, i: nat)
    requires i < |ps|
    ensures Reading(ps[..i + 1]) == Reading(ps[..i]) + SplitLines(Flat(View(ps[i].children)))
  {
    hide SplitLines, Relines, View, Flat;
    RelinesAppend(Flats(ps[..i]), Flat(View(ps[i].children)));
    assert Flats(ps[..i + 1]) == Flats(ps[..i]) + [Flat(View(ps[i].children))];
  }

  lemma {:induction false} RelinesJoin(a: seq<string>, b: seq<string>)
    ensures Relines(a + b) == Relines(a) + Relines(b)
  {
    assert Relines([]) == [];
    hide Relines, SplitLines;
    if b == [] {
      assert a + b == a;
    } else {
      var init, last := b[..|b| - 1], b[|b| - 1];
      RelinesJoin(a, init);
      RelinesAppend(init, last);
      RelinesAppend(a + init, last);
      LastApart(b);
      JoinApart(a, b);
      PlusAssoc(Relines(a), Relines(init), SplitLines(last));
    }
  }
}
