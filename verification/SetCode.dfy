/** Rewriting a code box: `op_set_code` (scripts/deck_edit.py) and `code_subst`
    (_plans/s12-manifest/tools/fixA_build.py), against how `code_lines` reads the box and
    how the colour checker sees it. */
module SetCode {
  import opened Text
  import opened TextTree
  import opened CodeText
  import opened Colours
  import opened BoxInk
  import opened Recolour

  // --------------------------------------------------------------------- the new lines

  /** `s.replace("\t", "    ")` */
  function Detab(s: string): string {
    if s == "" then ""
    else Detab(s[..|s| - 1]) + if s[|s| - 1] == '\t' then "    " else [s[|s| - 1]]
  }

  /** A tab becomes four blanks, and any other character stays. */
  lemma {:induction false} DetabParts(a: string, b: string)
    ensures Detab(a + b) == Detab(a) + Detab(b)
    ensures |a| == 1 ==> Detab(a) == if a[0] == '\t' then "    " else a
  {
    if |a| == 1 { assert a[..0] == "" && Detab("") == ""; }
    if b == "" {
      assert a + b == a && Detab(b) == "";
    } else {
      var init := b[..|b| - 1];
      DetabLast(b);
      DetabLast(a + b);
      hide Detab;
      DetabParts(a, init);
      assert (a + b)[..|a + b| - 1] == a + init;
      PlusAssoc(Detab(a), Detab(init), if b[|b| - 1] == '\t' then "    " else [b[|b| - 1]]);
    }
  }

  /** A line as it is written: tabs expanded, trailing blanks stripped. */
  function Norm(s: string): string {
    Rstrip(Detab(s))
  }

  function NormAll(lines: seq<string>): (r: seq<string>)
    ensures |r| == |lines| && forall k :: 0 <= k < |r| ==> r[k] == Norm(lines[k])
  {
    seq(|lines|, k requires 0 <= k < |lines| => Norm(lines[k]))
  }

  lemma BlankNorm(s: string)
    ensures Blank(Norm(s)) <==> Norm(s) == ""
  {
  }

  lemma {:induction false} DetabOneLine(s: string)
    requires OneLine(s)
    ensures OneLine(Detab(s))
  {
    if s != "" { DetabOneLine(s[..|s| - 1]); }
  }

  lemma NormOneLine(s: string)
    requires OneLine(s)
    ensures OneLine(Norm(s))
  {
    DetabOneLine(s);
  }

  datatype Source = Lines(lines: seq<string>) | Code(text: string) | NoText

  /** `capacity` is what the box's geometry admits, lines and columns, if it is known. */
  datatype Op = Op(source: Source, maxLines: Option<int>, maxCols: Option<int>, capacity: Option<(int, int)>,
                   colour: bool, codeRgb: Option<string>, commentRgb: Option<string>)

  function Given(op: Op): Option<seq<string>> {
    match op.source
    case Lines(l) => Some(l)
    case Code(t) => Some(SplitLines(StripNewlines(t)))
    case NoText => None
  }

  function MaxLines(op: Op, had: nat): int {
    if op.maxLines.Some? then op.maxLines.value else if had > 22 then had else 22
  }

  function MaxCols(op: Op): int {
    if op.maxCols.Some? then op.maxCols.value else 95
  }

  /** The limits the new lines must keep, `had` being how many there are now. */
  ghost predicate Fits(op: Op, lines: seq<string>, had: nat) {
    && |lines| <= (if op.maxLines.Some? then op.maxLines.value else if had > 22 then had else 22)
    && (op.capacity.Some? ==> |lines| <= op.capacity.value.0)
    && (forall k :: 0 <= k < |lines| ==> |lines[k]| <= if op.maxCols.Some? then op.maxCols.value else 95)
    && (op.maxCols.Some? ==> 0 <= op.maxCols.value)
    && (op.capacity.Some? ==> 0 <= op.capacity.value.1)
    && (op.capacity.Some? ==> forall k :: 0 <= k < |lines| ==> |lines[k]| <= op.capacity.value.1)
  }

  // ----------------------------------------------------------------------- the storage

  ghost predicate Embedded(p: Paragraph)
    reads *
  {
    exists i :: 0 <= i < |p.children| && '\n' in ChildText(p.children[i])
  }

  /** The box keeps its lines in one paragraph, parted by breaks or newlines. */
  ghost predicate BreakModel(ps: seq<Paragraph>)
    reads *
  {
    (exists k :: 0 <= k < |ps| && AnyBreak(ps[k].children)) || (|ps| == 1 && Embedded(ps[0]))
  }

  /** What reading a box of these lines gives back, in either storage. */
  function ReadBack(breaks: bool, lines: seq<string>): seq<string> {
    if breaks then SplitLines(JoinLines(lines)) else Relines(lines)
  }

  /** It is the list itself exactly when no line holds a newline and, for the storage in
      breaks, the list is not empty: that storage always reads one line at least. */
  lemma ReadBackExact(breaks: bool, lines: seq<string>)
    ensures ReadBack(breaks, lines) == lines <==> AllOneLine(lines) && (breaks ==> lines != [])
    ensures lines != [] ==> ReadBack(breaks, lines) == Relines(lines)
  {
    if lines != [] { SplitJoin(lines); }
    RelinesExact(lines);
  }

  // ------------------------------------------------------------------------- templates

  function FirstLine(lines: seq<CodeLine>, want: string -> bool): Option<CodeLine> {
    if lines == [] then None
    else
      var before := FirstLine(lines[..|lines| - 1], want);
      if before.Some? then before else if want(lines[|lines| - 1].text) then Some(lines[|lines| - 1]) else None
  }

  /** It is the first line that is wanted. */
  lemma {:induction false} FirstLineIs(lines: seq<CodeLine>, want: string -> bool)
    ensures var l := FirstLine(lines, want);
            && (l.None? ==> forall h :: 0 <= h < |lines| ==> !want(lines[h].text))
            && (l.Some? ==> exists i :: 0 <= i < |lines| && lines[i] == l.value && want(l.value.text)
                                        && forall h :: 0 <= h < i ==> !want(lines[h].text))
  {
    if lines != [] {
      var n := |lines| - 1;
      var init := lines[..n];
      FirstLineIs(init, want);
      if FirstLine(init, want).Some? {
        var i :| 0 <= i < n && init[i] == FirstLine(init, want).value && forall h :: 0 <= h < i ==> !want(init[h].text);
        assert lines[i] == init[i];
      }
    }
  }

  function IsBlankLine(): string -> bool {
    (t: string) => Blank(t)
  }

  function IsCommentLine(isComment: string -> bool): string -> bool {
    (t: string) => !Blank(t) && isComment(t)
  }

  function IsCodeLine(isComment: string -> bool): string -> bool {
    (t: string) => !Blank(t) && !isComment(t)
  }

  /** The lines whose format the new ones take: code lines that of the first line of code
      (or, if the box has none, of the first comment), comments that of the first comment. */
  datatype Pens = Pens(code: CodeLine, comment: CodeLine, blank: Option<CodeLine>)

  /** The pens chosen from the lines the box reads, if it has any text. */
  function PensFrom(lines: seq<CodeLine>, isComment: string -> bool): Option<Pens> {
    var code, comment := FirstLine(lines, IsCodeLine(isComment)), FirstLine(lines, IsCommentLine(isComment));
    if code.None? && comment.None? then None
    else
      var c := if code.Some? then code.value else comment.value;
      Some(Pens(c, if comment.Some? then comment.value else c, FirstLine(lines, IsBlankLine())))
  }

  /** They are lines of the box, each with a run of its paragraph to copy. */
  ghost predicate PensIn(pens: Pens, ps: seq<Paragraph>)
    reads ps
  {
    && Formatted(pens.code, ps) && Formatted(pens.comment, ps) && pens.code.run.Some? && pens.comment.run.Some?
    && (pens.blank.Some? ==> Formatted(pens.blank.value, ps))
  }

  lemma FirstStep(lines: seq<CodeLine>, k: nat, want: string -> bool)
    requires k < |lines|
    ensures FirstLine(lines[..0], want) == None
    ensures var before := FirstLine(lines[..k], want);
            FirstLine(lines[..k + 1], want)
                == if before.Some? then before else if want(lines[k].text) then Some(lines[k]) else None
  {
    assert lines[..k + 1][..k] == lines[..k];
  }

  /** `code_l`, `comment_l` and `blank_l`: the first lines of code, comment and blank text. */
  method FirstLines(lines: seq<CodeLine>, isComment: string -> bool)
    returns (code: Option<CodeLine>, comment: Option<CodeLine>, blank: Option<CodeLine>)
    ensures code == FirstLine(lines, IsCodeLine(isComment)) && comment == FirstLine(lines, IsCommentLine(isComment))
    ensures blank == FirstLine(lines, IsBlankLine())
  {
    hide FirstLine, Blank;
    blank, comment, code := None, None, None;
    if lines == [] {
      NoFirst(IsCodeLine(isComment));
      NoFirst(IsCommentLine(isComment));
      NoFirst(IsBlankLine());
      return;
    }
    FirstStep(lines, 0, IsCodeLine(isComment));
    FirstStep(lines, 0, IsCommentLine(isComment));
    FirstStep(lines, 0, IsBlankLine());
    for k := 0 to |lines|
      invariant code == FirstLine(lines[..k], IsCodeLine(isComment))
      invariant comment == FirstLine(lines[..k], IsCommentLine(isComment))
      invariant blank == FirstLine(lines[..k], IsBlankLine())
    {
      FirstStep(lines, k, IsCodeLine(isComment));
      FirstStep(lines, k, IsCommentLine(isComment));
      FirstStep(lines, k, IsBlankLine());
      var l := lines[k];
      if Blank(l.text) {
        if blank.None? { blank := Some(l); }
      } else if isComment(l.text) {
        if comment.None? { comment := Some(l); }
      } else {
        if code.None? { code := Some(l); }
      }
    }
    assert lines[..|lines|] == lines;
  }

  lemma NoFirst(want: string -> bool)
    ensures FirstLine([], want) == None
  {
  }

  /** Pens are found exactly when some line has text; they are what `PensIn` says. */
  lemma PensMean(ps: seq<Paragraph>, lines: seq<CodeLine>, isComment: string -> bool)
    requires forall k :: 0 <= k < |lines| ==> Formatted(lines[k], ps)
    ensures PensFrom(lines, isComment).Some? <==> HasText(TextsOf(lines))
    ensures PensFrom(lines, isComment).Some? ==> PensIn(PensFrom(lines, isComment).value, ps)
  {
    hide FirstLine, Blank;
    FirstLineIs(lines, IsCodeLine(isComment));
    FirstLineIs(lines, IsCommentLine(isComment));
    FirstLineIs(lines, IsBlankLine());
    if k :| 0 <= k < |TextsOf(lines)| && !Blank(TextsOf(lines)[k]) {
      assert IsCodeLine(isComment)(lines[k].text) || IsCommentLine(isComment)(lines[k].text);
    }
  }

  method ChoosePens(lines: seq<CodeLine>, isComment: string -> bool) returns (pens: Option<Pens>)
    ensures pens == PensFrom(lines, isComment)
  {
    hide FirstLine, Blank;
    var code, comment, blank := FirstLines(lines, isComment);
    if code.None? { code := comment; }
    if code.None? { return None; }
    if comment.None? { comment := code; }
    pens := Some(Pens(code.value, comment.value, blank));
  }

  // ---------------------------------------------------------------------- the new box

  /** How a new line looks: the colour and format of its run, the format of a break after it. */
  datatype Look = Look(rgb: Option<Rgb>, format: nat, br: nat)

  datatype Wear = Wear(code: Look, comment: Look, blank: Look)

  function LookFor(line: string, w: Wear, isComment: string -> bool): Look {
    if isComment(line) then w.comment else w.code
  }

  /** One paragraph for a line. */
  function ParagraphPieces(line: string, w: Wear, isComment: string -> bool): seq<Piece> {
    var look := if Blank(line) then w.blank else LookFor(line, w, isComment);
    [Ink(line, look.rgb, look.format)]
  }

  /** A line of a paragraph that holds several, and the break after it. */
  function LinePieces(line: string, w: Wear, isComment: string -> bool): seq<Piece> {
    var look := LookFor(line, w, isComment);
    if line == "" then [] else [Ink(line, look.rgb, look.format)]
  }

  function BreakStyle(line: string, w: Wear, isComment: string -> bool): nat {
    if Blank(line) then w.code.br else LookFor(line, w, isComment).br
  }

  function OpenPieces(lines: seq<string>, w: Wear, isComment: string -> bool): seq<Piece> {
    if lines == [] then []
    else
      var n := |lines| - 1;
      var line := LinePieces(lines[n], w, isComment) + [Brk(BreakStyle(lines[n], w, isComment))];
      OpenPieces(lines[..n], w, isComment) + line
  }

  function BreakPieces(lines: seq<string>, w: Wear, isComment: string -> bool): seq<Piece> {
    if lines == [] then []
    else OpenPieces(lines[..|lines| - 1], w, isComment) + LinePieces(lines[|lines| - 1], w, isComment)
  }

  /** The new content of the box in either storage. */
  function Content(breaks: bool, lines: seq<string>, w: Wear, isComment: string -> bool): seq<seq<Piece>> {
    if breaks then [BreakPieces(lines, w, isComment)] else ParagraphViews(lines, w, isComment)
  }

  function ParagraphViews(lines: seq<string>, w: Wear, isComment: string -> bool): (v: seq<seq<Piece>>)
    ensures |v| == |lines| && forall k :: 0 <= k < |v| ==> v[k] == ParagraphPieces(lines[k], w, isComment)
  {
    seq(|lines|, k requires 0 <= k < |lines| => ParagraphPieces(lines[k], w, isComment))
  }

  // -------------------------------------------------------- how the content reads and looks

  /** What the checker sees of one text in one colour, and of lines in one of two colours. */
  function Tint(t: string, rgb: Option<Rgb>): seq<seq<Seg>> {
    InkedAll(PartSegs(SplitLines(t), rgb))
  }

  function Drafts(lines: seq<string>, code: Option<Rgb>, comment: Option<Rgb>,
                  isComment: string -> bool): seq<seq<Seg>> {
    if lines == [] then []
    else
      var last := lines[|lines| - 1];
      Drafts(lines[..|lines| - 1], code, comment, isComment) + Tint(last, if isComment(last) then comment else code)
  }

  lemma DraftsStep(lines: seq<string>, line: string, code: Option<Rgb>, comment: Option<Rgb>, isComment: string -> bool)
    ensures Drafts(lines + [line], code, comment, isComment)
         == Drafts(lines, code, comment, isComment) + Tint(line, if isComment(line) then comment else code)
  {
    assert (lines + [line])[..|lines|] == lines;
  }

  /** No line is made of blanks only. */
  ghost predicate Normal(lines: seq<string>) {
    forall k :: 0 <= k < |lines| && Blank(lines[k]) ==> lines[k] == ""
  }

  lemma EmptyTint(rgb: Option<Rgb>)
    ensures Tint("", rgb) == [[]]
  {
    hide SplitLines;
    EmptyLines();
    assert Inked([Seg("", rgb)]) == [] by { assert [Seg("", rgb)][..0] == []; }
    assert PartSegs([""], rgb) == [[Seg("", rgb)]];
  }

  lemma LinePiecesMean(line: string, w: Wear, isComment: string -> bool)
    ensures InkLines(LinePieces(line, w, isComment)) == Tint(line, LookFor(line, w, isComment).rgb)
    ensures Flat(LinePieces(line, w, isComment)) == line
  {
    hide InkLines, Flat, Tint, InkedAll, SplitLines, PartSegs;
    var look := LookFor(line, w, isComment);
    if line == "" {
      EmptyTint(look.rgb);
      NoInk();
    } else {
      OneInk(line, look.rgb, look.format);
      TintIs(line, look.rgb, look.format);
    }
  }

  lemma TintIs(t: string, rgb: Option<Rgb>, f: nat)
    ensures InkedAll(PieceSegs(Ink(t, rgb, f))) == Tint(t, rgb)
  {
  }

  lemma GlueOpen<T>(a: seq<seq<T>>, b: seq<seq<T>>)
    requires b != []
    ensures Glue(a + [[]], b) == a + b
  {
    assert [] + b[0] == b[0];
  }

  lemma BreakInk(style: nat)
    ensures InkedAll(PieceSegs(Brk(style))) == [[], []]
  {
  }

  /** Lines each with a break after it. */
  lemma {:induction false} OpenMeans(lines: seq<string>, w: Wear, isComment: string -> bool)
    ensures InkLines(OpenPieces(lines, w, isComment)) == Drafts(lines, w.code.rgb, w.comment.rgb, isComment) + [[]]
    ensures Flat(OpenPieces(lines, w, isComment)) == if lines == [] then "" else JoinLines(lines) + "\n"
  {
    assert Drafts([], w.code.rgb, w.comment.rgb, isComment) == [] && OpenPieces([], w, isComment) == [];
    NoInk();
    hide InkLines, Flat, JoinLines, InkedAll, PieceSegs, Drafts, LinePieces, Tint;
    if lines != [] {
      var n := |lines| - 1;
      var init, last := lines[..n], lines[n];
      var before, line := OpenPieces(init, w, isComment), LinePieces(last, w, isComment);
      var style := BreakStyle(last, w, isComment);
      PlusAssoc(before, line, [Brk(style)]);
      LastApart(lines);
      hide OpenPieces, BreakStyle;
      OpenMeans(init, w, isComment);
      LineMore(before, init, last, w, isComment);
      InkLinesAppend(before + line, Brk(style));
      FlatAppend(before + line, Brk(style));
      BreakInk(style);
      GlueBreak(InkLines(before + line));
    }
  }

  /** One more line after those with breaks. */
  lemma LineMore(v: seq<Piece>, lines: seq<string>, line: string, w: Wear, isComment: string -> bool)
    requires InkLines(v) == Drafts(lines, w.code.rgb, w.comment.rgb, isComment) + [[]]
    requires Flat(v) == if lines == [] then "" else JoinLines(lines) + "\n"
    ensures InkLines(v + LinePieces(line, w, isComment)) == Drafts(lines + [line], w.code.rgb, w.comment.rgb, isComment)
    ensures Flat(v + LinePieces(line, w, isComment)) == JoinLines(lines + [line])
  {
    hide InkLines, Flat, JoinLines, Drafts, LinePieces, Tint, LookFor;
    var tone := if isComment(line) then w.comment.rgb else w.code.rgb;
    assert LookFor(line, w, isComment).rgb == tone by { LookRgb(line, w, isComment); }
    LinePiecesMean(line, w, isComment);
    InkLinesJoin(v, LinePieces(line, w, isComment));
    DraftsStep(lines, line, w.code.rgb, w.comment.rgb, isComment);
    GlueOpen(Drafts(lines, w.code.rgb, w.comment.rgb, isComment), Tint(line, tone));
    JoinMore(lines, line);
  }

  lemma LookRgb(line: string, w: Wear, isComment: string -> bool)
    ensures LookFor(line, w, isComment).rgb == if isComment(line) then w.comment.rgb else w.code.rgb
  {
  }

  lemma JoinMore(lines: seq<string>, line: string)
    ensures JoinLines(lines + [line]) == if lines == [] then line else JoinLines(lines) + "\n" + line
    ensures "" + line == line
  {
  }

  lemma BreaksMean(lines: seq<string>, w: Wear, isComment: string -> bool)
    ensures Flat(BreakPieces(lines, w, isComment)) == JoinLines(lines)
    ensures InkLines(BreakPieces(lines, w, isComment))
         == if lines == [] then [[]] else Drafts(lines, w.code.rgb, w.comment.rgb, isComment)
  {
    hide InkLines, Flat, Drafts, LinePieces, OpenPieces;
    if lines == [] {
      NoInk();
    } else {
      hide JoinLines;
      var n := |lines| - 1;
      OpenMeans(lines[..n], w, isComment);
      LineMore(OpenPieces(lines[..n], w, isComment), lines[..n], lines[n], w, isComment);
      assert lines == lines[..n] + [lines[n]];
    }
  }

  lemma ParagraphMeans(line: string, w: Wear, isComment: string -> bool)
    requires Blank(line) ==> line == ""
    ensures Flat(ParagraphPieces(line, w, isComment)) == line
    ensures InkLines(ParagraphPieces(line, w, isComment)) == Tint(line, LookFor(line, w, isComment).rgb)
  {
    hide InkLines, Flat, Tint, InkedAll, SplitLines, Blank;
    var look := if Blank(line) then w.blank else LookFor(line, w, isComment);
    OneInk(line, look.rgb, look.format);
    TintIs(line, look.rgb, look.format);
    EmptyTint(w.blank.rgb);
    EmptyTint(LookFor(line, w, isComment).rgb);
  }

  lemma ParagraphsMean(lines: seq<string>, w: Wear, isComment: string -> bool)
    requires Normal(lines)
    ensures forall k :: 0 <= k < |lines| ==> Flat(ParagraphViews(lines, w, isComment)[k]) == lines[k]
    ensures Concat(InkOf(ParagraphViews(lines, w, isComment))) == Drafts(lines, w.code.rgb, w.comment.rgb, isComment)
  {
    hide InkLines, Flat, ParagraphPieces, Drafts, Concat, Blank;
    ParagraphsShow(lines, w, isComment);
    forall k | 0 <= k < |lines| ensures Flat(ParagraphPieces(lines[k], w, isComment)) == lines[k] {
      ParagraphMeans(lines[k], w, isComment);
    }
  }

  lemma {:induction false} ParagraphsShow(lines: seq<string>, w: Wear, isComment: string -> bool)
    requires Normal(lines)
    ensures Concat(InkOf(ParagraphViews(lines, w, isComment))) == Drafts(lines, w.code.rgb, w.comment.rgb, isComment)
  {
    hide *;
    if lines == [] {
      NoDrafts(w.code.rgb, w.comment.rgb, isComment);
      ConcatNone<seq<Seg>>();
      assert InkOf(ParagraphViews(lines, w, isComment)) == [];
    } else {
      var n := |lines| - 1;
      NormalLast(lines);
      ParagraphsShow(lines[..n], w, isComment);
      ParagraphMeans(lines[n], w, isComment);
      LookRgb(lines[n], w, isComment);
      ViewsLast(lines, w, isComment);
      ConcatLast(InkOf(ParagraphViews(lines, w, isComment)));
      DraftsStep(lines[..n], lines[n], w.code.rgb, w.comment.rgb, isComment);
      LastApart(lines);
    }
  }

  lemma NormalLast(lines: seq<string>)
    requires Normal(lines) && lines != []
    ensures Normal(lines[..|lines| - 1]) && (Blank(lines[|lines| - 1]) ==> lines[|lines| - 1] == "")
  {
    hide Blank;
  }

  lemma ViewsLast(lines: seq<string>, w: Wear, isComment: string -> bool)
    requires lines != []
    ensures var n, ink := |lines| - 1, InkOf(ParagraphViews(lines, w, isComment));
            && |ink| == n + 1 && ink[..n] == InkOf(ParagraphViews(lines[..n], w, isComment))
            && ink[n] == InkLines(ParagraphPieces(lines[n], w, isComment))
  {
    hide InkLines, ParagraphPieces;
  }

  ghost function FlatsOf(views: seq<seq<Piece>>): (f: seq<string>)
    ensures |f| == |views| && forall k :: 0 <= k < |f| ==> f[k] == Flat(views[k])
  {
    seq(|views|, k requires 0 <= k < |views| => Flat(views[k]))
  }

  /** The content reads back as the storage reads, and shows each line in its colour. */
  lemma ContentMeans(breaks: bool, lines: seq<string>, w: Wear, isComment: string -> bool)
    requires Normal(lines)
    ensures Relines(FlatsOf(Content(breaks, lines, w, isComment))) == ReadBack(breaks, lines)
    ensures Concat(InkOf(Content(breaks, lines, w, isComment)))
         == if breaks && lines == [] then [[]] else Drafts(lines, w.code.rgb, w.comment.rgb, isComment)
  {
    hide InkLines, Flat, BreakPieces, Drafts, Relines, SplitLines, JoinLines, Concat, Normal;
    var views := Content(breaks, lines, w, isComment);
    if breaks {
      BreaksMean(lines, w, isComment);
      assert FlatsOf(views) == [JoinLines(lines)];
      RelinesOne(JoinLines(lines));
      ConcatOne(InkOf(views)[0]);
      assert InkOf(views) == [InkOf(views)[0]];
    } else {
      ParagraphsMean(lines, w, isComment);
      assert FlatsOf(views) == lines;
    }
  }

  lemma ConcatOne<T>(x: seq<T>)
    ensures Concat([x]) == x
  {
  }

  lemma RelinesOne(t: string)
    ensures Relines([t]) == SplitLines(t)
  {
  }

  // -------------------------------------------------------------------- writing the content

  twostate lemma FirstRgbStable(p: Paragraph)
    requires p.children == old(p.children)
    requires forall i :: 0 <= i < |p.children| && p.children[i].RunChild? ==>
        p.children[i].run.rgb == old(p.children[i].run.rgb)
    ensures FirstRgb(p) == old(FirstRgb(p)) && FirstFormat(p) == old(FirstFormat(p))
  {
    FirstRunIn(p.children);
  }

  /** What `set_par_text` copies of a paragraph. */
  ghost function LookOfParagraph(p: Paragraph): Look
    reads p, RunsOf(p.children)
  {
    Look(FirstRgb(p), FirstFormat(p), 0)
  }

  lemma OneRun(c: seq<Child>)
    requires |c| == 1 && c[0].RunChild?
    ensures OwnRuns(c) && RunsOf(c) == {c[0].run} && View(c) == [Ink(c[0].run.text, c[0].run.rgb, c[0].run.format)]
  {
  }

  /** One new paragraph of one run. */
  ghost predicate OneRunEach(ps: seq<Paragraph>)
    reads ps
  {
    && (forall k :: 0 <= k < |ps| ==> |ps[k].children| == 1 && ps[k].children[0].RunChild?)
    && (forall h, k :: 0 <= h < k < |ps| ==> ps[h] != ps[k] && ps[h].children[0].run != ps[k].children[0].run)
  }

  lemma OneRunTree(ps: seq<Paragraph>)
    requires OneRunEach(ps)
    ensures Tree(ps)
    ensures forall k :: 0 <= k < |ps| ==>
      View(ps[k].children) == [Ink(ps[k].children[0].run.text, ps[k].children[0].run.rgb, ps[k].children[0].run.format)]
    ensures forall k :: 0 <= k < |ps| ==> RunsOf(ps[k].children) == {ps[k].children[0].run}
  {
    hide View, RunsOf, OwnRuns;
    forall k | 0 <= k < |ps|
      ensures OwnRuns(ps[k].children) && RunsOf(ps[k].children) == {ps[k].children[0].run}
      ensures View(ps[k].children)
          == [Ink(ps[k].children[0].run.text, ps[k].children[0].run.rgb, ps[k].children[0].run.format)]
    {
      OneRun(ps[k].children);
    }
  }

  twostate lemma LookStable(p: Paragraph)
    requires p.children == old(p.children)
    requires forall i :: 0 <= i < |p.children| && p.children[i].RunChild? ==>
        p.children[i].run.rgb == old(p.children[i].run.rgb)
    ensures LookOfParagraph(p) == old(LookOfParagraph(p))
  {
    FirstRgbStable(p);
  }

  /** The paragraph for one line. */
  method ParagraphFor(line: string, code: Paragraph, comment: Paragraph, blank: Paragraph, isComment: string -> bool,
                      ghost w: Wear)
    returns (p: Paragraph)
    requires (Blank(line) ==> line == "")
        && w == Wear(LookOfParagraph(code), LookOfParagraph(comment), LookOfParagraph(blank))
    ensures fresh(p) && |p.children| == 1 && p.children[0].RunChild? && fresh(p.children[0].run)
    ensures var r := p.children[0].run; [Ink(r.text, r.rgb, r.format)] == ParagraphPieces(line, w, isComment)
  {
    hide Blank, FirstRgb, FirstFormat;
    if Blank(line) {
      p := SetParText(blank, "");
    } else {
      p := SetParText(if isComment(line) then comment else code, line);
    }
  }

  /** A paragraph for each line. */
  method ParagraphsFor(lines: seq<string>, code: Paragraph, comment: Paragraph, blank: Paragraph,
                       isComment: string -> bool,
                       ghost w: Wear)
    returns (ps: seq<Paragraph>)
    requires Normal(lines) && w == Wear(LookOfParagraph(code), LookOfParagraph(comment), LookOfParagraph(blank))
    ensures OneRunEach(ps) && Views(ps) == ParagraphViews(lines, w, isComment)
    ensures forall k :: 0 <= k < |ps| ==> fresh(ps[k]) && fresh(ps[k].children[0].run)
  {
    hide Blank, RunsOf, LookOfParagraph, View, ParagraphPieces;
    ps := [];
    for k := 0 to |lines|
      invariant |ps| == k && OneRunEach(ps)
          && w == Wear(LookOfParagraph(code), LookOfParagraph(comment), LookOfParagraph(blank))
      invariant forall h :: 0 <= h < k ==> fresh(ps[h]) && fresh(ps[h].children[0].run)
      invariant forall h :: 0 <= h < k ==> var r := ps[h].children[0].run;
                  [Ink(r.text, r.rgb, r.format)] == ParagraphPieces(lines[h], w, isComment)
    {
      label before:
      var p := ParagraphFor(lines[k], code, comment, blank, isComment, w);
      LookStable@before(code);
      LookStable@before(comment);
      LookStable@before(blank);
      ps := ps + [p];
    }
    OneRunTree(ps);
  }

  lemma OwnJoin(a: seq<Child>, b: seq<Child>)
    requires OwnRuns(a) && OwnRuns(b) && RunsOf(a) !! RunsOf(b)
    ensures OwnRuns(a + b)
  {
    Members(a);
    Members(b);
  }

  lemma NoChildren()
    ensures View([]) == [] && OwnRuns([]) && RunsOf([]) == {}
  {
  }

  lemma ViewOneMore(c: seq<Child>, b: Child)
    requires b.Break? && OwnRuns(c)
    ensures View(c + [b]) == View(c) + [Brk(b.style)] && OwnRuns(c + [b]) && RunsOf(c + [b]) == RunsOf(c)
  {
  }

  /** One line in the format of a template run, and the break after it. */
  method LineChildren(line: string, tmpl: Run, br: Option<Child>) returns (more: seq<Child>)
    requires (br.Some? ==> br.value.Break?) && (Blank(line) ==> line == "")
    ensures OwnRuns(more) && forall i :: 0 <= i < |more| && more[i].RunChild? ==> fresh(more[i].run)
    ensures View(more) == (if line == "" then [] else [Ink(line, tmpl.rgb, tmpl.format)])
                          + if br.Some? then [Brk(br.value.style)] else []
  {
    hide View, RunsOf, OwnRuns;
    NoChildren();
    more := [];
    if !Blank(line) {
      var r := new Run(line, tmpl.rgb, tmpl.format);
      more := [RunChild(r)];
      OneRun(more);
      assert line != "";
    }
    if br.Some? {
      ViewOneMore(more, br.value);
      more := more + [br.value];
    }
  }

  lemma Disjoint(a: seq<Child>, b: seq<Child>)
    requires forall i, j :: 0 <= i < |a| && 0 <= j < |b| && a[i].RunChild? && b[j].RunChild? ==> a[i].run != b[j].run
    ensures RunsOf(a) !! RunsOf(b)
  {
  }

  /** The break after a line: the one its template had, or one in its run's format. */
  function BreakAfter(br: Option<Child>, run: Run): (b: Child)
    requires br.Some? ==> br.value.Break?
    ensures b.Break?
  {
    if br.Some? then br.value else Break(run.format)
  }

  /** What a line in a paragraph of several copies of its template run and break. */
  ghost function LookOfRun(br: Option<Child>, run: Run): Look
    requires br.Some? ==> br.value.Break?
    reads run
  {
    Look(run.rgb, run.format, if br.Some? then br.value.style else run.format)
  }

  lemma BreakSteps(lines: seq<string>, k: nat, w: Wear, isComment: string -> bool)
    requires k < |lines|
    ensures OpenPieces(lines[..0], w, isComment) == []
    ensures OpenPieces(lines[..k + 1], w, isComment)
         == OpenPieces(lines[..k], w, isComment)
            + (LinePieces(lines[k], w, isComment) + [Brk(BreakStyle(lines[k], w, isComment))])
    ensures k == |lines| - 1 ==>
      BreakPieces(lines, w, isComment) == OpenPieces(lines[..k], w, isComment) + LinePieces(lines[k], w, isComment)
  {
    assert lines[..k + 1][..k] == lines[..k];
  }

  /** One line of it, and the break after it. */
  method LineOfBreaks(line: string, last: bool, code: Run, comment: Run, codeBr: Option<Child>,
                      commentBr: Option<Child>,
                      isComment: string -> bool, ghost w: Wear)
    returns (more: seq<Child>)
    requires (Blank(line) ==> line == "") && (codeBr.Some? ==> codeBr.value.Break?)
        && (commentBr.Some? ==> commentBr.value.Break?)
    requires w.code == LookOfRun(codeBr, code) && w.comment == LookOfRun(commentBr, comment)
    ensures OwnRuns(more) && forall i :: 0 <= i < |more| && more[i].RunChild? ==> fresh(more[i].run)
    ensures View(more) == if last then LinePieces(line, w, isComment)
                          else LinePieces(line, w, isComment) + [Brk(BreakStyle(line, w, isComment))]
  {
    hide Blank, View, OwnRuns;
    var comments := isComment(line);
    var br := None;
    if !last {
      br := Some(if comments && !Blank(line) then BreakAfter(commentBr, comment) else BreakAfter(codeBr, code));
    }
    more := LineChildren(line, if comments then comment else code, br);
    assert LinePieces(line, w, isComment) + [] == LinePieces(line, w, isComment);
  }

  /** The paragraph that holds all lines. */
  method BreakParagraph(lines: seq<string>, code: Run, comment: Run, codeBr: Option<Child>, commentBr: Option<Child>,
                        isComment: string -> bool, ghost w: Wear)
    returns (p: Paragraph)
    requires Normal(lines) && (codeBr.Some? ==> codeBr.value.Break?) && (commentBr.Some? ==> commentBr.value.Break?)
    requires w.code == LookOfRun(codeBr, code) && w.comment == LookOfRun(commentBr, comment)
    ensures fresh(p) && OwnRuns(p.children) && fresh(RunsOf(p.children))
    ensures View(p.children) == BreakPieces(lines, w, isComment)
  {
    hide Blank, View, RunsOf, OwnRuns, OpenPieces, LinePieces, BreakStyle;
    var out: seq<Child> := [];
    NoChildren();
    if lines != [] { BreakSteps(lines, 0, w, isComment); }
    for k := 0 to |lines|
      invariant OwnRuns(out) && forall i :: 0 <= i < |out| && out[i].RunChild? ==> fresh(out[i].run)
      invariant View(out) == if k < |lines| then OpenPieces(lines[..k], w, isComment)
                             else BreakPieces(lines, w, isComment)
    {
      label before:
      var more := LineOfBreaks(lines[k], k == |lines| - 1, code, comment, codeBr, commentBr, isComment, w);
      ViewStable@before(out);
      Disjoint(out, more);
      ViewJoin(out, more);
      OwnJoin(out, more);
      BreakSteps(lines, k, w, isComment);
      out := out + more;
    }
    label built:
    p := new Paragraph(out);
    ViewStable@built(out);
    Members(out);
  }

  // ----------------------------------------------------------------------- op_set_code

  /** The colour of code: the one asked for in upper case, or else that of the template run, unless
      it has none or that of comments, or else the house colour. */
  ghost predicate IsCodeColour(op: Op, pens: Pens, code: Rgb)
    requires pens.code.run.Some?
    reads pens.code.run.value
  {
    if op.codeRgb.Some? then IsUpper(op.codeRgb.value, code)
    else
      var have := pens.code.run.value.rgb;
      if have in {None, Some(""), Some(COMMENT_RGB)} then code == CODE_RGB else Some(code) == have
  }

  /** The colour of comments: likewise, unless the template is that of code or has its colour. */
  ghost predicate IsCommentColour(op: Op, pens: Pens, code: Rgb, comment: Rgb)
    requires pens.comment.run.Some?
    reads pens.comment.run.value
  {
    if op.commentRgb.Some? then IsUpper(op.commentRgb.value, comment)
    else
      var have := pens.comment.run.value.rgb;
      if pens.comment == pens.code || have in {None, Some(""), Some(code)} then comment == COMMENT_RGB
      else Some(comment) == have
  }

  lemma UppersMean(op: Op)
    ensures op.codeRgb.Some? && RgbOk(op.codeRgb) ==> IsUpper(op.codeRgb.value, Upper(op.codeRgb.value))
    ensures op.commentRgb.Some? && RgbOk(op.commentRgb) ==> IsUpper(op.commentRgb.value, Upper(op.commentRgb.value))
  {
    hide Upper, IsUpper;
    if op.codeRgb.Some? && RgbOk(op.codeRgb) { UpperMeans(op.codeRgb.value); }
    if op.commentRgb.Some? && RgbOk(op.commentRgb) { UpperMeans(op.commentRgb.value); }
  }

  /** The colours of the pass at the end: the ones asked for, or else the template runs'. */
  function RuleFor(op: Op, pens: Pens, isComment: string -> bool): (r: Rule)
    requires pens.code.run.Some? && pens.comment.run.Some?
    reads pens.code.run.value, pens.comment.run.value
    ensures r.isComment == isComment && !r.force
    ensures RgbOk(op.codeRgb) ==> IsCodeColour(op, pens, r.code)
    ensures RgbOk(op.commentRgb) ==> IsCommentColour(op, pens, r.code, r.comment)
  {
    UppersMean(op);
    var haveCode := pens.code.run.value.rgb;
    var haveComment := if pens.comment == pens.code then None else pens.comment.run.value.rgb;
    var code := if op.codeRgb.Some? then Upper(op.codeRgb.value)
                else if haveCode.Some? && haveCode.value !in {"", COMMENT_RGB} then haveCode.value
                else CODE_RGB;
    var comment := if op.commentRgb.Some? then Upper(op.commentRgb.value)
                   else if haveComment.Some? && haveComment.value !in {"", code} then haveComment.value
                   else COMMENT_RGB;
    Rule(code, comment, false, isComment)
  }

  ghost predicate Accepts(op: Op, reading: seq<string>) {
    Given(op).Some? && HasText(reading) && Fits(op, NormAll(Given(op).value), |reading|)
  }

  predicate ColoursOk(op: Op) {
    op.colour ==> RgbOk(op.codeRgb) && RgbOk(op.commentRgb)
  }

  method Normalised(given: seq<string>) returns (lines: seq<string>)
    ensures lines == NormAll(given) && Normal(lines)
  {
    hide Norm, Blank;
    lines := [];
    for k := 0 to |given|
      invariant |lines| == k && forall h :: 0 <= h < k ==> lines[h] == Norm(given[h])
    {
      lines := lines + [Norm(given[k])];
    }
    forall k | 0 <= k < |lines| && Blank(lines[k]) ensures lines[k] == "" {
      BlankNorm(given[k]);
    }
  }

  /** The checks before anything is written. */
  method WithinLimits(op: Op, lines: seq<string>, had: nat) returns (ok: bool)
    ensures ok <==> Fits(op, lines, had)
  {
    var wide := 0;
    for k := 0 to |lines|
      invariant 0 <= wide && forall h :: 0 <= h < k ==> |lines[h]| <= wide
      invariant wide == 0 || exists h :: 0 <= h < k && |lines[h]| == wide
    {
      if |lines[k]| > wide { wide := |lines[k]|; }
    }
    ok := && |lines| <= MaxLines(op, had)
          && (op.capacity.Some? ==> |lines| <= op.capacity.value.0)
          && wide <= MaxCols(op)
          && (op.capacity.Some? ==> wide <= op.capacity.value.1);
  }

  /** `br_model` */
  method KeepsBreaks(ps: seq<Paragraph>, lines: seq<CodeLine>) returns (breaks: bool)
    requires AnyBr(lines) <==> exists i :: 0 <= i < |ps| && AnyBreak(ps[i].children)
    ensures breaks <==> old(BreakModel(ps))
  {
    hide AnyBreak;
    breaks := false;
    for k := 0 to |lines|
      invariant breaks <==> exists h :: 0 <= h < k && lines[h].br.Some?
    {
      if lines[k].br.Some? { breaks := true; }
    }
    assert breaks <==> AnyBr(lines);
    if !breaks && |ps| == 1 {
      var c := ps[0].children;
      for i := 0 to |c|
        invariant breaks <==> exists h :: 0 <= h < i && '\n' in ChildText(c[h])
      {
        if '\n' in ChildText(c[i]) { breaks := true; }
      }
    }
  }

  lemma {:induction false} ConcatPaint(ink: seq<seq<seq<Seg>>>, r: Rule)
    ensures Concat(PaintBox(ink, r)) == PaintAll(Concat(ink), r)
  {
    hide Paint;
    if ink == [] {
      assert PaintAll([], r) == [];
    } else {
      var init := ink[..|ink| - 1];
      ConcatPaint(init, r);
      assert PaintBox(ink, r)[..|init|] == PaintBox(init, r);
    }
  }

  /** What the new lines copy: of the template runs and breaks, or of the first runs of the
      templates' paragraphs. */
  ghost function WearOf(breaks: bool, pens: Pens): Wear
    requires pens.code.run.Some? && pens.comment.run.Some?
    requires (pens.code.br.Some? ==> pens.code.br.value.Break?)
        && (pens.comment.br.Some? ==> pens.comment.br.value.Break?)
    reads *
  {
    var code := LookOfRun(pens.code.br, pens.code.run.value);
    if breaks then Wear(code, LookOfRun(pens.comment.br, pens.comment.run.value), code)
    else Wear(LookOfParagraph(pens.code.p), LookOfParagraph(pens.comment.p),
              LookOfParagraph(if pens.blank.Some? then pens.blank.value.p else pens.code.p))
  }

  /** The new content of the box, without its colours. */
  method WriteBox(tx: TextBody, breaks: bool, lines: seq<string>, pens: Pens, isComment: string -> bool)
    requires Normal(lines) && pens.code.run.Some? && pens.comment.run.Some?
    requires (pens.code.br.Some? ==> pens.code.br.value.Break?)
        && (pens.comment.br.Some? ==> pens.comment.br.value.Break?)
    modifies tx
    ensures forall k :: 0 <= k < |tx.paras| ==> fresh(tx.paras[k])
    ensures fresh(AllRuns(tx.paras)) && Tree(tx.paras)
    ensures Views(tx.paras) == Content(breaks, lines, old(WearOf(breaks, pens)), isComment)
  {
    hide Normal, View, OwnRuns, RunsOf, BreakPieces, ParagraphViews, LookOfRun, LookOfParagraph;
    ghost var w := WearOf(breaks, pens);
    if breaks {
      var p := BreakParagraph(lines, pens.code.run.value, pens.comment.run.value, pens.code.br, pens.comment.br,
                              isComment, w);
      tx.paras := [p];
    } else {
      var blank := if pens.blank.Some? then pens.blank.value.p else pens.code.p;
      var ps := ParagraphsFor(lines, pens.code.p, pens.comment.p, blank, isComment, w);
      tx.paras := ps;
      OneRunTree(ps);
    }
  }

  lemma PensReady(pens: Pens, ps: seq<Paragraph>)
    requires PensIn(pens, ps)
    ensures pens.code.br.Some? ==> pens.code.br.value.Break?
    ensures pens.comment.br.Some? ==> pens.comment.br.value.Break?
    ensures pens.code.run.Some? && pens.comment.run.Some?
  {
  }

  datatype Draft = Draft(lines: seq<string>, breaks: bool, pens: Pens)

  /** Everything up to the first change of the box. */
  method Prepare(ps: seq<Paragraph>, op: Op, isComment: string -> bool) returns (r: Result<Draft>)
    ensures r.Ok? <==> Accepts(op, old(Reading(ps)))
    ensures r.Ok? ==> r.value.lines == NormAll(Given(op).value) && Normal(r.value.lines)
    ensures r.Ok? ==> r.value.breaks == old(BreakModel(ps))
    ensures r.Ok? ==> PensFrom(old(CodeLinesOf(ps)), isComment) == Some(r.value.pens) && PensIn(r.value.pens, ps)
  {
    hide Fits, Formatted, BreakModel, Reading, AnyBreak, CodeLinesOf, PensFrom, PensIn, HasText, Normal, NormAll, Given;
    if Given(op).None? { return Err("needs lines or code"); }
    var lines := Normalised(Given(op).value);
    CodeLinesMean(ps, |ps|);
    assert ps[..|ps|] == ps;
    var had := CodeLines(ps);
    PensMean(ps, had, isComment);
    var breaks := KeepsBreaks(ps, had);
    var pens := ChoosePens(had, isComment);
    if pens.None? { return Err("the box has no text line to copy formatting from"); }
    var ok := WithinLimits(op, lines, |had|);
    if !ok { return Err("exceeds the limits of the box"); }
    r := Ok(Draft(lines, breaks, pens.value));
  }

  /** The new content with what it copies from the templates, before the colours are gone over. */
  ghost function NewContent(d: Draft, isComment: string -> bool): seq<seq<Piece>>
    requires d.pens.code.run.Some? && d.pens.comment.run.Some?
    requires (d.pens.code.br.Some? ==> d.pens.code.br.value.Break?)
        && (d.pens.comment.br.Some? ==> d.pens.comment.br.value.Break?)
    reads *
  {
    Content(d.breaks, d.lines, WearOf(d.breaks, d.pens), isComment)
  }

  // ------------------------------------------------------- what the new box shows, line by line

  /** The colour a line is written in before the colours are gone over. */
  ghost function Copied(line: string, d: Draft, isComment: string -> bool): Option<Rgb>
    requires d.pens.code.run.Some? && d.pens.comment.run.Some?
    reads *
  {
    var pen := if isComment(line) then d.pens.comment else d.pens.code;
    if d.breaks then pen.run.value.rgb else FirstRgb(pen.p)
  }

  /** The colour it ends in: code or comment as the line is, except that a third colour stays. */
  ghost predicate Shown(segs: seq<Seg>, line: string, had: Option<Rgb>, code: Rgb, comment: Rgb,
                        isComment: string -> bool) {
    segs == if line == "" then []
            else if had !in {None, Some(code), Some(comment), Some(CODE_RGB), Some(COMMENT_RGB)} then [Seg(line, had)]
            else [Seg(line, Some(if isComment(line) then comment else code))]
  }

  ghost predicate ShownIn(ink: seq<seq<Seg>>, op: Op, d: Draft, isComment: string -> bool, code: Rgb, comment: Rgb)
    requires |ink| == |d.lines|
    requires d.pens.code.run.Some? && d.pens.comment.run.Some?
    reads *
  {
    && IsCodeColour(op, d.pens, code) && IsCommentColour(op, d.pens, code, comment)
    && forall k :: 0 <= k < |ink| ==>
         Shown(ink[k], d.lines[k], Copied(d.lines[k], d, isComment), code, comment, isComment)
  }

  /** The checker sees one segment on each line with text, in the colour meant. */
  ghost predicate LinesShown(ink: seq<seq<Seg>>, op: Op, d: Draft, isComment: string -> bool)
    requires d.pens.code.run.Some? && d.pens.comment.run.Some?
    reads *
  {
    && |ink| == |d.lines|
    && (op.colour ==> exists code, comment :: ShownIn(ink, op, d, isComment, code, comment))
    && (!op.colour ==>
          forall k :: 0 <= k < |ink| ==>
            ink[k] == if d.lines[k] == "" then [] else [Seg(d.lines[k], Copied(d.lines[k], d, isComment))])
  }

  lemma PaintOne(line: string, had: Option<Rgb>, r: Rule)
    requires !r.force && (Blank(line) ==> line == "")
    ensures Shown(Paint(if line == "" then [] else [Seg(line, had)], r), line, had, r.code, r.comment, r.isComment)
  {
    if line != "" {
      var segs := [Seg(line, had)];
      assert segs[..0] == [] && JoinText([]) == "";
      assert JoinText(segs) == line;
      PaintMeans(segs, r);
      hide Paint, JoinText;
      assert !Trails(segs, 0, r.isComment);
      assert SegRecoloured(segs, 0, Paint(segs, r)[0], r);
      assert Paint(segs, r) == [Paint(segs, r)[0]];
    }
  }

  /** What is copied shows each line in the colour of the line it is copied from. */
  lemma DraftShown(d: Draft, isComment: string -> bool, k: nat)
    requires d.pens.code.run.Some? && d.pens.comment.run.Some?
    requires d.pens.code.br.Some? ==> d.pens.code.br.value.Break?
    requires d.pens.comment.br.Some? ==> d.pens.comment.br.value.Break?
    requires Normal(d.lines) && AllOneLine(d.lines) && k < |d.lines|
    ensures var x := Concat(InkOf(NewContent(d, isComment)));
            |x| == |d.lines| && x[k] == if d.lines[k] == "" then []
                                        else [Seg(d.lines[k], Copied(d.lines[k], d, isComment))]
  {
    hide Content, InkOf, Concat, Drafts, Normal, AllOneLine, FirstRgb, FirstFormat;
    var w := WearOf(d.breaks, d.pens);
    ContentMeans(d.breaks, d.lines, w, isComment);
    DraftsAre(d.lines, w.code.rgb, w.comment.rgb, isComment, k);
  }

  lemma AllShown(ink: seq<seq<Seg>>, op: Op, d: Draft, isComment: string -> bool)
    requires d.pens.code.run.Some? && d.pens.comment.run.Some?
    requires d.pens.code.br.Some? ==> d.pens.code.br.value.Break?
    requires d.pens.comment.br.Some? ==> d.pens.comment.br.value.Break?
    requires Normal(d.lines) && AllOneLine(d.lines) && d.lines != [] && ColoursOk(op)
    requires ink == if op.colour then PaintAll(Concat(InkOf(NewContent(d, isComment))), RuleFor(op, d.pens, isComment))
                    else Concat(InkOf(NewContent(d, isComment)))
    ensures LinesShown(ink, op, d, isComment)
  {
    hide NewContent, InkOf, Concat, RuleFor, Copied, AllOneLine, Paint, IsCodeColour, IsCommentColour;
    var r := RuleFor(op, d.pens, isComment);
    DraftShown(d, isComment, 0);
    forall k | 0 <= k < |d.lines|
      ensures Concat(InkOf(NewContent(d, isComment)))[k] == if d.lines[k] == "" then []
                else [Seg(d.lines[k], Copied(d.lines[k], d, isComment))]
      ensures op.colour ==>
                Shown(ink[k], d.lines[k], Copied(d.lines[k], d, isComment), r.code, r.comment, isComment)
    {
      DraftShown(d, isComment, k);
      PaintOne(d.lines[k], Copied(d.lines[k], d, isComment), r);
    }
    if op.colour {
      hide Shown;
      assert ShownIn(ink, op, d, isComment, r.code, r.comment);
    }
  }

  /** The format of a line: that of the template run, or of the first run of the template's paragraph. */
  ghost function FormatIn(line: string, d: Draft, isComment: string -> bool): nat
    requires d.pens.code.run.Some? && d.pens.comment.run.Some?
    reads *
  {
    var pen := if isComment(line) then d.pens.comment else d.pens.code;
    if d.breaks then pen.run.value.format
    else if !Blank(line) then FirstFormat(pen.p)
    else FirstFormat(if d.pens.blank.Some? then d.pens.blank.value.p else d.pens.code.p)
  }

  /** The format of the break after it: that of the template's break, or of its run. */
  ghost function BreakFormat(line: string, d: Draft, isComment: string -> bool): nat
    requires d.pens.code.run.Some? && d.pens.comment.run.Some?
    requires d.pens.code.br.Some? ==> d.pens.code.br.value.Break?
    requires d.pens.comment.br.Some? ==> d.pens.comment.br.value.Break?
    reads *
  {
    var pen := if isComment(line) && !Blank(line) then d.pens.comment else d.pens.code;
    if pen.br.Some? then pen.br.value.style else pen.run.value.format
  }

  /** The characters of the first `n` lines and their formats, a break being a newline. */
  ghost function TypedLines(d: Draft, n: nat, isComment: string -> bool): (t: seq<seq<(char, nat)>>)
    requires d.pens.code.run.Some? && d.pens.comment.run.Some?
    requires d.pens.code.br.Some? ==> d.pens.code.br.value.Break?
    requires d.pens.comment.br.Some? ==> d.pens.comment.br.value.Break?
    requires n <= |d.lines|
    reads *
    ensures |t| == n && forall k :: 0 <= k < n ==>
        t[k] == TypedText(d.lines[k], FormatIn(d.lines[k], d, isComment))
                + if d.breaks && k < |d.lines| - 1 then [('\n', BreakFormat(d.lines[k], d, isComment))] else []
  {
    seq(n, k requires 0 <= k < n reads * =>
      TypedText(d.lines[k], FormatIn(d.lines[k], d, isComment))
      + if d.breaks && k < |d.lines| - 1 then [('\n', BreakFormat(d.lines[k], d, isComment))] else [])
  }

  lemma {:induction false} TypedOpen(d: Draft, n: nat, isComment: string -> bool)
    requires d.pens.code.run.Some? && d.pens.comment.run.Some?
    requires d.pens.code.br.Some? ==> d.pens.code.br.value.Break?
    requires d.pens.comment.br.Some? ==> d.pens.comment.br.value.Break?
    requires n < |d.lines| && d.breaks
    ensures Typed(OpenPieces(d.lines[..n], WearOf(true, d.pens), isComment)) == Concat(TypedLines(d, n, isComment))
  {
    if n > 0 {
      hide *;
      var line, w := d.lines[n - 1], WearOf(true, d.pens);
      TypedOpen(d, n - 1, isComment);
      TypedLine(d, line, isComment);
      TypedMore(d, n, isComment);
      BreakSteps(d.lines, n - 1, w, isComment);
      TypedStep(OpenPieces(d.lines[..n - 1], w, isComment), LinePieces(line, w, isComment),
                BreakStyle(line, w, isComment));
    } else {
      NothingTyped(0);
      ConcatNone<(char, nat)>();
      assert d.lines[..0] == [];
      BreakSteps(d.lines, 0, WearOf(true, d.pens), isComment);
      assert TypedLines(d, 0, isComment) == [];
    }
  }

  lemma TypedStep(v: seq<Piece>, line: seq<Piece>, style: nat)
    ensures Typed(v + (line + [Brk(style)])) == Typed(v) + (Typed(line) + [('\n', style)])
  {
    hide Typed;
    TypedJoin(v, line + [Brk(style)]);
    TypedAppend(line, Brk(style));
  }

  lemma TypedMore(d: Draft, n: nat, isComment: string -> bool)
    requires d.pens.code.run.Some? && d.pens.comment.run.Some?
    requires d.pens.code.br.Some? ==> d.pens.code.br.value.Break?
    requires d.pens.comment.br.Some? ==> d.pens.comment.br.value.Break?
    requires 0 < n < |d.lines| && d.breaks
    ensures var line := d.lines[n - 1];
            Concat(TypedLines(d, n, isComment)) == Concat(TypedLines(d, n - 1, isComment))
              + (TypedText(line, FormatIn(line, d, isComment)) + [('\n', BreakFormat(line, d, isComment))])
  {
    hide Concat, FormatIn, BreakFormat, TypedText;
    var t := TypedLines(d, n, isComment);
    ConcatLast(t);
    assert t[..n - 1] == TypedLines(d, n - 1, isComment);
  }

  /** One line in a paragraph of several, and the break after it. */
  lemma TypedLine(d: Draft, line: string, isComment: string -> bool)
    requires d.pens.code.run.Some? && d.pens.comment.run.Some? && d.breaks
    requires d.pens.code.br.Some? ==> d.pens.code.br.value.Break?
    requires d.pens.comment.br.Some? ==> d.pens.comment.br.value.Break?
    ensures var w := WearOf(true, d.pens);
            && Typed(LinePieces(line, w, isComment)) == TypedText(line, FormatIn(line, d, isComment))
            && BreakStyle(line, w, isComment) == BreakFormat(line, d, isComment)
  {
    hide Typed, Blank, TypedText, FirstRgb, FirstFormat;
    var w := WearOf(true, d.pens);
    OneInk(line, LookFor(line, w, isComment).rgb, LookFor(line, w, isComment).format);
    NothingTyped(FormatIn(line, d, isComment));
  }

  lemma NothingTyped(f: nat)
    ensures Typed([]) == [] && TypedText("", f) == []
  {
  }

  lemma TypedContent(d: Draft, isComment: string -> bool)
    requires d.pens.code.run.Some? && d.pens.comment.run.Some?
    requires d.pens.code.br.Some? ==> d.pens.code.br.value.Break?
    requires d.pens.comment.br.Some? ==> d.pens.comment.br.value.Break?
    ensures var t := TypedLines(d, |d.lines|, isComment);
            TypedOf(NewContent(d, isComment)) == if d.breaks then [Concat(t)] else t
  {
    hide Typed, OpenPieces, LinePieces, FormatIn, BreakFormat, Concat, WearOf, ParagraphPieces;
    var t, n := TypedLines(d, |d.lines|, isComment), |d.lines| - 1;
    var w := WearOf(d.breaks, d.pens);
    if !d.breaks {
      forall k | 0 <= k < |d.lines| ensures Typed(ParagraphPieces(d.lines[k], w, isComment)) == t[k] {
        TypedParagraph(d, d.lines[k], isComment);
        var plain := TypedText(d.lines[k], FormatIn(d.lines[k], d, isComment));
        assert plain + [] == plain;
      }
    } else if d.lines != [] {
      TypedOpen(d, n, isComment);
      TypedLine(d, d.lines[n], isComment);
      TypedJoin(OpenPieces(d.lines[..n], w, isComment), LinePieces(d.lines[n], w, isComment));
      assert t[..n] == TypedLines(d, n, isComment);
      assert t[n] == TypedText(d.lines[n], FormatIn(d.lines[n], d, isComment));
      ConcatLast(t);
    } else {
      NothingTyped(0);
      ConcatNone<(char, nat)>();
      assert t == [];
    }
  }

  lemma ConcatLast<T>(groups: seq<seq<T>>)
    requires groups != []
    ensures Concat(groups) == Concat(groups[..|groups| - 1]) + groups[|groups| - 1]
  {
  }

  lemma ConcatNone<T>()
    ensures Concat<T>([]) == []
  {
  }

  /** A line in a paragraph of its own. */
  lemma TypedParagraph(d: Draft, line: string, isComment: string -> bool)
    requires d.pens.code.run.Some? && d.pens.comment.run.Some? && !d.breaks
    requires d.pens.code.br.Some? ==> d.pens.code.br.value.Break?
    requires d.pens.comment.br.Some? ==> d.pens.comment.br.value.Break?
    ensures Typed(ParagraphPieces(line, WearOf(false, d.pens), isComment))
         == TypedText(line, FormatIn(line, d, isComment))
  {
    hide Typed, Blank, FirstRgb, FirstFormat, TypedText;
    var w := WearOf(false, d.pens);
    var look := if Blank(line) then w.blank else LookFor(line, w, isComment);
    OneInk(line, look.rgb, look.format);
  }

  /** What is copied, and the colours of the template runs, are none or the house's. */
  ghost predicate HouseOnly(d: Draft)
    requires d.pens.code.run.Some? && d.pens.comment.run.Some?
    reads *
  {
    var house := {None, Some(CODE_RGB), Some(COMMENT_RGB)};
    && d.pens.code.run.value.rgb in house && d.pens.comment.run.value.rgb in house
    && (!d.breaks ==> FirstRgb(d.pens.code.p) in house && FirstRgb(d.pens.comment.p) in house)
  }

  lemma HouseRule(op: Op, d: Draft, isComment: string -> bool)
    requires d.pens.code.run.Some? && d.pens.comment.run.Some?
    requires d.pens.code.br.Some? ==> d.pens.code.br.value.Break?
    requires d.pens.comment.br.Some? ==> d.pens.comment.br.value.Break?
    requires op.codeRgb.None? && op.commentRgb.None? && AllOneLine(d.lines) && HouseOnly(d)
    ensures RuleFor(op, d.pens, isComment) == Rule(CODE_RGB, COMMENT_RGB, false, isComment)
    ensures InHouse(d, RuleFor(op, d.pens, isComment))
  {
  }

  // ------------------------------------------------------------------ which lines are copied

  ghost predicate TextOfCode(t: string, isComment: string -> bool) {
    !Blank(t) && !isComment(t)
  }

  ghost predicate TextOfComment(t: string, isComment: string -> bool) {
    !Blank(t) && isComment(t)
  }

  ghost predicate FirstCode(lines: seq<CodeLine>, l: CodeLine, isComment: string -> bool) {
    exists i :: 0 <= i < |lines| && lines[i] == l && TextOfCode(l.text, isComment)
                && forall h :: 0 <= h < i ==> !TextOfCode(lines[h].text, isComment)
  }

  ghost predicate FirstComment(lines: seq<CodeLine>, l: CodeLine, isComment: string -> bool) {
    exists i :: 0 <= i < |lines| && lines[i] == l && TextOfComment(l.text, isComment)
                && forall h :: 0 <= h < i ==> !TextOfComment(lines[h].text, isComment)
  }

  ghost predicate FirstBlank(lines: seq<CodeLine>, l: CodeLine) {
    exists i :: 0 <= i < |lines| && lines[i] == l && Blank(l.text) && forall h :: 0 <= h < i ==> !Blank(lines[h].text)
  }

  /** Code is copied from the first line of code, or if there is none from the first comment; comments
      from the first comment, or if there is none as code is; blank lines from the first one. */
  ghost predicate Templates(lines: seq<CodeLine>, pens: Pens, isComment: string -> bool) {
    && (FirstCode(lines, pens.code, isComment)
        || (FirstComment(lines, pens.code, isComment)
            && forall h :: 0 <= h < |lines| ==> !TextOfCode(lines[h].text, isComment)))
    && (FirstComment(lines, pens.comment, isComment)
        || (pens.comment == pens.code && forall h :: 0 <= h < |lines| ==> !TextOfComment(lines[h].text, isComment)))
    && (if pens.blank.Some? then FirstBlank(lines, pens.blank.value)
        else forall h :: 0 <= h < |lines| ==> !Blank(lines[h].text))
  }

  lemma PensAreTemplates(lines: seq<CodeLine>, isComment: string -> bool)
    requires PensFrom(lines, isComment).Some?
    ensures Templates(lines, PensFrom(lines, isComment).value, isComment)
  {
    hide FirstLine, Blank;
    FirstLineIs(lines, IsCodeLine(isComment));
    FirstLineIs(lines, IsCommentLine(isComment));
    FirstLineIs(lines, IsBlankLine());
    var code := FirstLine(lines, IsCodeLine(isComment));
    assert forall l: CodeLine :: IsCodeLine(isComment)(l.text) == TextOfCode(l.text, isComment);
    assert forall l: CodeLine :: IsCommentLine(isComment)(l.text) == TextOfComment(l.text, isComment);
    assert forall l: CodeLine :: IsBlankLine()(l.text) == Blank(l.text);
  }

  /** `op_set_code`: when it succeeds, reading the box gives back the new lines. Every character has
      the format of its template; every line is in the colour asked for, or else in that of its
      template, or else in the house colour, so that the checker reports nothing when no other is
      asked for or copied. The templates are the first code, comment and blank line of the box and
      on each the first run with text. When its input is refused, nothing has changed. */
  method SetCode(tx: TextBody, op: Op, isComment: string -> bool) returns (r: Result<Pens>)
    modifies tx
    ensures r.Ok? <==> Accepts(op, old(Reading(tx.paras))) && ColoursOk(op)
    ensures !Accepts(op, old(Reading(tx.paras))) ==> tx.paras == old(tx.paras)
    ensures r.Ok? ==> PensFrom(old(CodeLinesOf(tx.paras)), isComment) == Some(r.value) && PensIn(r.value, old(tx.paras))
    ensures r.Ok? ==> Templates(old(CodeLinesOf(tx.paras)), r.value, isComment)
    ensures r.Ok? ==> var d := Draft(NormAll(Given(op).value), old(BreakModel(tx.paras)), r.value);
      && Normal(d.lines) && Tree(tx.paras) && (op.source.Lines? ==> d.lines == NormAll(op.source.lines))
      && Reading(tx.paras) == ReadBack(d.breaks, d.lines)
      && TypedOf(Views(tx.paras)) == TypedOf(NewContent(d, isComment))
      && (AllOneLine(d.lines) && d.lines != [] ==> LinesShown(Concat(InkOf(Views(tx.paras))), op, d, isComment))
      && (op.colour && op.codeRgb.None? && op.commentRgb.None? && AllOneLine(d.lines) && HouseOnly(d) ==>
          Clean(Views(tx.paras), Rule(CODE_RGB, COMMENT_RGB, false, isComment)))
      && TypedOf(Views(tx.paras)) == (if d.breaks then [Concat(TypedLines(d, |d.lines|, isComment))]
                                      else TypedLines(d, |d.lines|, isComment))
      && Concat(InkOf(Views(tx.paras))) ==
           (if op.colour then PaintAll(Concat(InkOf(NewContent(d, isComment))), RuleFor(op, r.value, isComment))
            else Concat(InkOf(NewContent(d, isComment))))
      && (!op.colour ==> Views(tx.paras) == NewContent(d, isComment))
      && (op.colour && InHouse(d, RuleFor(op, r.value, isComment)) ==>
          Clean(Views(tx.paras), RuleFor(op, r.value, isComment)))
  {
    hide Accepts, FirstRgb, PaintAll, BreakModel, Tree, Reading, InkOf, Views, RuleFor, PensFrom, Normal, Separate;
    hide Content, WearOf, Concat, TypedOf, Formatted, InHouse, Clean, LinesShown, HouseOnly, TypedLines, NewContent;
    hide AllOneLine, CodeLinesOf, Templates, PensIn, RgbOk, IsCodeColour, IsCommentColour;
    ghost var ps := tx.paras;
    var draft := Prepare(tx.paras, op, isComment);
    if draft.Err? { return Err(draft.message); }
    var d := draft.value;
    var pens := d.pens;
    PensReady(pens, ps);
    PensAreTemplates(CodeLinesOf(ps), isComment);
    Write(tx, d, isComment, ps);
    if op.colour {
      if !RgbOk(op.codeRgb) || !RgbOk(op.commentRgb) { return Err("not an RRGGBB colour"); }
      ColourBox(tx, op, d, isComment, ps);
      BoxClean(Views(tx.paras), d, RuleFor(op, pens, isComment));
    }
    NewBox(Views(tx.paras), op, d, isComment);
    r := Ok(pens);
  }

  /** What the new box shows, said of the op and the templates alone. */
  lemma NewBox(views: seq<seq<Piece>>, op: Op, d: Draft, isComment: string -> bool)
    requires d.pens.code.run.Some? && d.pens.comment.run.Some?
    requires d.pens.code.br.Some? ==> d.pens.code.br.value.Break?
    requires d.pens.comment.br.Some? ==> d.pens.comment.br.value.Break?
    requires Normal(d.lines) && ColoursOk(op) && TypedOf(views) == TypedOf(NewContent(d, isComment))
    requires Concat(InkOf(views)) ==
      if op.colour then PaintAll(Concat(InkOf(NewContent(d, isComment))), RuleFor(op, d.pens, isComment))
      else Concat(InkOf(NewContent(d, isComment)))
    ensures AllOneLine(d.lines) && d.lines != [] ==> LinesShown(Concat(InkOf(views)), op, d, isComment)
    ensures op.colour && op.codeRgb.None? && op.commentRgb.None? && AllOneLine(d.lines) && HouseOnly(d) ==>
      Clean(views, Rule(CODE_RGB, COMMENT_RGB, false, isComment))
    ensures TypedOf(views) == if d.breaks then [Concat(TypedLines(d, |d.lines|, isComment))]
                              else TypedLines(d, |d.lines|, isComment)
  {
    hide Concat, InkOf, NewContent, PaintAll, RuleFor, AllOneLine, LinesShown, HouseOnly, Clean, TypedOf, TypedLines,
         Normal, ColoursOk, InHouse;
    TypedContent(d, isComment);
    if AllOneLine(d.lines) && d.lines != [] { AllShown(Concat(InkOf(views)), op, d, isComment); }
    if op.colour && op.codeRgb.None? && op.commentRgb.None? && AllOneLine(d.lines) && HouseOnly(d) {
      HouseRule(op, d, isComment);
      BoxClean(views, d, RuleFor(op, d.pens, isComment));
    }
  }

  /** The new paragraphs, apart from the old ones, from which the pens come. */
  method Write(tx: TextBody, d: Draft, isComment: string -> bool, ghost ps: seq<Paragraph>)
    requires ps == tx.paras && Normal(d.lines) && PensIn(d.pens, ps)
    modifies tx
    ensures forall k :: 0 <= k < |tx.paras| ==> fresh(tx.paras[k])
    ensures fresh(AllRuns(tx.paras)) && Separate(tx.paras, ps) && PensIn(d.pens, ps)
    ensures Tree(tx.paras) && Reading(tx.paras) == ReadBack(d.breaks, d.lines)
    ensures Views(tx.paras) == NewContent(d, isComment)
  {
    hide Normal, FirstRgb, InkOf, Views, Tree, AllRuns, RunsOf, Formatted, Content, View, Relines, InkLines;
    hide Flat, Drafts, Concat;
    var pens := d.pens;
    PensReady(pens, ps);
    ghost var w := WearOf(d.breaks, pens);
    label before:
    WriteBox(tx, d.breaks, d.lines, pens, isComment);
    ContentMeans(d.breaks, d.lines, w, isComment);
    FlatsAre(tx.paras);
    PensStable@before(Kept(ps, pens, NoOp(), isComment));
    WearStable@before(Kept(ps, pens, NoOp(), isComment), d.breaks);
    forall i | 0 <= i < |ps| ensures RunsOf(ps[i].children) !! AllRuns(tx.paras) {
      Members(ps[i].children);
    }
  }

  function NoOp(): Op {
    Op(NoText, None, None, None, false, None, None)
  }

  lemma FlatsAre(ps: seq<Paragraph>)
    ensures Flats(ps) == FlatsOf(Views(ps))
  {
  }

  /** The pass of colours over the new paragraphs; what the pens were taken from stays. */
  method ColourBox(tx: TextBody, op: Op, d: Draft, isComment: string -> bool, ghost ps: seq<Paragraph>)
    requires Tree(tx.paras) && PensIn(d.pens, ps) && Separate(tx.paras, ps)
    modifies tx.paras, AllRuns(tx.paras)
    ensures Tree(tx.paras) && Reading(tx.paras) == old(Reading(tx.paras))
    ensures TypedOf(Views(tx.paras)) == old(TypedOf(Views(tx.paras)))
    ensures Concat(InkOf(Views(tx.paras)))
        == PaintAll(old(Concat(InkOf(Views(tx.paras)))), RuleFor(op, d.pens, isComment))
    ensures PensIn(d.pens, ps) && NewContent(d, isComment) == old(NewContent(d, isComment))
  {
    hide PaintAll, Concat, Tree, InkOf, PaintBox, Formatted, OwnRuns, Reading, RuleFor, FirstRgb, Views, AllRuns;
    hide RunsOf, Same, BoxChanges, AllSingle, TypedOf, WearOf, Content, BoxRecoloured, DifferIn, SameShapes;
    hide IsCodeColour, IsCommentColour, RgbOk, ChildrenOf, Flats;
    var rule := RuleFor(op, d.pens, isComment);
    ConcatPaint(InkOf(Views(tx.paras)), rule);
    forall i, j | 0 <= i < |ps| && 0 <= j < |ps[i].children| && ps[i].children[j].RunChild?
      ensures ps[i].children[j].run !in AllRuns(tx.paras)
    {
      Members(ps[i].children);
    }
    PensReady(d.pens, ps);
    hide PensIn, Separate;
    label before:
    var _ := RecolourBox(tx, rule);
    PensStable@before(Kept(ps, d.pens, op, isComment));
    SameRule@before(Kept(ps, d.pens, op, isComment));
    WearStable@before(Kept(ps, d.pens, op, isComment), d.breaks);
  }

  /** What the pens were taken from did not change, and so not what is copied of it. */
  twostate lemma WearStable(k: Kept, new breaks: bool)
    requires Same(k)
    requires k.pens.code.run.Some? && k.pens.comment.run.Some?
    requires k.pens.code.br.Some? ==> k.pens.code.br.value.Break?
    requires k.pens.comment.br.Some? ==> k.pens.comment.br.value.Break?
    ensures WearOf(breaks, k.pens) == old(WearOf(breaks, k.pens))
  {
  }

  twostate lemma SameRule(k: Kept)
    requires Same(k)
    ensures PensIn(k.pens, k.ps) && old(PensIn(k.pens, k.ps))
    ensures RuleFor(k.op, k.pens, k.isComment) == old(RuleFor(k.op, k.pens, k.isComment))
  {
  }

  /** No paragraph and no run of the one list is in the other. */
  ghost predicate Separate(made: seq<Paragraph>, ps: seq<Paragraph>)
    reads made, ps
  {
    && (forall i, k :: 0 <= i < |ps| && 0 <= k < |made| ==> ps[i] != made[k])
    && (forall i :: 0 <= i < |ps| ==> RunsOf(ps[i].children) !! AllRuns(made))
  }

  twostate predicate Same(k: Kept)
    reads *
  {
    && PensIn(k.pens, k.ps) && old(PensIn(k.pens, k.ps))
    && RuleFor(k.op, k.pens, k.isComment) == old(RuleFor(k.op, k.pens, k.isComment))
    && FirstRgb(k.pens.code.p) == old(FirstRgb(k.pens.code.p))
    && FirstRgb(k.pens.comment.p) == old(FirstRgb(k.pens.comment.p))
    && FirstFormat(k.pens.code.p) == old(FirstFormat(k.pens.code.p))
    && FirstFormat(k.pens.comment.p) == old(FirstFormat(k.pens.comment.p))
    && (k.pens.blank.Some? ==> FirstRgb(k.pens.blank.value.p) == old(FirstRgb(k.pens.blank.value.p))
                               && FirstFormat(k.pens.blank.value.p) == old(FirstFormat(k.pens.blank.value.p)))
    && k.pens.code.run.value.rgb == old(k.pens.code.run.value.rgb)
    && k.pens.comment.run.value.rgb == old(k.pens.comment.run.value.rgb)
  }

  datatype Kept = Kept(ps: seq<Paragraph>, pens: Pens, op: Op, isComment: string -> bool)

  twostate lemma PensStable(k: Kept)
    requires old(PensIn(k.pens, k.ps))
    requires forall i :: 0 <= i < |k.ps| ==> k.ps[i].children == old(k.ps[i].children)
    requires forall i, j :: 0 <= i < |k.ps| && 0 <= j < |k.ps[i].children| && k.ps[i].children[j].RunChild? ==>
      k.ps[i].children[j].run.rgb == old(k.ps[i].children[j].run.rgb)
    ensures Same(k)
  {
    var code, comment := k.pens.code, k.pens.comment;
    FirstRgbStable(code.p);
    FirstRgbStable(comment.p);
    if k.pens.blank.Some? { FirstRgbStable(k.pens.blank.value.p); }
  }

  lemma {:induction false} DraftsAre(lines: seq<string>, code: Option<Rgb>, comment: Option<Rgb>,
                                     isComment: string -> bool, i: nat)
    requires AllOneLine(lines) && i < |lines|
    ensures |Drafts(lines, code, comment, isComment)| == |lines|
    ensures Drafts(lines, code, comment, isComment)[i]
         == if lines[i] == "" then [] else [Seg(lines[i], if isComment(lines[i]) then comment else code)]
  {
    hide Drafts, Tint, OneLine;
    var n := |lines| - 1;
    var tone := if isComment(lines[n]) then comment else code;
    var init := lines[..n];
    assert lines == init + [lines[n]];
    DraftsStep(init, lines[n], code, comment, isComment);
    TintLine(lines[n], tone);
    if 0 < n {
      DraftsAre(init, code, comment, isComment, if i < n then i else 0);
    } else {
      NoDrafts(code, comment, isComment);
    }
    var before, x := Drafts(init, code, comment, isComment), if lines[n] == "" then [] else [Seg(lines[n], tone)];
    assert |before| == n;
    assert Drafts(lines, code, comment, isComment) == before + [x];
  }

  lemma NoDrafts(code: Option<Rgb>, comment: Option<Rgb>, isComment: string -> bool)
    ensures Drafts([], code, comment, isComment) == []
  {
  }

  lemma TintLine(line: string, rgb: Option<Rgb>)
    requires OneLine(line)
    ensures Tint(line, rgb) == [if line == "" then [] else [Seg(line, rgb)]]
  {
    hide SplitLines;
    SplitOne(line);
    InkedLast([Seg(line, rgb)]);
    assert Inked([]) == [] && [Seg(line, rgb)][..0] == [];
    assert PartSegs([line], rgb) == [[Seg(line, rgb)]];
    assert InkedAll([[Seg(line, rgb)]]) == [Inked([Seg(line, rgb)])];
  }

  /** Lines written in the house colours, or in none, and gone over by the house rule: the
      checker reports nothing on any of them. */
  lemma SetCodeClean(lines: seq<string>, code: Option<Rgb>, comment: Option<Rgb>, r: Rule, i: nat)
    requires AllOneLine(lines) && i < |lines| && r.House() && r.Ours(code) && r.Ours(comment)
    ensures |PaintAll(Drafts(lines, code, comment, r.isComment), r)| == |lines|
    ensures Hits(PaintAll(Drafts(lines, code, comment, r.isComment), r)[i], r) == {}
  {
    hide Drafts, Paint, Hits, OneLine;
    DraftsAre(lines, code, comment, r.isComment, i);
    OneSegClean(lines[i], if r.isComment(lines[i]) then comment else code, r);
  }

  /** The checker reports nothing on any line of the box. */
  ghost predicate Clean(views: seq<seq<Piece>>, r: Rule) {
    forall p, i :: 0 <= p < |views| && 0 <= i < |AuditLines(views[p])| ==> Hits(AuditLines(views[p])[i], r) == {}
  }

  /** Lines without newlines, in the house colours as copied and as gone over. */
  ghost predicate InHouse(d: Draft, r: Rule)
    requires d.pens.code.run.Some? && d.pens.comment.run.Some?
    requires d.pens.code.br.Some? ==> d.pens.code.br.value.Break?
    requires d.pens.comment.br.Some? ==> d.pens.comment.br.value.Break?
    reads *
  {
    AllOneLine(d.lines) && r.House() && r.Ours(WearOf(d.breaks, d.pens).code.rgb)
        && r.Ours(WearOf(d.breaks, d.pens).comment.rgb)
  }

  lemma {:induction false} InConcat<T>(groups: seq<seq<T>>, p: nat, i: nat)
    requires p < |groups| && i < |groups[p]|
    ensures groups[p][i] in Concat(groups)
  {
    var n := |groups| - 1;
    if p < n {
      InConcat(groups[..n], p, i);
    }
  }

  /** The new content gone over in the house colours is clean. */
  lemma PaintedClean(breaks: bool, lines: seq<string>, w: Wear, r: Rule, line: seq<Seg>)
    requires Normal(lines) && AllOneLine(lines) && r.House() && r.Ours(w.code.rgb) && r.Ours(w.comment.rgb)
    requires line in PaintAll(Concat(InkOf(Content(breaks, lines, w, r.isComment))), r)
    ensures Hits(line, r) == {}
  {
    hide Content, InkOf, Concat, Drafts, Paint, Hits, Normal, AllOneLine;
    ContentMeans(breaks, lines, w, r.isComment);
    var ink := Concat(InkOf(Content(breaks, lines, w, r.isComment)));
    var i :| 0 <= i < |PaintAll(ink, r)| && PaintAll(ink, r)[i] == line;
    if lines == [] {
      NoDrafts(w.code.rgb, w.comment.rgb, r.isComment);
      OneSegClean("", None, r);
    } else {
      DraftsLength(lines, w.code.rgb, w.comment.rgb, r.isComment);
      SetCodeClean(lines, w.code.rgb, w.comment.rgb, r, i);
    }
  }

  lemma DraftsLength(lines: seq<string>, code: Option<Rgb>, comment: Option<Rgb>, isComment: string -> bool)
    requires AllOneLine(lines) && lines != []
    ensures |Drafts(lines, code, comment, isComment)| == |lines|
  {
    DraftsAre(lines, code, comment, isComment, 0);
  }

  /** So a box that shows it so is. */
  lemma BoxClean(views: seq<seq<Piece>>, d: Draft, r: Rule)
    requires d.pens.code.run.Some? && d.pens.comment.run.Some?
    requires d.pens.code.br.Some? ==> d.pens.code.br.value.Break?
    requires d.pens.comment.br.Some? ==> d.pens.comment.br.value.Break?
    requires Normal(d.lines) && Concat(InkOf(views)) == PaintAll(Concat(InkOf(NewContent(d, r.isComment))), r)
    ensures InHouse(d, r) ==> Clean(views, r)
  {
    hide Concat, Hits, Content, WearOf, Normal, AllOneLine, AuditLines, Inked;
    if InHouse(d, r) {
      forall p, i | 0 <= p < |views| && 0 <= i < |AuditLines(views[p])| ensures Hits(AuditLines(views[p])[i], r) == {} {
        var line := AuditLines(views[p])[i];
        InConcat(InkOf(views), p, i);
        assert InkOf(views)[p][i] == Inked(line);
        PaintedClean(d.breaks, d.lines, WearOf(d.breaks, d.pens), r, Inked(line));
        AuditSees(line, r);
      }
    }
  }

  lemma OneSegClean(line: string, tone: Option<Rgb>, r: Rule)
    requires r.House() && r.Ours(tone)
    ensures Hits(Paint(if line == "" then [] else [Seg(line, tone)], r), r) == {}
  {
    var segs := if line == "" then [] else [Seg(line, tone)];
    CleanAfterPaint(segs, r);
    hide Paint, Hits;
    assert forall k :: 0 <= k < |segs| ==> segs[..k] == [];
    assert line == "" ==> JoinText(segs) == "";
  }

  // ------------------------------------------------------------------------ code_subst

  /** `[i for i, l in enumerate(lines) if l == old]` */
  function Positions(lines: seq<string>, line: string): (idx: seq<nat>)
    ensures forall h :: 0 <= h < |idx| ==> idx[h] < |lines|
  {
    if lines == [] then []
    else Positions(lines[..|lines| - 1], line) + if lines[|lines| - 1] == line then [|lines| - 1] else []
  }

  lemma PositionsLast(lines: seq<string>, line: string)
    requires lines != []
    ensures var n := |lines| - 1;
            Positions(lines, line) == Positions(lines[..n], line) + if lines[n] == line then [n] else []
  {
  }

  lemma {:induction false} PositionsSound(lines: seq<string>, line: string)
    ensures var idx := Positions(lines, line);
            && (forall h, k :: 0 <= h < k < |idx| ==> idx[h] < idx[k])
            && (forall h :: 0 <= h < |idx| ==> lines[idx[h]] == line)
            && (|idx| > 1 ==> idx[0] < idx[1])
  {
    if lines != [] {
      PositionsSound(lines[..|lines| - 1], line);
      PositionsLast(lines, line);
      hide Positions;
    }
  }

  lemma {:induction false} PositionsComplete(lines: seq<string>, line: string, i: nat)
    requires i < |lines| && lines[i] == line
    ensures i in Positions(lines, line)
  {
    var n := |lines| - 1;
    PositionsLast(lines, line);
    hide Positions;
    if i < n {
      PositionsComplete(lines[..n], line, i);
    } else {
      assert [n][0] == i;
    }
  }

  /** A line that stands exactly once is replaced by others. */
  function Replaced(lines: seq<string>, line: string, repl: seq<string>): Option<seq<string>> {
    var idx := Positions(lines, line);
    if |idx| != 1 then None else Some(lines[..idx[0]] + repl + lines[idx[0] + 1..])
  }

  /** What stands exactly once is found once, wherever it stands. */
  lemma ReplacedMeans(before: seq<string>, line: string, after: seq<string>, repl: seq<string>)
    requires line !in before && line !in after
    ensures Replaced(before + [line] + after, line, repl) == Some(before + repl + after)
  {
    var lines := before + [line] + after;
    var n := |before|;
    var idx := Positions(lines, line);
    PositionsSound(lines, line);
    PositionsComplete(lines, line, n);
    assert forall i :: 0 <= i < n ==> lines[i] == before[i];
    assert forall i :: n < i < |lines| ==> lines[i] == after[i - n - 1];
    assert forall h :: 0 <= h < |idx| ==> idx[h] == n;
    assert lines[..n] == before && lines[n + 1..] == after;
  }

  /** What is replaced stood nowhere else. */
  lemma ReplacedOnce(lines: seq<string>, line: string, repl: seq<string>)
    requires Replaced(lines, line, repl).Some?
    ensures exists i :: 0 <= i < |lines| && lines[i] == line && line !in lines[..i] && line !in lines[i + 1..]
                        && Replaced(lines, line, repl).value == lines[..i] + repl + lines[i + 1..]
  {
    PositionsSound(lines, line);
    var idx := Positions(lines, line);
    var i := idx[0];
    forall k | 0 <= k < |lines| && lines[k] == line ensures k == i {
      PositionsComplete(lines, line, k);
    }
    assert lines[i] == line && line !in lines[..i] && line !in lines[i + 1..];
  }

  function Substituted(lines: seq<string>, subst: seq<(string, seq<string>)>): Option<seq<string>> {
    if subst == [] then Some(lines)
    else
      var before := Substituted(lines, subst[..|subst| - 1]);
      if before.None? then None
      else Replaced(before.value, subst[|subst| - 1].0, subst[|subst| - 1].1)
  }

  lemma {:induction false} SubstitutedStep(lines: seq<string>, subst: seq<(string, seq<string>)>, k: nat)
    requires k < |subst|
    ensures Substituted(lines, subst[..0]) == Some(lines)
    ensures Substituted(lines, subst[..k + 1]) ==
      var before := Substituted(lines, subst[..k]);
      if before.None? then None else Replaced(before.value, subst[k].0, subst[k].1)
    ensures Substituted(lines, subst[..k + 1]).None? ==> Substituted(lines, subst).None?
    decreases |subst| - k
  {
    assert subst[..k + 1][..k] == subst[..k];
    if k + 1 < |subst| {
      SubstitutedStep(lines, subst, k + 1);
    } else {
      assert subst[..k + 1] == subst;
    }
  }

  /** The loop of `code_subst`. */
  method Substitute(given: seq<string>, subst: seq<(string, seq<string>)>) returns (r: Option<seq<string>>)
    ensures r == Substituted(given, subst)
  {
    var lines := given;
    for k := 0 to |subst|
      invariant Substituted(given, subst[..k]) == Some(lines)
    {
      SubstitutedStep(given, subst, k);
      var idx := Positions(lines, subst[k].0);
      if |idx| != 1 { return None; }
      lines := lines[..idx[0]] + subst[k].1 + lines[idx[0] + 1..];
    }
    assert subst[..|subst|] == subst;
    r := Some(lines);
  }

  ghost predicate AllReplacementsOneLine(subst: seq<(string, seq<string>)>) {
    forall k :: 0 <= k < |subst| ==> AllOneLine(subst[k].1)
  }

  lemma {:induction false} SubstitutedOneLine(lines: seq<string>, subst: seq<(string, seq<string>)>)
    requires AllOneLine(lines) && AllReplacementsOneLine(subst) && Substituted(lines, subst).Some?
    ensures AllOneLine(Substituted(lines, subst).value)
  {
    if subst != [] {
      var init, last := subst[..|subst| - 1], subst[|subst| - 1];
      SubstitutedOneLine(lines, init);
      var before, after := Substituted(lines, init).value, Substituted(lines, subst).value;
      var i := Positions(before, last.0)[0];
      assert after == before[..i] + last.1 + before[i + 1..];
      assert AllOneLine(last.1);
    }
  }

  lemma DetabLast(s: string)
    ensures Detab(s) == if s == "" then ""
                        else Detab(s[..|s| - 1]) + if s[|s| - 1] == '\t' then "    " else [s[|s| - 1]]
  {
  }

  lemma {:induction false} DetabDone(s: string)
    ensures '\t' !in Detab(s)
    ensures '\t' !in s ==> Detab(s) == s
  {
    hide Detab;
    DetabLast(s);
    if s != "" {
      var init, c := s[..|s| - 1], s[|s| - 1];
      DetabDone(init);
      assert s == init + [c];
      assert forall i :: 0 <= i < |init| ==> init[i] == s[i];
    }
  }

  /** A line written once is not changed by being written again. */
  lemma NormTwice(s: string)
    ensures Norm(Norm(s)) == Norm(s)
  {
    DetabDone(s);
    DetabDone(Norm(s));
  }

  /** `code_subst` followed by `set_code`: a flat substitution in the list of lines. If it
      succeeds, that is if set_code then accepts the lines, and no replacement holds a newline, the
      box reads as the old list with each old line, found exactly once, replaced (every line
      without tabs and trailing blanks); if an old line is not found exactly once, the box is left
      as it was. */
  method CodeSubst(tx: TextBody, subst: seq<(string, seq<string>)>, op: Op, isComment: string -> bool)
    returns (r: Result<Pens>)
    modifies tx
    ensures Substituted(old(Reading(tx.paras)), subst).None? ==> r.Err? && tx.paras == old(tx.paras)
    ensures r.Ok? <==> var reading := old(Reading(tx.paras)); var lines := Substituted(reading, subst);
      lines.Some? && Accepts(op.(source := Lines(lines.value)), reading) && ColoursOk(op)
    ensures r.Ok? && AllReplacementsOneLine(subst) ==>
      var lines := NormAll(Substituted(old(Reading(tx.paras)), subst).value);
      Reading(tx.paras) == if lines == [] && old(BreakModel(tx.paras)) then [""] else lines
  {
    hide *;
    ghost var reading, breaks := Reading(tx.paras), BreakModel(tx.paras);
    CodeLinesMean(tx.paras, |tx.paras|);
    assert tx.paras[..|tx.paras|] == tx.paras;
    ReadingOneLine(tx.paras);
    var had := CodeLines(tx.paras);
    var texts := Texts(had);
    var lines := Substitute(texts, subst);
    if lines.None? { return Err("a line is not found exactly once"); }
    var setOp := op.(source := Lines(lines.value));
    GivenLines(op, lines.value);
    r := SetCode(tx, setOp, isComment);
    if r.Ok? && AllReplacementsOneLine(subst) {
      SubstitutedOneLine(reading, subst);
      SubstitutedReads(breaks, lines.value);
    }
  }

  lemma ReadingOneLine(ps: seq<Paragraph>)
    ensures AllOneLine(Reading(ps))
  {
    RelinesOneLine(Flats(ps));
  }

  lemma GivenLines(op: Op, lines: seq<string>)
    ensures Given(op.(source := Lines(lines))) == Some(lines)
    ensures ColoursOk(op.(source := Lines(lines))) <==> ColoursOk(op)
  {
  }

  method Texts(lines: seq<CodeLine>) returns (t: seq<string>)
    ensures t == TextsOf(lines)
  {
    t := [];
    for k := 0 to |lines|
      invariant |t| == k && forall h :: 0 <= h < k ==> t[h] == lines[h].text
    {
      t := t + [lines[k].text];
    }
  }

  lemma SubstitutedReads(breaks: bool, lines: seq<string>)
    requires AllOneLine(lines)
    ensures ReadBack(breaks, NormAll(lines)) == if lines == [] && breaks then [""] else NormAll(lines)
  {
    forall k | 0 <= k < |lines| ensures OneLine(Norm(lines[k])) {
      NormOneLine(lines[k]);
    }
    ReadBackExact(breaks, NormAll(lines));
    EmptyLines();
  }

  /** A set_code from one string of code always reads back as its lines: none of them holds
      a newline and there is one at least. */
  lemma CodeReadsBack(breaks: bool, op: Op)
    requires op.source.Code?
    ensures ReadBack(breaks, NormAll(Given(op).value)) == NormAll(Given(op).value) != []
  {
    SplitOne(StripNewlines(op.source.text));
    SubstitutedReads(breaks, Given(op).value);
  }
}
