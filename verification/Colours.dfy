/** The house colours of code boxes, on values: what `recolour_box` (scripts/deck_edit.py)
    makes of a line, what the independent checker (_plans/s12-manifest/tools/colour_audit.py)
    reads and reports, and how the two agree. `isComment` is the shape test of a text. */
module Colours {
  import opened Text
  import opened TextTree

  /** A stretch of one line in one colour. */
  datatype Seg = Seg(text: string, rgb: Option<Rgb>)

  datatype Rule = Rule(code: Rgb, comment: Rgb, force: bool, isComment: string -> bool) {

    /** Colours that are ours to change; any third one stays unless forced. */
    predicate Ours(c: Option<Rgb>) {
      c in {Some(code), Some(comment), Some(CODE_RGB), Some(COMMENT_RGB), None}
    }

    predicate House() {
      code == CODE_RGB && comment == COMMENT_RGB
    }
  }

  function JoinText(segs: seq<Seg>): string {
    if segs == [] then "" else JoinText(segs[..|segs| - 1]) + segs[|segs| - 1].text
  }

  /** Whether code was seen on the line, and whether its trailing comment has begun. */
  datatype Mode = Mode(seenCode: bool, inComment: bool)

  function Enter(m: Mode, t: string, r: Rule): Mode {
    if Blank(t) then m
    else Mode(m.seenCode || !r.isComment(t), m.inComment || (m.seenCode && r.isComment(t)))
  }

  function ModeOf(segs: seq<Seg>, r: Rule): Mode {
    if segs == [] then Mode(false, false) else Enter(ModeOf(segs[..|segs| - 1], r), segs[|segs| - 1].text, r)
  }

  function PaintSeg(s: Seg, want: Rgb, r: Rule): Seg {
    if Blank(s.text) || !(r.Ours(s.rgb) || r.force) then s else Seg(s.text, Some(want))
  }

  /** The colour wanted for a segment that follows `before` on its line. */
  function Want(before: seq<Seg>, t: string, whole: bool, r: Rule): Rgb {
    if whole || Enter(ModeOf(before, r), t, r).inComment then r.comment else r.code
  }

  function PaintPart(segs: seq<Seg>, whole: bool, r: Rule): (painted: seq<Seg>)
    ensures |painted| == |segs|
  {
    if segs == [] then []
    else
      var before, last := segs[..|segs| - 1], segs[|segs| - 1];
      PaintPart(before, whole, r) + [PaintSeg(last, Want(before, last.text, whole, r), r)]
  }

  /** What recolouring makes of a line. */
  function Paint(segs: seq<Seg>, r: Rule): seq<Seg> {
    if Blank(JoinText(segs)) then segs else PaintPart(segs, r.isComment(JoinText(segs)), r)
  }

  /** How many segments change. */
  function Changes(a: seq<Seg>, b: seq<Seg>): nat
    requires |a| == |b|
  {
    if a == [] then 0
    else Changes(a[..|a| - 1], b[..|b| - 1]) + if a[|a| - 1] == b[|b| - 1] then 0 else 1
  }

  ghost predicate SameText(a: seq<Seg>, b: seq<Seg>) {
    |a| == |b| && forall i :: 0 <= i < |a| ==> a[i].text == b[i].text
  }

  lemma {:induction false} SameTextSame(a: seq<Seg>, b: seq<Seg>, r: Rule)
    requires SameText(a, b)
    ensures JoinText(a) == JoinText(b) && ModeOf(a, r) == ModeOf(b, r)
  {
    if a != [] { SameTextSame(a[..|a| - 1], b[..|b| - 1], r); }
  }

  lemma {:induction false} PaintPartText(segs: seq<Seg>, whole: bool, r: Rule)
    ensures SameText(segs, PaintPart(segs, whole, r))
  {
    if segs != [] {
      PaintPartText(segs[..|segs| - 1], whole, r);
    }
  }

  lemma {:induction false} PaintPartTwice(segs: seq<Seg>, whole: bool, r: Rule)
    ensures PaintPart(PaintPart(segs, whole, r), whole, r) == PaintPart(segs, whole, r)
  {
    if segs != [] {
      var before, last := segs[..|segs| - 1], segs[|segs| - 1];
      PaintPartTwice(before, whole, r);
      var painted := PaintPart(segs, whole, r);
      PaintPartText(before, whole, r);
      SameTextSame(before, PaintPart(before, whole, r), r);
      hide PaintPart, ModeOf;
      assert Want(painted[..|painted| - 1], last.text, whole, r) == Want(before, last.text, whole, r);
      assert PaintPart(painted, whole, r)
          == PaintPart(painted, whole, r)[..|painted| - 1] + [PaintPart(painted, whole, r)[|painted| - 1]];
      assert painted == painted[..|painted| - 1] + [painted[|painted| - 1]];
    }
  }

  /** Recolouring keeps a line's text, and a second time it changes nothing. */
  lemma PaintIdempotent(segs: seq<Seg>, r: Rule)
    ensures SameText(segs, Paint(segs, r)) && JoinText(Paint(segs, r)) == JoinText(segs)
    ensures Paint(Paint(segs, r), r) == Paint(segs, r)
  {
    PaintPartText(segs, r.isComment(JoinText(segs)), r);
    PaintPartTwice(segs, r.isComment(JoinText(segs)), r);
    SameTextSame(segs, Paint(segs, r), r);
  }

  // --------------------------------------------------- what recolouring does to a segment

  ghost predicate CodeAt(line: seq<Seg>, i: int, isComment: string -> bool) {
    0 <= i < |line| && !Blank(line[i].text) && !isComment(line[i].text)
  }

  ghost predicate CommentAt(line: seq<Seg>, i: int, isComment: string -> bool) {
    0 <= i < |line| && !Blank(line[i].text) && isComment(line[i].text)
  }

  /** Segment `k` is, or stands after, one with the shape of a comment that follows code. */
  ghost predicate Trails(line: seq<Seg>, k: int, isComment: string -> bool) {
    exists d, c :: 0 <= d < c <= k && CodeAt(line, d, isComment) && CommentAt(line, c, isComment)
  }

  /** A blank segment, or unless forced one in a colour that is neither a house colour nor one of the
      rule's, keeps its colour; any other of a line with text is in the rule's comment colour if the
      line is a comment or its trailing comment has begun, and in the code colour otherwise. */
  ghost predicate Recoloured(was: seq<Seg>, now: seq<Seg>, r: Rule) {
    |now| == |was| && forall k :: 0 <= k < |was| ==> SegRecoloured(was, k, now[k], r)
  }

  ghost predicate SegRecoloured(was: seq<Seg>, k: nat, now: Seg, r: Rule)
    requires k < |was|
  {
    var rgb := was[k].rgb;
    && now.text == was[k].text
    && now.rgb ==
       if || Blank(JoinText(was)) || Blank(was[k].text)
          || (!r.force && rgb !in {None, Some(CODE_RGB), Some(COMMENT_RGB), Some(r.code), Some(r.comment)}) then rgb
       else if r.isComment(JoinText(was)) || Trails(was, k, r.isComment) then Some(r.comment)
       else Some(r.code)
  }

  lemma {:induction false} ModeMeans(line: seq<Seg>, k: nat, r: Rule)
    requires k <= |line|
    ensures ModeOf(line[..k], r).seenCode <==> exists d :: 0 <= d < k && CodeAt(line, d, r.isComment)
    ensures ModeOf(line[..k], r).inComment <==> Trails(line, k - 1, r.isComment)
  {
    if k > 0 {
      ModeMeans(line, k - 1, r);
      assert line[..k][..k - 1] == line[..k - 1];
      var was := ModeOf(line[..k - 1], r);
      assert ModeOf(line[..k], r).seenCode <==> was.seenCode || CodeAt(line, k - 1, r.isComment);
      if was.seenCode && CommentAt(line, k - 1, r.isComment) {
        var d :| 0 <= d < k - 1 && CodeAt(line, d, r.isComment);
        assert Trails(line, k - 1, r.isComment);
      }
      if Trails(line, k - 1, r.isComment) {
        var d, c :| 0 <= d < c <= k - 1 && CodeAt(line, d, r.isComment) && CommentAt(line, c, r.isComment);
        assert c < k - 1 ==> Trails(line, k - 2, r.isComment);
      }
    }
  }

  lemma {:induction false} PaintPartAt(line: seq<Seg>, whole: bool, k: nat, r: Rule)
    requires k < |line|
    ensures PaintPart(line, whole, r)[k] == PaintSeg(line[k], Want(line[..k], line[k].text, whole, r), r)
  {
    var before := line[..|line| - 1];
    if k < |before| {
      PaintPartAt(before, whole, k, r);
      assert before[..k] == line[..k];
    }
  }

  lemma PaintMeans(line: seq<Seg>, r: Rule)
    ensures Recoloured(line, Paint(line, r), r)
  {
    forall k | 0 <= k < |line| ensures SegRecoloured(line, k, Paint(line, r)[k], r) {
      PaintPartAt(line, r.isComment(JoinText(line)), k, r);
      ModeMeans(line, k + 1, r);
      assert line[..k + 1][..k] == line[..k];
    }
  }

  lemma {:induction false} NoChanges(a: seq<Seg>, b: seq<Seg>)
    requires |a| == |b|
    ensures Changes(a, b) == 0 <==> a == b
  {
    if a != [] {
      NoChanges(a[..|a| - 1], b[..|b| - 1]);
      assert a == a[..|a| - 1] + [a[|a| - 1]] && b == b[..|b| - 1] + [b[|b| - 1]];
    }
  }

  ghost function Differ(a: seq<Seg>, b: seq<Seg>): set<nat>
    requires |a| == |b|
  {
    set k: nat | k < |a| && a[k] != b[k]
  }

  /** How many segments change, counted by where they are. */
  lemma {:induction false} ChangesCount(a: seq<Seg>, b: seq<Seg>)
    requires |a| == |b|
    ensures Changes(a, b) == |Differ(a, b)|
  {
    if a != [] {
      var n := |a| - 1;
      ChangesCount(a[..n], b[..n]);
      assert Differ(a, b) == Differ(a[..n], b[..n]) + if a[n] == b[n] then {} else {n};
    }
  }

  // ---------------------------------------------------------------- the checker's rule

  datatype Hit = CodeAsComment | CommentAsCode | OtherColour(rgb: Option<Rgb>)

  function WholeHit(s: Seg): set<Hit> {
    if Blank(s.text) || s.rgb == Some(COMMENT_RGB) then {}
    else if s.rgb == Some(CODE_RGB) then {CommentAsCode}
    else {OtherColour(s.rgb)}
  }

  function CodeHit(s: Seg, seenCode: bool, isComment: string -> bool): set<Hit> {
    if Blank(s.text) || s.rgb == Some(CODE_RGB) then {}
    else if s.rgb != Some(COMMENT_RGB) then {OtherColour(s.rgb)}
    else if seenCode && isComment(s.text) then {}
    else {CodeAsComment}
  }

  function PartHits(segs: seq<Seg>, whole: bool, r: Rule): set<Hit> {
    if segs == [] then {}
    else
      var before, last := segs[..|segs| - 1], segs[|segs| - 1];
      PartHits(before, whole, r) +
      if whole then WholeHit(last) else CodeHit(last, ModeOf(before, r).seenCode, r.isComment)
  }

  /** What the checker reports for a line. */
  function Hits(segs: seq<Seg>, r: Rule): set<Hit> {
    if Blank(JoinText(segs)) then {} else PartHits(segs, r.isComment(JoinText(segs)), r)
  }

  /** `line_hits` */
  method LineHits(segs: seq<Seg>, r: Rule) returns (hits: set<Hit>)
    ensures hits == Hits(segs, r)
  {
    hits := {};
    var text := JoinText(segs);
    if Blank(text) { return; }
    var whole := r.isComment(text);
    var seenCode := false;
    for i := 0 to |segs|
      invariant seenCode == (!whole && ModeOf(segs[..i], r).seenCode)
      invariant hits == PartHits(segs[..i], whole, r)
    {
      assert segs[..i + 1][..i] == segs[..i];
      var s := segs[i];
      if Blank(s.text) { continue; }
      if whole {
        if s.rgb == Some(CODE_RGB) {
          hits := hits + {CommentAsCode};
        } else if s.rgb != Some(COMMENT_RGB) {
          hits := hits + {OtherColour(s.rgb)};
        }
      } else {
        var trailing := seenCode && r.isComment(s.text);
        if s.rgb == Some(COMMENT_RGB) && !trailing {
          hits := hits + {CodeAsComment};
        } else if s.rgb != Some(CODE_RGB) && s.rgb != Some(COMMENT_RGB) {
          hits := hits + {OtherColour(s.rgb)};
        }
        if !r.isComment(s.text) { seenCode := true; }
      }
    }
    assert segs[..|segs|] == segs;
  }

  /** Every segment with ink may be painted. */
  ghost predicate Paintable(segs: seq<Seg>, r: Rule) {
    forall i :: 0 <= i < |segs| && !Blank(segs[i].text) ==> r.Ours(segs[i].rgb) || r.force
  }

  /** Once a trailing comment has begun, every segment that follows has the shape of one. */
  ghost predicate CommentTrails(segs: seq<Seg>, r: Rule) {
    forall i :: 0 <= i < |segs| && !Blank(segs[i].text) && ModeOf(segs[..i], r).inComment ==> r.isComment(segs[i].text)
  }

  lemma {:induction false} CommentAfterCode(segs: seq<Seg>, r: Rule)
    ensures ModeOf(segs, r).inComment ==> ModeOf(segs, r).seenCode
  {
    if segs != [] { CommentAfterCode(segs[..|segs| - 1], r); }
  }

  lemma LastOfLine(segs: seq<Seg>, r: Rule)
    requires segs != []
    ensures var before, last := segs[..|segs| - 1], segs[|segs| - 1];
            && (Paintable(segs, r) <==> Paintable(before, r) && (Blank(last.text) || r.Ours(last.rgb) || r.force))
            && (CommentTrails(segs, r) <==>
                (CommentTrails(before, r)
                 && (Blank(last.text) || !ModeOf(before, r).inComment || r.isComment(last.text))))
  {
    var before := segs[..|segs| - 1];
    assert forall i :: 0 <= i < |before| ==> before[..i] == segs[..i];
  }

  /** One segment, painted, in the checker's eyes. */
  lemma SegClean(s: Seg, m: Mode, whole: bool, r: Rule)
    requires r.House() && (m.inComment ==> m.seenCode)
    ensures var want := if whole || Enter(m, s.text, r).inComment then r.comment else r.code;
            var painted := PaintSeg(s, want, r);
            (if whole then WholeHit(painted) else CodeHit(painted, m.seenCode, r.isComment)) == {}
            <==> Blank(s.text) || ((r.Ours(s.rgb) || r.force) && (whole || !m.inComment || r.isComment(s.text)))
  {
  }

  lemma {:induction false} PartClean(segs: seq<Seg>, whole: bool, r: Rule)
    requires r.House()
    ensures (PartHits(PaintPart(segs, whole, r), whole, r) == {})
       <==> (Paintable(segs, r) && (whole || CommentTrails(segs, r)))
  {
    if segs != [] {
      var before, last := segs[..|segs| - 1], segs[|segs| - 1];
      PartClean(before, whole, r);
      LastOfLine(segs, r);
      PaintPartText(before, whole, r);
      SameTextSame(before, PaintPart(before, whole, r), r);
      CommentAfterCode(before, r);
      SegClean(last, ModeOf(before, r), whole, r);
      HitsLast(PaintPart(segs, whole, r), whole, r);
      hide PaintPart, ModeOf, PartHits, Paintable, CommentTrails, WholeHit, CodeHit, PaintSeg, Enter;
    }
  }

  lemma HitsLast(segs: seq<Seg>, whole: bool, r: Rule)
    requires segs != []
    ensures var before, last := segs[..|segs| - 1], segs[|segs| - 1];
            PartHits(segs, whole, r) == PartHits(before, whole, r)
              + if whole then WholeHit(last) else CodeHit(last, ModeOf(before, r).seenCode, r.isComment)
  {
  }

  /** After recolouring to the house colours the checker reports nothing on a line exactly
      when it is blank, or every segment was ours to paint and (the whole line is a comment,
      or) what follows the start of a trailing comment has a comment's shape throughout. */
  lemma CleanAfterPaint(segs: seq<Seg>, r: Rule)
    requires r.House()
    ensures Hits(Paint(segs, r), r) == {} <==>
      (|| Blank(JoinText(segs))
       || (Paintable(segs, r) && (r.isComment(JoinText(segs)) || CommentTrails(segs, r))))
  {
    PaintIdempotent(segs, r);
    PartClean(segs, r.isComment(JoinText(segs)), r);
  }

  // --------------------------------------------------- segments without text do not matter

  /** The segments that have text. */
  function Inked(segs: seq<Seg>): seq<Seg> {
    if segs == [] then []
    else Inked(segs[..|segs| - 1]) + if segs[|segs| - 1].text == "" then [] else [segs[|segs| - 1]]
  }

  lemma InkedLast(segs: seq<Seg>)
    requires segs != []
    ensures var i, before, last := Inked(segs), segs[..|segs| - 1], segs[|segs| - 1];
            if last.text == "" then i == Inked(before)
            else i != [] && i[..|i| - 1] == Inked(before) && i[|i| - 1] == last
  {
  }

  lemma {:induction false} InkedMode(segs: seq<Seg>, r: Rule)
    ensures JoinText(Inked(segs)) == JoinText(segs) && ModeOf(Inked(segs), r) == ModeOf(segs, r)
  {
    if segs != [] {
      InkedMode(segs[..|segs| - 1], r);
      InkedLast(segs);
      assert JoinText(segs[..|segs| - 1]) + "" == JoinText(segs[..|segs| - 1]);
    }
  }

  lemma {:induction false} InkedPaint(segs: seq<Seg>, whole: bool, r: Rule)
    ensures Inked(PaintPart(segs, whole, r)) == PaintPart(Inked(segs), whole, r)
  {
    if segs != [] {
      var before, last := segs[..|segs| - 1], segs[|segs| - 1];
      InkedPaint(before, whole, r);
      InkedMode(before, r);
      InkedLast(segs);
      InkedLast(PaintPart(segs, whole, r));
      assert PaintSeg(last, Want(before, last.text, whole, r), r).text == last.text;
      hide PaintPart, Inked, ModeOf, JoinText, Blank, Enter, PaintSeg, Rule.Ours;
    }
  }

  lemma {:induction false} InkedChanges(segs: seq<Seg>, whole: bool, r: Rule)
    ensures Changes(Inked(segs), PaintPart(Inked(segs), whole, r)) == Changes(segs, PaintPart(segs, whole, r))
  {
    hide PaintPart, Inked, ModeOf, Changes, Enter, JoinText, Blank;
    if segs == [] {
      NothingInked();
    } else {
      var before, last := segs[..|segs| - 1], segs[|segs| - 1];
      InkedChanges(before, whole, r);
      InkedMode(before, r);
      InkedLast(segs);
      PaintLast(segs, whole, r);
      ChangesLast(segs, PaintPart(segs, whole, r));
      if last.text == "" {
        EmptyStays(last, Want(before, last.text, whole, r), r);
      } else {
        PaintLast(Inked(segs), whole, r);
        ChangesLast(Inked(segs), PaintPart(Inked(segs), whole, r));
      }
    }
  }

  lemma NothingInked()
    ensures Inked([]) == []
  {
  }

  lemma EmptyStays(s: Seg, want: Rgb, r: Rule)
    requires s.text == ""
    ensures PaintSeg(s, want, r) == s
  {
  }

  lemma PaintLast(segs: seq<Seg>, whole: bool, r: Rule)
    requires segs != []
    ensures var before, last := segs[..|segs| - 1], segs[|segs| - 1];
            PaintPart(segs, whole, r)
            == PaintPart(before, whole, r) + [PaintSeg(last, Want(before, last.text, whole, r), r)]
  {
  }

  lemma ChangesLast(a: seq<Seg>, b: seq<Seg>)
    requires |a| == |b| && a != []
    ensures Changes(a, b) == Changes(a[..|a| - 1], b[..|b| - 1]) + if a[|a| - 1] == b[|b| - 1] then 0 else 1
  {
  }

  lemma {:induction false} InkedHits(segs: seq<Seg>, whole: bool, r: Rule)
    ensures PartHits(Inked(segs), whole, r) == PartHits(segs, whole, r)
  {
    if segs != [] {
      InkedHits(segs[..|segs| - 1], whole, r);
      InkedMode(segs[..|segs| - 1], r);
      InkedLast(segs);
      HitsLast(segs, whole, r);
      if segs[|segs| - 1].text != "" { HitsLast(Inked(segs), whole, r); }
      hide PartHits, Inked, ModeOf;
    }
  }
}
