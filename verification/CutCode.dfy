/** Excerpting a code box in place (scripts/deck_edit.py, _line_records and
    op_cut_code) against the flat splice of the same cuts on a list of lines
    (_plans/s12-manifest/tools/gen_fit.py, apply). */
module CutCode {
  import opened Text
  import opened TextTree
  import Colours

  /** One entry of "cuts", with 1-based inclusive line numbers. */
  datatype Cut = Cut(from: int, to: int, first: string, last: Option<string>, ellipsis: string)

  // ----------------------------------------------------------- the flat splice

  /** What a line of the result is: an inserted comment or an old line. */
  datatype Item<+L> = Ellipsis(text: string) | Kept(line: L)

  /** `range(from - 1, to)`: the 0-based indexes of the lines a cut removes. */
  predicate Covers(c: Cut, i: int) {
    c.from - 1 <= i < c.to
  }

  function Range(c: Cut): set<int> {
    set i | c.from - 1 <= i < c.to && Covers(c, i)
  }

  /** The removed 0-based line indexes. */
  function Removed(cuts: seq<Cut>): set<int> {
    if cuts == [] then {} else Removed(cuts[..|cuts| - 1]) + Range(cuts[|cuts| - 1])
  }

  /** The inserted comments, by the 0-based index of the line they go before. */
  function Inserted(cuts: seq<Cut>): map<int, string> {
    if cuts == [] then map[]
    else
      var c := cuts[|cuts| - 1];
      var rest := Inserted(cuts[..|cuts| - 1]);
      if c.ellipsis != "" then rest[c.from - 1 := c.ellipsis] else rest
  }

  /** Line i's contribution to the result. */
  function Contribution<L>(lines: seq<L>, i: nat, drop: set<int>, ins: map<int, string>): seq<Item<L>>
    requires i < |lines|
  {
    (if i in ins then [Ellipsis(ins[i])] else []) + (if i !in drop then [Kept(lines[i])] else [])
  }

  /** The contributions of lines lo..hi, in order. */
  ghost function Plan<L>(lines: seq<L>, lo: nat, hi: nat, drop: set<int>, ins: map<int, string>): seq<Item<L>>
    requires lo <= hi <= |lines|
  {
    if lo == hi then [] else Plan(lines, lo, hi - 1, drop, ins) + Contribution(lines, hi - 1, drop, ins)
  }

  /** Cuts in range, in order and disjoint. */
  ghost predicate Disjoint(cuts: seq<Cut>, n: nat) {
    forall k :: 0 <= k < |cuts| ==> 1 <= cuts[k].from <= cuts[k].to <= n && (0 < k ==> cuts[k - 1].to < cuts[k].from)
  }

  lemma {:induction false} DisjointAscends(cuts: seq<Cut>, n: nat, k: nat, k': nat)
    requires Disjoint(cuts, n) && k < k' < |cuts|
    ensures cuts[k].to < cuts[k'].from
    decreases k'
  {
    if k + 1 < k' { DisjointAscends(cuts, n, k, k' - 1); }
  }

  lemma RestDisjoint(cuts: seq<Cut>, n: nat)
    requires cuts != [] && Disjoint(cuts, n)
    ensures Disjoint(cuts[..|cuts| - 1], cuts[|cuts| - 1].from - 1)
  {
    var m := |cuts| - 1;
    forall k | 0 <= k < m ensures cuts[k].to < cuts[m].from {
      DisjointAscends(cuts, n, k, m);
    }
  }

  /** The reference: one list-slice assignment per cut, last cut first. */
  ghost function SliceAssign<L>(lines: seq<Item<L>>, cuts: seq<Cut>): seq<Item<L>>
    requires Disjoint(cuts, |lines|)
  {
    if cuts == [] then lines
    else
      var c := cuts[|cuts| - 1];
      RestDisjoint(cuts, |lines|);
      var head := SliceAssign(lines[..c.from - 1], cuts[..|cuts| - 1]);
      head + (if c.ellipsis != "" then [Ellipsis(c.ellipsis)] else []) + lines[c.to..]
  }

  ghost function AllKept<L>(lines: seq<L>): seq<Item<L>> {
    seq(|lines|, i requires 0 <= i < |lines| => Kept(lines[i]))
  }

  lemma {:induction false} RemovedMeans(cuts: seq<Cut>, i: int)
    ensures i in Removed(cuts) <==> exists k :: 0 <= k < |cuts| && Covers(cuts[k], i)
  {
    if cuts != [] {
      var n := |cuts| - 1;
      RemovedMeans(cuts[..n], i);
      if i in Removed(cuts[..n]) {
        var k :| 0 <= k < n && Covers(cuts[..n][k], i);
        assert cuts[k] == cuts[..n][k];
      }
      if k :| 0 <= k < n && Covers(cuts[k], i) {
        assert cuts[k] == cuts[..n][k];
      }
    }
  }

  lemma {:induction false} InsertedInside(cuts: seq<Cut>, n: nat, i: int)
    requires Disjoint(cuts, n) && i in Inserted(cuts)
    ensures exists k :: 0 <= k < |cuts| && i == cuts[k].from - 1
  {
    var m := |cuts| - 1;
    if i != cuts[m].from - 1 {
      InsertedInside(cuts[..m], n, i);
      var k :| 0 <= k < |cuts[..m]| && i == cuts[..m][k].from - 1;
      assert cuts[k] == cuts[..m][k];
    }
  }

  /** Only what is said about the lines in [lo, hi) matters there. */
  lemma {:induction false} PlanAgree<L>(a: seq<L>, b: seq<L>, lo: nat, hi: nat, d: set<int>, e: set<int>,
                                        x: map<int, string>, y: map<int, string>)
    requires lo <= hi <= |a| && hi <= |b|
    requires forall i: nat :: lo <= i < hi ==> Contribution(a, i, d, x) == Contribution(b, i, e, y)
    ensures Plan(a, lo, hi, d, x) == Plan(b, lo, hi, e, y)
    decreases hi - lo
  {
    if lo < hi {
      assert Contribution(a, hi - 1, d, x) == Contribution(b, hi - 1, e, y);
      hide Contribution;
      PlanAgree(a, b, lo, hi - 1, d, e, x, y);
    }
  }

  lemma {:induction false} PlanSplit<L>(a: seq<L>, lo: nat, mid: nat, hi: nat, d: set<int>, x: map<int, string>)
    requires lo <= mid <= hi <= |a|
    ensures Plan(a, lo, hi, d, x) == Plan(a, lo, mid, d, x) + Plan(a, mid, hi, d, x)
    decreases hi - mid
  {
    if mid < hi { PlanSplit(a, lo, mid, hi - 1, d, x); }
  }

  lemma {:induction false} PlanKeepsAll<L>(a: seq<L>, lo: nat, hi: nat, d: set<int>, x: map<int, string>)
    requires lo <= hi <= |a| && forall i :: lo <= i < hi ==> i !in d && i !in x
    ensures Plan(a, lo, hi, d, x) == AllKept(a[lo..hi])
    decreases hi - lo
  {
    if lo < hi {
      PlanKeepsAll(a, lo, hi - 1, d, x);
      assert a[lo..hi] == a[lo..hi - 1] + [a[hi - 1]];
    }
  }

  lemma {:induction false} PlanDropsAll<L>(a: seq<L>, lo: nat, hi: nat, d: set<int>, x: map<int, string>)
    requires lo <= hi <= |a| && forall i :: lo <= i < hi ==> i in d && i !in x
    ensures Plan(a, lo, hi, d, x) == []
    decreases hi - lo
  {
    if lo < hi { PlanDropsAll(a, lo, hi - 1, d, x); }
  }

  lemma PlanOne<L>(lines: seq<L>, a: nat, drop: set<int>, ins: map<int, string>)
    requires a < |lines|
    ensures Plan(lines, a, a + 1, drop, ins) == Contribution(lines, a, drop, ins)
  {
  }

  /** A comment goes in front of line a, and lines a..b are dropped. */
  lemma PlanOfOneCut<L>(lines: seq<L>, a: nat, b: nat, drop: set<int>, ins: map<int, string>)
    requires a < b <= |lines|
    requires forall i :: a <= i < |lines| ==> (i in drop <==> i < b) && (i in ins ==> i == a)
    ensures Plan(lines, a, |lines|, drop, ins)
         == (if a in ins then [Ellipsis(ins[a])] else []) + AllKept(lines[b..])
  {
    PlanOne(lines, a, drop, ins);
    hide Plan, AllKept;
    var n := |lines|;
    PlanSplit(lines, a, a + 1, n, drop, ins);
    PlanSplit(lines, a + 1, b, n, drop, ins);
    PlanDropsAll(lines, a + 1, b, drop, ins);
    PlanKeepsAll(lines, b, n, drop, ins);
    assert lines[b..n] == lines[b..];
    var tail := AllKept(lines[b..]);
    assert Plan(lines, a + 1, n, drop, ins) == tail by { assert [] + tail == tail; }
    assert Contribution(lines, a, drop, ins) == (if a in ins then [Ellipsis(ins[a])] else []);
  }

  /** From the last cut on: its comment, then every line after it. */
  lemma PlanFromLastCut<L>(lines: seq<L>, cuts: seq<Cut>)
    requires cuts != [] && Disjoint(cuts, |lines|)
    ensures Plan(lines, cuts[|cuts| - 1].from - 1, |lines|, Removed(cuts), Inserted(cuts))
         == (if cuts[|cuts| - 1].ellipsis != "" then [Ellipsis(cuts[|cuts| - 1].ellipsis)] else [])
            + AllKept(lines[cuts[|cuts| - 1].to..])
  {
    hide Plan, AllKept;
    var c := cuts[|cuts| - 1];
    forall i | c.from - 1 <= i < |lines|
      ensures (i in Removed(cuts) <==> i < c.to) && (i in Inserted(cuts) ==> i == c.from - 1)
    { FromLastCut(cuts, |lines|, i); }
    FromLastCut(cuts, |lines|, c.from - 1);
    hide Removed, Inserted;
    PlanOfOneCut(lines, c.from - 1, c.to, Removed(cuts), Inserted(cuts));
  }

  /** Before the last cut only the other cuts matter. */
  lemma PlanBeforeLastCut<L>(lines: seq<L>, cuts: seq<Cut>)
    requires cuts != [] && Disjoint(cuts, |lines|)
    ensures var a, rest := cuts[|cuts| - 1].from - 1, cuts[..|cuts| - 1];
            Plan(lines, 0, a, Removed(cuts), Inserted(cuts)) == Plan(lines[..a], 0, a, Removed(rest), Inserted(rest))
  {
    hide Plan;
    var c, rest := cuts[|cuts| - 1], cuts[..|cuts| - 1];
    var a := c.from - 1;
    var drop, ins := Removed(cuts), Inserted(cuts);
    forall i: nat | i < a
      ensures Contribution(lines, i, drop, ins) == Contribution(lines[..a], i, Removed(rest), Inserted(rest))
    { assert !Covers(c, i); }
    PlanAgree(lines, lines[..a], 0, a, drop, Removed(rest), ins, Inserted(rest));
  }

  /** The one-pass splice is slice assignment from the last cut to the first. */
  lemma {:induction false} PlanIsSliceAssign<L>(lines: seq<L>, cuts: seq<Cut>)
    requires Disjoint(cuts, |lines|)
    ensures Disjoint(cuts, |AllKept(lines)|)
    ensures Plan(lines, 0, |lines|, Removed(cuts), Inserted(cuts)) == SliceAssign(AllKept(lines), cuts)
    decreases |cuts|
  {
    var drop, ins, n := Removed(cuts), Inserted(cuts), |lines|;
    if cuts == [] {
      PlanKeepsAll(lines, 0, n, drop, ins);
      assert lines[0..n] == lines;
    } else {
      var m := |cuts| - 1;
      var c := cuts[m];
      var a := c.from - 1;
      RestDisjoint(cuts, n);
      PlanIsSliceAssign(lines[..a], cuts[..m]);
      assert AllKept(lines)[..a] == AllKept(lines[..a]);
      assert AllKept(lines)[c.to..] == AllKept(lines[c.to..]);
      PlanSplit(lines, 0, a, n, drop, ins);
      PlanBeforeLastCut(lines, cuts);
      PlanFromLastCut(lines, cuts);
      hide Plan, Removed, Inserted;
    }
  }

  /** From the last cut's first line on, only that cut removes and inserts. */
  lemma FromLastCut(cuts: seq<Cut>, n: nat, i: int)
    requires cuts != [] && Disjoint(cuts, n) && cuts[|cuts| - 1].from - 1 <= i
    ensures var c := cuts[|cuts| - 1];
            && (i in Removed(cuts) <==> i < c.to)
            && (i in Inserted(cuts) <==> i == c.from - 1 && c.ellipsis != "")
            && (i in Inserted(cuts) ==> Inserted(cuts)[i] == c.ellipsis)
  {
  }

  /** `sorted(cuts, key=from)`, stable. */
  function SortedCuts(cuts: seq<Cut>): (r: seq<Cut>)
    ensures multiset(r) == multiset(cuts) && Ordered(r)
  {
    if cuts == [] then []
    else
      assert cuts == cuts[..|cuts| - 1] + [cuts[|cuts| - 1]];
      Insert(SortedCuts(cuts[..|cuts| - 1]), cuts[|cuts| - 1])
  }

  ghost predicate Ordered(r: seq<Cut>) {
    forall i :: 0 < i < |r| ==> r[i - 1].from <= r[i].from
  }

  function Insert(r: seq<Cut>, c: Cut): (s: seq<Cut>)
    requires Ordered(r)
    ensures multiset(s) == multiset(r) + multiset{c} && Ordered(s)
    ensures s != [] && (s[|s| - 1] == c || (r != [] && s[|s| - 1] == r[|r| - 1]))
  {
    if r == [] || r[|r| - 1].from <= c.from then r + [c]
    else
      assert r == r[..|r| - 1] + [r[|r| - 1]];
      Insert(r[..|r| - 1], c) + [r[|r| - 1]]
  }

  lemma SameMembers(a: seq<Cut>, b: seq<Cut>)
    requires multiset(a) == multiset(b)
    ensures forall c :: c in a <==> c in b
  {
    forall c ensures c in a <==> c in b {
      assert c in multiset(a) <==> c in multiset(b);
    }
  }

  /** A comment is inserted exactly where some cut with one begins. */
  lemma {:induction false} InsertedMeans(cuts: seq<Cut>, i: int)
    ensures i in Inserted(cuts) ==>
        exists c :: c in cuts && c.ellipsis != "" && c.from - 1 == i && Inserted(cuts)[i] == c.ellipsis
    ensures (exists c :: c in cuts && c.ellipsis != "" && c.from - 1 == i) ==> i in Inserted(cuts)
  {
    if cuts != [] {
      var init, last := cuts[..|cuts| - 1], cuts[|cuts| - 1];
      InsertedMeans(init, i);
      assert cuts == init + [last];
      assert forall c :: c in cuts <==> c in init || c == last;
      if i in Inserted(cuts) && !(last.ellipsis != "" && last.from - 1 == i) {
        var c :| c in init && c.ellipsis != "" && c.from - 1 == i && Inserted(init)[i] == c.ellipsis;
        assert c in cuts && Inserted(cuts)[i] == c.ellipsis;
      }
    }
  }

  /** Disjoint cuts remove and insert the same in any order. */
  lemma OrderIrrelevant(cuts: seq<Cut>, sorted: seq<Cut>, n: nat)
    requires multiset(cuts) == multiset(sorted) && Disjoint(sorted, n)
    ensures Removed(cuts) == Removed(sorted) && Inserted(cuts) == Inserted(sorted)
  {
    hide Removed, Inserted;
    SameMembers(cuts, sorted);
    forall i ensures i in Removed(cuts) <==> i in Removed(sorted) {
      RemovedMeans(cuts, i);
      RemovedMeans(sorted, i);
      if k :| 0 <= k < |cuts| && Covers(cuts[k], i) { assert cuts[k] in sorted; }
      if k :| 0 <= k < |sorted| && Covers(sorted[k], i) { assert sorted[k] in cuts; }
    }
    forall i ensures i in Inserted(cuts) <==> i in Inserted(sorted) {
      InsertedMeans(cuts, i);
      InsertedMeans(sorted, i);
    }
    forall i | i in Inserted(cuts) ensures Inserted(cuts)[i] == Inserted(sorted)[i] {
      InsertedMeans(cuts, i);
      InsertedMeans(sorted, i);
      var c :| c in cuts && c.from - 1 == i && Inserted(cuts)[i] == c.ellipsis;
      var d :| d in sorted && d.from - 1 == i && Inserted(sorted)[i] == d.ellipsis;
      SameStart(sorted, n, c, d);
    }
  }

  lemma SameStart(cuts: seq<Cut>, n: nat, c: Cut, d: Cut)
    requires Disjoint(cuts, n) && c in cuts && d in cuts && c.from == d.from
    ensures c == d
  {
    var h :| 0 <= h < |cuts| && cuts[h] == c;
    var k :| 0 <= k < |cuts| && cuts[k] == d;
    if h < k { DisjointAscends(cuts, n, h, k); }
    if k < h { DisjointAscends(cuts, n, k, h); }
  }

  /** `gen_fit.apply`'s loop over the lines of a set_code op, for cuts in any order: if they
      are disjoint, it is slice assignment too. */
  method SpliceLines(src: seq<string>, cuts: seq<Cut>) returns (lines: seq<string>)
    ensures lines == ItemTexts(Plan(src, 0, |src|, Removed(cuts), Inserted(cuts)))
    ensures Disjoint(SortedCuts(cuts), |src|) ==> lines == ItemTexts(SliceAssign(AllKept(src), SortedCuts(cuts)))
  {
    hide SortedCuts, SliceAssign;
    var drop: set<int>, ins: map<int, string> := {}, map[];
    for k := 0 to |cuts|
      invariant drop == Removed(cuts[..k]) && ins == Inserted(cuts[..k])
    {
      var c := cuts[k];
      assert cuts[..k + 1][..k] == cuts[..k];
      drop := drop + Range(c);
      if c.ellipsis != "" {
        ins := ins[c.from - 1 := c.ellipsis];
      }
    }
    assert cuts[..|cuts|] == cuts;
    lines := [];
    for i := 0 to |src|
      invariant lines == ItemTexts(Plan(src, 0, i, drop, ins))
    {
      if i in ins {
        lines := lines + [ins[i]];
      }
      if i !in drop {
        lines := lines + [src[i]];
      }
    }
    if Disjoint(SortedCuts(cuts), |src|) {
      OrderIrrelevant(cuts, SortedCuts(cuts), |src|);
      PlanIsSliceAssign(src, SortedCuts(cuts));
    }
  }

  ghost function ItemTexts(items: seq<Item<string>>): seq<string> {
    seq(|items|, i requires 0 <= i < |items| => match items[i] case Ellipsis(t) => t case Kept(l) => l)
  }

  // ------------------------------------------------------------ the op, in place

  /** A line of the box: its paragraph, its runs and fields, the break that ends it. */
  datatype Rec = Rec(p: Paragraph, elems: seq<Child>, br: Option<Child>, text: string)

  ghost function ElemsOf(recs: seq<Rec>): seq<seq<Child>> {
    seq(|recs|, i requires 0 <= i < |recs| => recs[i].elems)
  }

  /** A record of a line, with the line's text as it is now. */
  ghost predicate WellRead(rec: Rec)
    reads RunsOf(rec.elems)
  {
    Shaped(rec) && rec.text == LineText(rec.elems) && '\n' !in rec.text
  }

  ghost predicate Shaped(rec: Rec) {
    NoBreak(rec.elems) && (rec.br.Some? ==> rec.br.value.Break?)
  }

  /** No text of the children holds a newline. */
  ghost predicate Readable(c: seq<Child>)
    reads RunsOf(c)
  {
    forall i :: 0 <= i < |c| ==> '\n' !in ChildText(c[i])
  }

  /** The breaks among the children, in order. */
  ghost function BreaksOf(c: seq<Child>): seq<Child> {
    if c == [] then [] else BreaksOf(c[..|c| - 1]) + if c[|c| - 1].Break? then [c[|c| - 1]] else []
  }

  lemma {:induction false} BreaksMore(c: seq<Child>, line: seq<Child>)
    requires NoBreak(line)
    ensures BreaksOf(c + line) == BreaksOf(c)
  {
    if line == [] {
      assert c + line == c;
    } else {
      var n := |line| - 1;
      BreaksMore(c, line[..n]);
      assert (c + line)[..|c| + n] == c + line[..n];
    }
  }

  lemma BreakAdded(c: seq<Child>, b: Child)
    requires b.Break?
    ensures BreaksOf(c + [b]) == BreaksOf(c) + [b]
  {
    assert (c + [b])[..|c|] == c;
  }

  lemma NoBreaks()
    ensures BreaksOf([]) == []
  {
  }

  ghost function BreaksOfEach(ps: seq<Paragraph>): (b: seq<seq<Child>>)
    reads ps
    ensures |b| == |ps| && forall k :: 0 <= k < |b| ==> b[k] == BreaksOf(ps[k].children)
  {
    seq(|ps|, k requires 0 <= k < |ps| reads ps => BreaksOf(ps[k].children))
  }

  /** What ends each line of a paragraph: its break, or nothing for the last one. */
  ghost function Ends(breaks: seq<Child>): (e: seq<Option<Child>>)
    ensures |e| == |breaks| + 1 && forall k :: 0 <= k < |e| ==> e[k] == if k < |breaks| then Some(breaks[k]) else None
  {
    seq(|breaks| + 1, k requires 0 <= k < |breaks| + 1 => if k < |breaks| then Some(breaks[k]) else None)
  }

  ghost function EndsOfEach(ps: seq<Paragraph>): (e: seq<seq<Option<Child>>>)
    reads ps
    ensures |e| == |ps| && forall k :: 0 <= k < |e| ==> e[k] == Ends(BreaksOf(ps[k].children))
  {
    seq(|ps|, k requires 0 <= k < |ps| reads ps => Ends(BreaksOf(ps[k].children)))
  }

  ghost function BrsOf(recs: seq<Rec>): (e: seq<Option<Child>>)
    ensures |e| == |recs| && forall i :: 0 <= i < |e| ==> e[i] == recs[i].br
  {
    seq(|recs|, i requires 0 <= i < |recs| => recs[i].br)
  }

  lemma BrsAppend(recs: seq<Rec>, more: seq<Rec>)
    ensures BrsOf(recs + more) == BrsOf(recs) + BrsOf(more)
  {
  }

  /** The records of the lines that ended among the first i children, and the line begun. */
  ghost predicate Begun(c: seq<Child>, i: nat, recs: seq<Rec>, elems: seq<Child>)
    requires i <= |c|
  {
    && LinesOf(c[..i]) == ElemsOf(recs) + [elems]
    && BrsOf(recs) + [None] == Ends(BreaksOf(c[..i]))
  }

  lemma BegunFirst(c: seq<Child>)
    ensures Begun(c, 0, [], [])
  {
    LinesOfOne([]);
    NoBreaks();
    assert c[..0] == [] && ElemsOf([]) + [[]] == [[]];
  }

  lemma BegunBreak(c: seq<Child>, i: nat, recs: seq<Rec>, elems: seq<Child>, rec: Rec)
    requires i < |c| && c[i].Break? && Begun(c, i, recs, elems) && rec.elems == elems && rec.br == Some(c[i])
    ensures Begun(c, i + 1, recs + [rec], [])
  {
    hide LinesOf, BreaksOf;
    assert c[..i + 1] == c[..i] + [c[i]];
    LinesBreak(c[..i], c[i]);
    BreakAdded(c[..i], c[i]);
    ElemsAppend(recs, rec);
    BrsAppend(recs, [rec]);
    EndsMore(BrsOf(recs), BreaksOf(c[..i]), c[i]);
    assert BrsOf([rec]) == [Some(c[i])];
  }

  lemma EndsMore(brs: seq<Option<Child>>, breaks: seq<Child>, b: Child)
    requires brs + [None] == Ends(breaks)
    ensures brs + [Some(b)] + [None] == Ends(breaks + [b])
  {
    var e := Ends(breaks);
    assert |brs| == |breaks| && forall k :: 0 <= k < |brs| ==> brs[k] == e[k];
  }

  lemma BegunMore(c: seq<Child>, i: nat, recs: seq<Rec>, elems: seq<Child>)
    requires i < |c| && !c[i].Break? && Begun(c, i, recs, elems)
    ensures Begun(c, i + 1, recs, elems + [c[i]])
  {
    hide LinesOf, BreaksOf;
    assert c[..i + 1] == c[..i] + [c[i]];
    LinesExtend(c[..i], [c[i]]);
    BreaksMore(c[..i], [c[i]]);
    assert (ElemsOf(recs) + [elems])[..|recs|] == ElemsOf(recs);
  }

  lemma BegunAll(c: seq<Child>, recs: seq<Rec>, elems: seq<Child>, rec: Rec)
    requires Begun(c, |c|, recs, elems) && rec.elems == elems && rec.br.None?
    ensures ElemsOf(recs + [rec]) == LinesOf(c) && BrsOf(recs + [rec]) == Ends(BreaksOf(c))
  {
    hide LinesOf, BreaksOf;
    assert c[..|c|] == c;
    ElemsAppend(recs, rec);
    BrsAppend(recs, [rec]);
    assert BrsOf([rec]) == [None];
  }

  lemma TextGrows(elems: seq<Child>, x: Child)
    ensures LineText(elems + [x]) == LineText(elems) + ChildText(x) && LineText([]) == ""
  {
    assert (elems + [x])[..|elems|] == elems;
  }

  /** `_line_records` for one paragraph. */
  method ParagraphRecords(p: Paragraph) returns (r: Result<seq<Rec>>)
    ensures r.Ok? <==> old(Readable(p.children))
    ensures r.Ok? ==> ElemsOf(r.value) == LinesOf(p.children)
    ensures r.Ok? ==> forall i :: 0 <= i < |r.value| ==> r.value[i].p == p && WellRead(r.value[i])
    ensures r.Ok? ==> BrsOf(r.value) == Ends(BreaksOf(p.children))
  {
    hide LinesOf, BreaksOf, Begun, LineText, ElemsOf, BrsOf, Ends;
    var c := p.children;
    var recs: seq<Rec>, elems: seq<Child>, text := [], [], "";
    BegunFirst(c);
    TextGrows([], Break(0));
    for i := 0 to |c|
      invariant p.children == c && Begun(c, i, recs, elems)
      invariant NoBreak(elems) && text == LineText(elems) && '\n' !in text
      invariant forall h :: 0 <= h < i ==> '\n' !in old(ChildText(c[h]))
      invariant forall h :: 0 <= h < |recs| ==> recs[h].p == p && WellRead(recs[h])
    {
      if c[i].Break? {
        BegunBreak(c, i, recs, elems, Rec(p, elems, Some(c[i]), text));
        TextGrows([], c[i]);
        recs := recs + [Rec(p, elems, Some(c[i]), text)];
        elems, text := [], "";
      } else {
        var t := ChildText(c[i]);
        if '\n' in t {
          return Err("cut_code: newlines inside a text run are not supported");
        }
        BegunMore(c, i, recs, elems);
        TextGrows(elems, c[i]);
        elems, text := elems + [c[i]], text + t;
      }
    }
    BegunAll(c, recs, elems, Rec(p, elems, None, text));
    r := Ok(recs + [Rec(p, elems, None, text)]);
  }

  lemma ElemsAppend(recs: seq<Rec>, rec: Rec)
    ensures ElemsOf(recs + [rec]) == ElemsOf(recs) + [rec.elems]
  {
  }

  twostate lemma ReadableStable(c: seq<Child>)
    requires forall i :: 0 <= i < |c| && c[i].RunChild? ==> c[i].run.text == old(c[i].run.text)
    ensures Readable(c) <==> old(Readable(c))
  {
    assert forall i :: 0 <= i < |c| ==> ChildText(c[i]) == old(ChildText(c[i]));
  }

  /** `_line_records`: the lines of the box in order, each with its paragraph. */
  method LineRecords(paras: seq<Paragraph>) returns (r: Result<seq<Rec>>)
    ensures r.Ok? <==> forall k :: 0 <= k < |paras| ==> old(Readable(paras[k].children))
    ensures r.Ok? ==> ElemsOf(r.value) == BoxLines(paras) && forall i :: 0 <= i < |r.value| ==> WellRead(r.value[i])
    ensures r.Ok? ==> InParagraphs(r.value, paras, Groups(paras), |paras|)
    ensures r.Ok? ==> BrsOf(r.value) == Concat(EndsOfEach(paras))
  {
    hide LinesOf, LineText, Concat, BreaksOf;
    var recs: seq<Rec> := [];
    ghost var groups, ends := Groups(paras), EndsOfEach(paras);
    assert groups[..0] == [] && ends[..0] == [];
    ConcatNone<seq<Child>>();
    ConcatNone<Option<Child>>();
    for k := 0 to |paras|
      invariant ElemsOf(recs) == Concat(groups[..k]) && BrsOf(recs) == Concat(ends[..k])
      invariant forall i :: 0 <= i < |recs| ==> WellRead(recs[i])
      invariant InParagraphs(recs, paras, groups, k)
      invariant forall h :: 0 <= h < k ==> old(Readable(paras[h].children))
    {
      label L:
      ReadableStable(paras[k].children);
      var one := ParagraphRecords(paras[k]);
      if one.Err? {
        return one;
      }
      forall i | 0 <= i < |recs| ensures WellRead(recs[i]) {
        LineTextStable@L(recs[i].elems);
      }
      ConcatStep(groups, k);
      ConcatStep(ends, k);
      BrsAppend(recs, one.value);
      assert ElemsOf(recs + one.value) == ElemsOf(recs) + ElemsOf(one.value);
      InParagraphsGrow(recs, one.value, paras, groups, k);
      recs := recs + one.value;
    }
    assert groups[..|paras|] == groups && ends[..|paras|] == ends;
    r := Ok(recs);
  }

  lemma ConcatNone<T>()
    ensures Concat<T>([]) == []
  {
  }

  ghost function Base<T>(groups: seq<seq<T>>, k: nat): nat
    requires k <= |groups|
  {
    |Concat(groups[..k])|
  }

  /** The records of the first n paragraphs: Base(k) .. Base(k + 1) are those of paragraph k. */
  ghost predicate InParagraphs(recs: seq<Rec>, paras: seq<Paragraph>, groups: seq<seq<seq<Child>>>, n: nat) {
    && n <= |groups| == |paras| && |recs| == Base(groups, n)
    && forall k, i :: 0 <= k < n && Base(groups, k) <= i < Base(groups, k + 1) && i < |recs| ==> recs[i].p == paras[k]
  }

  lemma InParagraphsGrow(recs: seq<Rec>, more: seq<Rec>, paras: seq<Paragraph>, groups: seq<seq<seq<Child>>>, n: nat)
    requires InParagraphs(recs, paras, groups, n) && n < |paras|
    requires |more| == |groups[n]| && forall i :: 0 <= i < |more| ==> more[i].p == paras[n]
    ensures InParagraphs(recs + more, paras, groups, n + 1)
  {
    hide Concat;
    var all := recs + more;
    ConcatStep(groups, n);
    forall k, i | 0 <= k < n + 1 && Base(groups, k) <= i < Base(groups, k + 1) && i < |all|
      ensures all[i].p == paras[k]
    {
      if k < n {
        BaseAscends(groups, k + 1, n);
        assert recs[i].p == paras[k];
      }
    }
  }

  lemma {:induction false} BaseAscends<T>(groups: seq<seq<T>>, k: nat, k': nat)
    requires k <= k' <= |groups|
    ensures Base(groups, k) <= Base(groups, k')
    decreases k'
  {
    if k < k' {
      BaseAscends(groups, k, k' - 1);
      ConcatStep(groups, k' - 1);
    }
  }

  /** `[i for i, r in enumerate(recs) if r["p"] is p]` */
  function IndexesOf(recs: seq<Rec>, p: Paragraph): seq<nat> {
    if recs == [] then []
    else IndexesOf(recs[..|recs| - 1], p) + (if recs[|recs| - 1].p == p then [|recs| - 1] else [])
  }

  lemma {:induction false} IndexesAreRange(recs: seq<Rec>, p: Paragraph, lo: nat, hi: nat)
    requires lo <= hi <= |recs|
    requires forall i :: 0 <= i < |recs| ==> (recs[i].p == p <==> lo <= i < hi)
    ensures IndexesOf(recs, p) == seq(hi - lo, j => lo + j)
  {
    if recs != [] {
      var n := |recs| - 1;
      if hi == |recs| && lo < hi {
        IndexesAreRange(recs[..n], p, lo, hi - 1);
      } else {
        IndexesAreRange(recs[..n], p, if n < lo then n else lo, if n < hi then n else hi);
      }
    }
  }

  /** Records of paragraph k are exactly those in its range. */
  lemma RangeOfParagraph(recs: seq<Rec>, paras: seq<Paragraph>, groups: seq<seq<seq<Child>>>, k: nat)
    requires InParagraphs(recs, paras, groups, |paras|) && k < |paras|
    requires forall h, h' :: 0 <= h < h' < |paras| ==> paras[h] != paras[h']
    ensures Base(groups, k) <= Base(groups, k + 1) <= |recs|
    ensures forall i :: 0 <= i < |recs| ==> (recs[i].p == paras[k] <==> Base(groups, k) <= i < Base(groups, k + 1))
  {
    BaseAscends(groups, k, k + 1);
    BaseAscends(groups, k + 1, |paras|);
    forall i | 0 <= i < |recs|
      ensures recs[i].p == paras[k] <==> Base(groups, k) <= i < Base(groups, k + 1)
    {
      var h := Holder(groups, |paras|, i);
      assert recs[i].p == paras[h];
      if h < k { BaseAscends(groups, h + 1, k); }
      if k < h { BaseAscends(groups, k + 1, h); }
    }
  }

  /** The paragraph a record belongs to. */
  ghost function Holder<T>(groups: seq<seq<T>>, n: nat, i: nat): (h: nat)
    requires n <= |groups| && i < Base(groups, n)
    ensures h < n && Base(groups, h) <= i < Base(groups, h + 1)
  {
    if n == 0 || Base(groups, n - 1) <= i then n - 1 else Holder(groups, n - 1, i)
  }

  // ------------------------------------------------------------- the edit itself

  /** The colour of inserted comments, and the formats they are copied in. */
  datatype Tone = Tone(rgb: Rgb, formats: set<nat>)

  ghost predicate IsCommentLine(line: seq<Child>, text: string, tone: Tone)
    reads RunsOf(line)
  {
    && |line| == 1 && line[0].RunChild?
    && line[0].run.text == text && line[0].run.rgb == Some(tone.rgb) && line[0].run.format in tone.formats
  }

  /** A line of the edited box is what the plan says: an old line with its own
      elements, or a one-run comment line in the tone. */
  ghost predicate Realises(line: seq<Child>, item: Item<seq<Child>>, tone: Tone)
    reads RunsOf(line)
  {
    match item
    case Kept(elems) => line == elems
    case Ellipsis(text) => IsCommentLine(line, text, tone)
  }

  predicate Inked(e: Child)
    reads if e.RunChild? then {e.run} else {}
  {
    e.RunChild? && !Blank(e.run.text)
  }

  /** The first run with text. */
  ghost function InkedRun(elems: seq<Child>): (r: Option<Run>)
    reads RunsOf(elems)
    ensures r.None? ==> forall i :: 0 <= i < |elems| ==> !Inked(elems[i])
    ensures r.Some? ==> exists i :: 0 <= i < |elems| && elems[i] == RunChild(r.value) && Inked(elems[i])
                                    && forall h :: 0 <= h < i ==> !Inked(elems[h])
  {
    if elems == [] then None
    else
      var n := |elems| - 1;
      var before := InkedRun(elems[..n]);
      if before.Some? then before else if Inked(elems[n]) then Some(elems[n].run) else None
  }

  /** `ellipsis_run`: a copy of the template line's first run with text, holding `text`. */
  method EllipsisRun(tmpl: Rec, text: string, rgb: Rgb) returns (r: Result<Run>)
    ensures r.Ok? <==> old(InkedRun(tmpl.elems)).Some?
    ensures r.Ok? ==> fresh(r.value) && r.value.text == text && r.value.rgb == Some(rgb)
                      && r.value.format == old(InkedRun(tmpl.elems)).value.format
  {
    ghost var first := InkedRun(tmpl.elems);
    for i := 0 to |tmpl.elems|
      invariant forall h :: 0 <= h < i ==> !Inked(tmpl.elems[h])
    {
      var e := tmpl.elems[i];
      if Inked(e) {
        assert first == Some(e.run);
        var copy := new Run(text, e.run.rgb, e.run.format);
        copy.rgb := Some(rgb);
        return Ok(copy);
      }
    }
    r := Err("StopIteration");
  }

  /** `src` is the run of the template line to copy, if the line has one. */
  ghost predicate Source(tmpl: Option<Rec>, src: Run?)
    reads if tmpl.Some? then RunsOf(tmpl.value.elems) else {}
  {
    match tmpl
    case None => src == null
    case Some(rec) => InkedRun(rec.elems) == if src == null then None else Some(src)
  }

  ghost function FormatOf(elems: seq<Child>): nat {
    if FirstRun(elems).Some? then FirstRun(elems).value.format else 0
  }

  /** Inserted lines take the format of the template line's first run with text or, where it
      has its paragraph to itself, of its first run. */
  ghost function ToneFor(rgb: Rgb, tmpl: Option<Rec>, src: Run?): Tone {
    Tone(rgb, (if src == null then {} else {src.format}) + if tmpl.None? then {} else {FormatOf(tmpl.value.elems)})
  }

  ghost predicate AllKeptItems(items: seq<Item<Rec>>) {
    forall k :: 0 <= k < |items| ==> items[k].Kept?
  }

  /** The template line has its paragraph to itself. */
  predicate Alone(recs: seq<Rec>, p: Paragraph) {
    |IndexesOf(recs, p)| == 1
  }

  /** If so, it is all the paragraph holds. */
  ghost predicate AloneKept(recs: seq<Rec>, tmpl: Option<Rec>)
    reads if tmpl.Some? then {tmpl.value.p} else {}
  {
    tmpl.Some? && Alone(recs, tmpl.value.p) ==> tmpl.value.p.children == tmpl.value.elems
  }

  /** The replacement of a one-line paragraph by a comment line: in the format of the template
      paragraph's first run, or else of the template line's first run with text. */
  method EllipsisParagraph(p: Paragraph, tmpl: Rec, alone: bool, text: string, rgb: Rgb, ghost src: Run?)
    returns (r: Result<Paragraph>)
    requires Source(Some(tmpl), src)
    ensures r.Ok? <==> alone || src != null
    ensures r.Ok? ==> fresh(r.value) && fresh(RunsOf(r.value.children))
                      && IsCommentLine(r.value.children, text,
                                       Tone(rgb, {if alone then FirstFormat(tmpl.p) else src.format}))
  {
    var np := SetParText(if alone then tmpl.p else p, text);
    if !alone {
      var run := EllipsisRun(tmpl, text, rgb);
      if run.Err? {
        return Err(run.message);
      }
      np.children := [RunChild(run.value)];
    }
    ghost var format := np.children[0].run.format;
    for i := 0 to |np.children|
      invariant |np.children| == 1 && np.children[0].RunChild? && fresh(np.children[0].run)
      invariant np.children[0].run.text == text && np.children[0].run.format == format
      invariant 0 < i ==> np.children[0].run.rgb == Some(rgb)
    {
      np.children[i].run.rgb := Some(rgb);
    }
    r := Ok(np);
  }

  ghost function ItemElems(item: Item<Rec>): Item<seq<Child>> {
    match item
    case Ellipsis(t) => Ellipsis(t)
    case Kept(rec) => Kept(rec.elems)
  }

  ghost function ItemsElems(items: seq<Item<Rec>>): seq<Item<seq<Child>>> {
    seq(|items|, i requires 0 <= i < |items| => ItemElems(items[i]))
  }

  ghost predicate RealisedIn(lines: seq<seq<Child>>, items: seq<Item<seq<Child>>>, tone: Tone)
    reads *
  {
    |lines| == |items| && forall i :: 0 <= i < |lines| ==> Realises(lines[i], items[i], tone)
  }

  ghost predicate Buildable(items: seq<Item<Rec>>, tmpl: Option<Rec>) {
    forall k :: 0 <= k < |items| ==>
      match items[k]
      case Ellipsis(_) => tmpl.Some?
      case Kept(rec) => Shaped(rec)
  }

  method LineFor(item: Item<Rec>, tmpl: Option<Rec>, rgb: Rgb, ghost src: Run?) returns (r: Result<seq<Child>>)
    requires Buildable([item], tmpl) && Source(tmpl, src)
    ensures r.Ok? <==> src != null || item.Kept?
    ensures r.Ok? ==> NoBreak(r.value) && Realises(r.value, ItemElems(item), ToneFor(rgb, tmpl, src))
    ensures r.Ok? && item.Ellipsis? ==> fresh(RunsOf(r.value)) && r.value[0].run.format == src.format
  {
    assert [item][0] == item;
    match item {
      case Ellipsis(text) =>
        var run := EllipsisRun(tmpl.value, text, rgb);
        if run.Err? {
          return Err(run.message);
        }
        r := Ok([RunChild(run.value)]);
      case Kept(rec) =>
        r := Ok(rec.elems);
    }
  }

  /** Adds one line and, unless it is the paragraph's last, the break after it. */
  method AddLine(p: Paragraph, line: seq<Child>, br: Option<Child>, ghost lines: seq<seq<Child>>)
    requires LinesOf(p.children) == lines + [[]] && NoBreak(line) && (br.Some? ==> br.value.Break?)
    modifies p
    ensures LinesOf(p.children) == lines + [line] + if br.Some? then [[]] else []
    ensures BreaksOf(p.children) == BreaksOf(old(p.children)) + if br.Some? then [br.value] else []
  {
    hide LinesOf, BreaksOf;
    LinesExtend(p.children, line);
    BreaksMore(p.children, line);
    assert (lines + [[]])[..|lines|] == lines && [] + line == line;
    p.children := p.children + line;
    assert lines + [line] + [] == lines + [line];
    if br.Some? {
      LinesBreak(p.children, br.value);
      BreakAdded(p.children, br.value);
      p.children := p.children + [br.value];
    }
  }

  /** The break after a line: a surviving line's own, or else a copy of the box's first. */
  function BreakFor(item: Item<Rec>, brTmpl: Option<Child>): Child {
    if item.Kept? && item.line.br.Some? then item.line.br.value else if brTmpl.None? then Break(0) else brTmpl.value
  }

  function BreaksFor(items: seq<Item<Rec>>, n: nat, brTmpl: Option<Child>): (b: seq<Child>)
    requires n <= |items|
    ensures |b| == n && forall k :: 0 <= k < n ==> b[k] == BreakFor(items[k], brTmpl)
    ensures forall k :: 0 <= k < n && items[k].Kept? && items[k].line.br.Some? ==> b[k] == items[k].line.br.value
    ensures forall k :: 0 <= k < n && (items[k].Ellipsis? || items[k].line.br.None?) && brTmpl.Some? ==>
        b[k] == brTmpl.value
  {
    seq(n, k requires 0 <= k < n => BreakFor(items[k], brTmpl))
  }

  /** One item's line and, unless it is the last, the break after it. */
  method AddItem(p: Paragraph, item: Item<Rec>, last: bool, tmpl: Option<Rec>, brTmpl: Option<Child>, rgb: Rgb,
                 ghost src: Run?,
                 ghost lines: seq<seq<Child>>)
    returns (r: Result<()>, ghost line: seq<Child>)
    requires LinesOf(p.children) == lines + [[]] && Source(tmpl, src) && Buildable([item], tmpl)
    requires brTmpl.Some? ==> brTmpl.value.Break?
    modifies p
    ensures r.Ok? <==> src != null || item.Kept?
    ensures r.Ok? ==> LinesOf(p.children) == lines + [line] + if last then [] else [[]]
    ensures r.Ok? ==> BreaksOf(p.children) == BreaksOf(old(p.children)) + if last then [] else [BreakFor(item, brTmpl)]
    ensures r.Ok? ==> Realises(line, ItemElems(item), ToneFor(rgb, tmpl, src))
    ensures r.Ok? && item.Ellipsis? ==> fresh(RunsOf(line))
  {
    hide LinesOf, BreaksOf, InkedRun, ToneFor;
    var made := LineFor(item, tmpl, rgb, src);
    if made.Err? {
      return Err(made.message), [];
    }
    line := made.value;
    assert [item][0] == item;
    AddLine(p, made.value, if last then None else Some(BreakFor(item, brTmpl)), lines);
    r := Ok(());
  }

  /** Rebuilds the runs and breaks of a paragraph that held several lines. */
  method Rebuild(p: Paragraph, items: seq<Item<Rec>>, tmpl: Option<Rec>, brTmpl: Option<Child>, rgb: Rgb,
                 ghost src: Run?)
    returns (r: Result<()>)
    requires Source(tmpl, src)
    requires items != [] && (brTmpl.Some? ==> brTmpl.value.Break?) && Buildable(items, tmpl)
    modifies p
    ensures r.Ok? <==> src != null || AllKeptItems(items)
    ensures r.Ok? ==> RealisedIn(LinesOf(p.children), ItemsElems(items), ToneFor(rgb, tmpl, src))
    ensures r.Ok? ==> BreaksOf(p.children) == BreaksFor(items, |items| - 1, brTmpl)
    ensures r.Ok? ==> forall k :: 0 <= k < |items| && items[k].Ellipsis? ==> fresh(RunsOf(LinesOf(p.children)[k]))
  {
    hide LinesOf, BreaksOf, InkedRun, ToneFor, ItemElems, BreakFor;
    ghost var tone := ToneFor(rgb, tmpl, src);
    p.children := [];
    LinesOfOne([]);
    NoBreaks();
    ghost var lines: seq<seq<Child>> := [];
    assert [[]] == lines + [[]];
    for k := 0 to |items|
      invariant |lines| == k && (src != null || forall h :: 0 <= h < k ==> items[h].Kept?)
      invariant LinesOf(p.children) == lines + if k < |items| then [[]] else []
      invariant BreaksOf(p.children) == BreaksFor(items, if k < |items| then k else k - 1, brTmpl)
      invariant forall h :: 0 <= h < k ==> Realises(lines[h], ItemElems(items[h]), tone)
      invariant forall h :: 0 <= h < k && items[h].Ellipsis? ==> fresh(RunsOf(lines[h]))
    {
      assert Buildable([items[k]], tmpl);
      var done;
      ghost var line;
      done, line := AddItem(p, items[k], k == |items| - 1, tmpl, brTmpl, rgb, src, lines);
      if done.Err? {
        return Err(done.message);
      }
      lines := lines + [line];
    }
    assert lines + [] == lines;
    r := Ok(());
  }

  /** `new` for one paragraph: what becomes of its lines. */
  method ItemsFor(recs: seq<Rec>, idx: seq<nat>, ghost lo: nat, ghost hi: nat, removed: set<int>, ell: map<int, string>)
    returns (items: seq<Item<Rec>>)
    requires lo <= hi <= |recs| && idx == seq(hi - lo, j => lo + j)
    ensures items == Plan(recs, lo, hi, removed, ell)
  {
    items := [];
    for j := 0 to |idx|
      invariant items == Plan(recs, lo, lo + j, removed, ell)
    {
      var i := idx[j];
      if i in ell {
        items := items + [Ellipsis(ell[i])];
      }
      if i !in removed {
        items := items + [Kept(recs[i])];
      }
    }
  }

  /** Where a line cannot be copied, a one-line paragraph can still be: if the template line
      has its paragraph to itself. */
  ghost predicate Makable(items: seq<Item<Rec>>, idx: seq<nat>, recs: seq<Rec>, tmpl: Option<Rec>, src: Run?) {
    || src != null || AllKeptItems(items)
    || (|idx| == 1 && |items| == 1 && tmpl.Some? && Alone(recs, tmpl.value.p))
  }

  /** What can become of a one-line paragraph: cuts insert only where they remove. */
  ghost predicate OneLineItems(items: seq<Item<Rec>>, rec: Rec) {
    items == [] || items == [Kept(rec)] || (|items| == 1 && items[0].Ellipsis?)
  }

  /** What one paragraph turns into: nothing, itself, or a new one-line paragraph. */
  method EditParagraph(p: Paragraph, recs: seq<Rec>, idx: seq<nat>, items: seq<Item<Rec>>, tmpl: Option<Rec>,
                       brTmpl: Option<Child>, rgb: Rgb, ghost src: Run?)
    returns (r: Result<seq<Paragraph>>)
    requires Source(tmpl, src) && AloneKept(recs, tmpl)
    requires (brTmpl.Some? ==> brTmpl.value.Break?) && Buildable(items, tmpl)
    requires idx != [] && forall j :: 0 <= j < |idx| ==> idx[j] < |recs|
    requires |idx| == 1 ==> LinesOf(p.children) == [recs[idx[0]].elems] && OneLineItems(items, recs[idx[0]])
    modifies p
    ensures r.Ok? <==> Makable(items, idx, recs, tmpl, src)
    ensures |idx| == 1 ==> p.children == old(p.children)
    ensures r.Ok? ==> r.value == [] || (|r.value| == 1 && (r.value[0] == p || fresh(r.value[0])))
    ensures r.Ok? && r.value == [] ==> items == []
    ensures r.Ok? && r.value != [] ==>
        RealisedIn(LinesOf(r.value[0].children), ItemsElems(items), ToneFor(rgb, tmpl, src))
    ensures r.Ok? && r.value != [] ==>
              forall k :: 0 <= k < |items| && items[k].Ellipsis? ==> fresh(RunsOf(LinesOf(r.value[0].children)[k]))
    ensures r.Ok? && r.value != [] ==>
              items != [] && BreaksOf(r.value[0].children) == BreaksFor(items, |items| - 1, brTmpl)
  {
    hide LinesOf, BreaksOf, Source, FormatOf;
    if |idx| == 1 && items == [Kept(recs[idx[0]])] {
      NoBreaksInLine(p.children);
      return Ok([p]);
    }
    if |idx| == 1 && items == [] {
      return Ok([]);
    }
    if |idx| == 1 && |items| == 1 && items[0].Ellipsis? {
      var alone := Alone(recs, tmpl.value.p);
      if alone { AloneFormat(tmpl.value); }
      var np := EllipsisParagraph(p, tmpl.value, alone, items[0].text, rgb, src);
      if np.Err? {
        return Err(np.message);
      }
      LinesOfOne(np.value.children);
      NoBreaksInLine(np.value.children);
      return Ok([np.value]);
    }
    if items == [] {
      return Ok([]);
    }
    var done := Rebuild(p, items, tmpl, brTmpl, rgb, src);
    r := if done.Err? then Err(done.message) else Ok([p]);
  }

  lemma {:induction false} BreaksAndLines(c: seq<Child>)
    ensures |LinesOf(c)| == |BreaksOf(c)| + 1
  {
    hide LinesOf;
    if c == [] {
      LinesOfOne([]);
    } else {
      var init, x := c[..|c| - 1], c[|c| - 1];
      BreaksAndLines(init);
      assert c == init + [x];
      if x.Break? { LinesBreak(init, x); } else { LinesExtend(init, [x]); }
    }
  }

  lemma NoBreaksInLine(c: seq<Child>)
    requires |LinesOf(c)| == 1
    ensures BreaksOf(c) == []
  {
    BreaksAndLines(c);
  }

  lemma AloneFormat(rec: Rec)
    requires rec.p.children == rec.elems
    ensures FirstFormat(rec.p) == FormatOf(rec.elems)
  {
  }

  ghost predicate CutsMatch(texts: seq<string>, cuts: seq<Cut>, isComment: string -> bool) {
    && Disjoint(cuts, |texts|)
    && forall k :: 0 <= k < |cuts| ==> CutMatches(texts, cuts[k], isComment)
  }

  /** The cut names the lines it means to cut, and inserts a comment if anything. */
  predicate CutMatches(texts: seq<string>, c: Cut, isComment: string -> bool)
    requires 1 <= c.from <= c.to <= |texts|
  {
    && Rstrip(texts[c.from - 1]) == Rstrip(c.first)
    && (c.last.Some? ==> Rstrip(texts[c.to - 1]) == Rstrip(c.last.value))
    && (c.ellipsis != "" ==> isComment(c.ellipsis))
  }

  lemma CutsMatchStep(texts: seq<string>, cuts: seq<Cut>, k: nat, isComment: string -> bool)
    requires k < |cuts| && CutsMatch(texts, cuts[..k], isComment)
    ensures var c := cuts[k];
            CutsMatch(texts, cuts[..k + 1], isComment) <==>
            (if k == 0 then 0 else cuts[k - 1].to) < c.from <= c.to <= |texts| && CutMatches(texts, c, isComment)
  {
    hide CutMatches;
    var now := cuts[..k + 1];
    assert now[k] == cuts[k] && forall h :: 0 <= h < k ==> now[h] == cuts[..k][h];
  }

  /** The loop that checks the cuts and collects what they remove and insert. */
  method ReadCuts(texts: seq<string>, cuts: seq<Cut>, isComment: string -> bool)
    returns (r: Result<(set<int>, map<int, string>)>)
    ensures r.Ok? <==> CutsMatch(texts, cuts, isComment)
    ensures r.Ok? ==> r.value == (Removed(cuts), Inserted(cuts))
  {
    hide CutMatches;
    var removed: set<int>, ell: map<int, string> := {}, map[];
    var lastEnd := 0;
    for k := 0 to |cuts|
      invariant lastEnd == if k == 0 then 0 else cuts[k - 1].to
      invariant CutsMatch(texts, cuts[..k], isComment)
      invariant removed == Removed(cuts[..k]) && ell == Inserted(cuts[..k])
    {
      hide CutsMatch;
      var c := cuts[k];
      CutsMatchStep(texts, cuts, k, isComment);
      if c.from <= lastEnd || c.to < c.from || |texts| < c.to {
        return Err("bad or overlapping range");
      }
      if !CutMatches(texts, c, isComment) {
        return Err("expected another line");
      }
      assert cuts[..k + 1][..k] == cuts[..k] && cuts[..k + 1][k] == c;
      removed := removed + Range(c);
      if c.ellipsis != "" {
        ell := ell[c.from - 1 := c.ellipsis];
      }
      lastEnd := c.to;
    }
    assert cuts[..|cuts|] == cuts;
    r := Ok((removed, ell));
  }

  /** A line with text, and something to show it. */
  ghost predicate HasLine(rec: Rec) {
    !Blank(rec.text) && rec.elems != []
  }

  predicate Wanted(rec: Rec, want: string -> bool) {
    !Blank(rec.text) && want(rec.text) && rec.elems != []
  }

  /** The first line with text that is wanted. */
  function FirstWhere(recs: seq<Rec>, want: string -> bool): (r: Option<Rec>)
    ensures r.None? ==> forall i :: 0 <= i < |recs| ==> !Wanted(recs[i], want)
    ensures r.Some? ==> exists i :: 0 <= i < |recs| && recs[i] == r.value && Wanted(recs[i], want)
                                    && forall h :: 0 <= h < i ==> !Wanted(recs[h], want)
  {
    if recs == [] then None
    else
      var before := FirstWhere(recs[..|recs| - 1], want);
      if before.Some? then before else if Wanted(recs[|recs| - 1], want) then Some(recs[|recs| - 1]) else None
  }

  /** The line to copy the format of an inserted line from: the first comment, or else the
      first line of code. */
  function TemplateLine(recs: seq<Rec>, isComment: string -> bool): (t: Option<Rec>)
    ensures t.None? ==> forall i :: 0 <= i < |recs| ==> !HasLine(recs[i])
    ensures t.Some? ==> HasLine(t.value)
    ensures t.Some? && isComment(t.value.text) ==>
              exists i :: 0 <= i < |recs| && recs[i] == t.value
                          && forall h :: 0 <= h < i && HasLine(recs[h]) ==> !isComment(recs[h].text)
    ensures t.Some? && !isComment(t.value.text) ==>
              exists i :: 0 <= i < |recs| && recs[i] == t.value && forall h :: 0 <= h < i ==> !HasLine(recs[h])
    ensures t.Some? && !isComment(t.value.text) ==>
              forall h :: 0 <= h < |recs| && HasLine(recs[h]) ==> !isComment(recs[h].text)
  {
    var comment := FirstWhere(recs, isComment);
    if comment.Some? then comment else FirstWhere(recs, t => !isComment(t))
  }

  function FirstBreak(recs: seq<Rec>): (b: Option<Child>)
    ensures b.None? <==> forall i :: 0 <= i < |recs| ==> recs[i].br.None?
    ensures b.Some? ==> exists i :: 0 <= i < |recs| && recs[i].br == b && forall h :: 0 <= h < i ==> recs[h].br.None?
  {
    if recs == [] then None else if recs[0].br.Some? then recs[0].br else FirstBreak(recs[1..])
  }

  lemma {:induction false} FirstBreakIsBreak(recs: seq<Rec>)
    requires forall i :: 0 <= i < |recs| ==> Shaped(recs[i])
    ensures FirstBreak(recs).Some? ==> FirstBreak(recs).value.Break?
  {
    if recs != [] { FirstBreakIsBreak(recs[1..]); }
  }

  lemma {:induction false} PlanBuildable(recs: seq<Rec>, lo: nat, hi: nat, drop: set<int>, ins: map<int, string>,
                                         tmpl: Option<Rec>)
    requires lo <= hi <= |recs| && forall i :: 0 <= i < |recs| ==> Shaped(recs[i])
    requires ins != map[] ==> tmpl.Some?
    ensures Buildable(Plan(recs, lo, hi, drop, ins), tmpl)
    decreases hi
  {
    if lo < hi { PlanBuildable(recs, lo, hi - 1, drop, ins, tmpl); }
  }

  /** The plan over records and the plan over their lines say the same. */
  lemma {:induction false} PlanElems(recs: seq<Rec>, lines: seq<seq<Child>>, lo: nat, hi: nat, drop: set<int>,
                                     ins: map<int, string>)
    requires lines == ElemsOf(recs) && lo <= hi <= |recs|
    ensures ItemsElems(Plan(recs, lo, hi, drop, ins)) == Plan(lines, lo, hi, drop, ins)
    decreases hi
  {
    if lo < hi {
      PlanElems(recs, lines, lo, hi - 1, drop, ins);
      var a, b := Plan(recs, lo, hi - 1, drop, ins), Contribution(recs, hi - 1, drop, ins);
      assert ItemsElems(a + b) == ItemsElems(a) + ItemsElems(b);
    }
  }

  /** ... and so does the plan over their texts. */
  lemma {:induction false} PlanTexts(recs: seq<Rec>, texts: seq<string>, lo: nat, hi: nat, drop: set<int>,
                                     ins: map<int, string>)
    requires |texts| == |recs| && forall i :: 0 <= i < |recs| ==> texts[i] == recs[i].text
    requires lo <= hi <= |recs|
    ensures var items, plain := Plan(recs, lo, hi, drop, ins), Plan(texts, lo, hi, drop, ins);
            && |items| == |plain|
            && forall i :: 0 <= i < |items| ==>
                 match items[i]
                 case Ellipsis(t) => plain[i] == Ellipsis(t)
                 case Kept(rec) => rec in recs && plain[i] == Kept(rec.text)
    decreases hi
  {
    if lo < hi { PlanTexts(recs, texts, lo, hi - 1, drop, ins); }
  }

  /** Lines made so far, what they should be, the runs the box had and the made lines' own. */
  datatype Work = Work(lines: seq<seq<Child>>, items: seq<Item<seq<Child>>>, tone: Tone, had: set<Run>, own: set<Run>)

  /** The lines made so far are what the plan says; the inserted ones use none of
      the runs the box had. */
  ghost predicate Made(w: Work)
    reads *
  {
    && RealisedIn(w.lines, w.items, w.tone)
    && (forall i :: 0 <= i < |w.lines| ==> RunsOf(w.lines[i]) <= w.own)
    && (forall i :: 0 <= i < |w.lines| && w.items[i].Ellipsis? ==> RunsOf(w.lines[i]) !! w.had)
  }

  ghost function Joined(a: Work, b: Work): Work {
    Work(a.lines + b.lines, a.items + b.items, a.tone, a.had, a.own + b.own)
  }

  lemma MadeAppend(a: Work, b: Work)
    requires Made(a) && Made(b) && a.tone == b.tone && a.had == b.had
    ensures Made(Joined(a, b))
  {
  }

  twostate lemma MadeStable(w: Work)
    requires old(Made(w))
    requires forall r :: r in w.own ==> r.text == old(r.text) && r.rgb == old(r.rgb)
    ensures Made(w)
  {
    forall i | 0 <= i < |w.lines| ensures Realises(w.lines[i], w.items[i], w.tone) {
      assert old(Realises(w.lines[i], w.items[i], w.tone));
      assert w.items[i].Ellipsis? ==> w.lines[i][0].run in RunsOf(w.lines[i]);
    }
  }

  /** The breaks of what a paragraph turns into, if anything is left of it. */
  ghost function PartBreaks(items: seq<Item<Rec>>, brTmpl: Option<Child>): seq<seq<Child>> {
    if items == [] then [] else [BreaksFor(items, |items| - 1, brTmpl)]
  }

  /** The breaks of the box's paragraphs, by the plan: in what is left of a paragraph every line
      but the last is ended by its own break or, where it has none, by a copy of the first. */
  ghost function PlannedBreaks(recs: seq<Rec>, groups: seq<seq<seq<Child>>>, n: nat, drop: set<int>,
                               ins: map<int, string>, brTmpl: Option<Child>): seq<seq<Child>>
    requires n <= |groups| && Base(groups, n) <= |recs|
  {
    if n == 0 then []
    else
      BaseAscends(groups, n - 1, n);
      PlannedBreaks(recs, groups, n - 1, drop, ins, brTmpl)
      + PartBreaks(Plan(recs, Base(groups, n - 1), Base(groups, n), drop, ins), brTmpl)
  }

  /** One paragraph, at position `at` of the box, replaced by what it turns into. */
  method EditAt(tx: TextBody, at: nat, p: Paragraph, recs: seq<Rec>, idx: seq<nat>, items: seq<Item<Rec>>,
                tmpl: Option<Rec>, brTmpl: Option<Child>, rgb: Rgb, ghost had: set<Run>, ghost src: Run?)
    returns (r: Result<bool>, ghost lines: seq<seq<Child>>, ghost own: set<Run>)
    requires Source(tmpl, src) && AloneKept(recs, tmpl) && idx == IndexesOf(recs, p)
    requires at < |tx.paras| && tx.paras[at] == p
    requires (brTmpl.Some? ==> brTmpl.value.Break?) && Buildable(items, tmpl)
    requires idx != [] && forall j :: 0 <= j < |idx| ==> idx[j] < |recs|
    requires |idx| == 1 ==> LinesOf(p.children) == [recs[idx[0]].elems] && OneLineItems(items, recs[idx[0]])
    modifies tx, p
    ensures (r.Ok? <==> Makable(items, idx, recs, tmpl, src)) && AloneKept(recs, tmpl)
    ensures r.Ok? ==> Made(Work(lines, ItemsElems(items), ToneFor(rgb, tmpl, src), had, own))
    ensures r.Ok? && r.value ==> |tx.paras| == |old(tx.paras)| && tx.paras == old(tx.paras)[at := tx.paras[at]]
    ensures r.Ok? && r.value ==> LinesOf(tx.paras[at].children) == lines && (tx.paras[at] == p || fresh(tx.paras[at]))
    ensures r.Ok? && r.value ==> [BreaksOf(tx.paras[at].children)] == PartBreaks(items, brTmpl)
    ensures r.Ok? && !r.value ==> lines == [] && PartBreaks(items, brTmpl) == [] && |tx.paras| == |old(tx.paras)| - 1
    ensures r.Ok? && !r.value ==> forall h :: 0 <= h < |tx.paras| ==>
        tx.paras[h] == old(tx.paras)[if h < at then h else h + 1]
  {
    hide LinesOf, Buildable, Source, Makable, ToneFor, OneLineItems, BreaksOf, IndexesOf;
    ghost var tone := ToneFor(rgb, tmpl, src);
    lines, own := [], {};
    var res := EditParagraph(p, recs, idx, items, tmpl, brTmpl, rgb, src);
    if res.Err? {
      return Err(res.message), [], {};
    }
    ghost var rest := ItemsElems(items);
    if res.value == [] {
      tx.paras := tx.paras[..at] + tx.paras[at + 1..];
      return Ok(false), [], {};
    }
    lines := LinesOf(res.value[0].children);
    assert forall i {:trigger lines[i]} :: 0 <= i < |lines| ==> Realises(lines[i], rest[i], tone);
    forall i | 0 <= i < |lines| && rest[i].Ellipsis? ensures RunsOf(lines[i]) !! had {
      assert items[i].Ellipsis?;
      assert forall x :: x in RunsOf(lines[i]) ==> fresh(x);
    }
    own := set i, x | 0 <= i < |lines| && x in RunsOf(lines[i]) :: x;
    tx.paras := tx.paras[at := res.value[0]];
    forall i | 0 <= i < |lines| ensures Realises(lines[i], rest[i], tone) {
      var line := lines[i];
    }
    r := Ok(true);
  }

  /** `ps` is the box during the loop: `at` finished paragraphs, then paras[k..]. */
  ghost predicate Placed(ps: seq<Paragraph>, at: nat, paras: seq<Paragraph>, k: nat) {
    && k <= |paras| && |ps| - at == |paras| - k
    && (forall h :: k <= h < |paras| ==> ps[at + h - k] == paras[h])
    && (forall h, j :: 0 <= h < at && k <= j < |paras| ==> ps[h] != paras[j])
  }

  lemma PlacedHere(ps: seq<Paragraph>, at: nat, paras: seq<Paragraph>, k: nat)
    requires Placed(ps, at, paras, k)
    ensures |ps| - at == |paras| - k
    ensures k < |paras| ==> ps[at] == paras[k] && forall h :: 0 <= h < at ==> ps[h] != paras[k]
  {
  }

  lemma PlacedKeep(ps: seq<Paragraph>, ps': seq<Paragraph>, at: nat, paras: seq<Paragraph>, k: nat)
    requires Placed(ps, at, paras, k) && k < |paras|
    requires forall h, h' :: 0 <= h < h' < |paras| ==> paras[h] != paras[h']
    requires |ps'| == |ps| && ps' == ps[at := ps'[at]] && (ps'[at] == paras[k] || ps'[at] !in paras)
    ensures Placed(ps', at + 1, paras, k + 1)
  {
  }

  lemma PlacedDrop(ps: seq<Paragraph>, ps': seq<Paragraph>, at: nat, paras: seq<Paragraph>, k: nat)
    requires Placed(ps, at, paras, k) && k < |paras|
    requires |ps'| == |ps| - 1 && forall h :: 0 <= h < |ps'| ==> ps'[h] == ps[if h < at then h else h + 1]
    ensures Placed(ps', at, paras, k + 1)
  {
  }

  /** The loop at paragraph k: the box, its finished part, its lines as they were, the lines made. */
  datatype Stage = Stage(ps: seq<Paragraph>, at: nat, paras: seq<Paragraph>, k: nat,
                         groups: seq<seq<seq<Child>>>, made: seq<seq<seq<Child>>>, ends: seq<seq<Child>>)

  /** The paragraphs still to come have the lines they had; the finished ones have
      `made`, parted by `ends`. */
  ghost predicate InStep(st: Stage)
    reads st.ps, st.paras
  {
    && Placed(st.ps, st.at, st.paras, st.k) && |st.groups| == |st.paras| && |st.made| == st.at <= |st.ps|
    && (forall h :: st.k <= h < |st.paras| ==> LinesOf(st.paras[h].children) == st.groups[h])
    && (forall h :: 0 <= h < st.at ==> LinesOf(st.ps[h].children) == st.made[h])
    && |st.ends| == st.at && (forall h :: 0 <= h < st.at ==> BreaksOf(st.ps[h].children) == st.ends[h])
  }

  /** Nothing but paragraph k changed. */
  twostate predicate OnlyChanged(st: Stage)
    requires st.k < |st.paras|
    reads st.ps, st.paras
  {
    && (forall h :: 0 <= h < |st.ps| && st.ps[h] != st.paras[st.k] ==> st.ps[h].children == old(st.ps[h].children))
    && (forall h :: 0 <= h < |st.paras| && st.paras[h] != st.paras[st.k] ==>
        st.paras[h].children == old(st.paras[h].children))
  }

  twostate lemma InStepKeep(st: Stage, new ps: seq<Paragraph>)
    requires old(InStep(st)) && st.k < |st.paras| && OnlyChanged(st) && st.at < |st.ps|
    requires forall h, h' :: 0 <= h < h' < |st.paras| ==> st.paras[h] != st.paras[h']
    requires |ps| == |st.ps| && ps == st.ps[st.at := ps[st.at]]
        && (ps[st.at] == st.paras[st.k] || ps[st.at] !in st.paras)
    ensures InStep(Stage(ps, st.at + 1, st.paras, st.k + 1, st.groups,
                         st.made + [LinesOf(ps[st.at].children)], st.ends + [BreaksOf(ps[st.at].children)]))
  {
    hide LinesOf, BreaksOf, Placed;
    PlacedHere(st.ps, st.at, st.paras, st.k);
    PlacedKeep(st.ps, ps, st.at, st.paras, st.k);
  }

  twostate lemma InStepDrop(st: Stage, new ps: seq<Paragraph>)
    requires old(InStep(st)) && st.k < |st.paras| && OnlyChanged(st)
    requires forall h, h' :: 0 <= h < h' < |st.paras| ==> st.paras[h] != st.paras[h']
    requires |ps| == |st.ps| - 1 && forall h :: 0 <= h < |ps| ==> ps[h] == st.ps[if h < st.at then h else h + 1]
    ensures InStep(Stage(ps, st.at, st.paras, st.k + 1, st.groups, st.made, st.ends))
  {
    hide LinesOf, BreaksOf, Placed;
    PlacedHere(st.ps, st.at, st.paras, st.k);
    PlacedDrop(st.ps, ps, st.at, st.paras, st.k);
  }

  lemma InStepHere(st: Stage)
    requires InStep(st) && st.k < |st.paras|
    ensures st.at < |st.ps| && st.ps[st.at] == st.paras[st.k]
    ensures |st.groups| == |st.paras| && st.groups[st.k] == LinesOf(st.paras[st.k].children)
  {
  }

  lemma {:induction false} PlanKept(recs: seq<Rec>, lo: nat, hi: nat, drop: set<int>, ins: map<int, string>)
    requires lo <= hi <= |recs|
    ensures AllKeptItems(Plan(recs, lo, hi, drop, ins)) <==> forall i :: lo <= i < hi ==> i !in ins
    decreases hi
  {
    if lo < hi {
      PlanKept(recs, lo, hi - 1, drop, ins);
      var a, b := Plan(recs, lo, hi - 1, drop, ins), Contribution(recs, hi - 1, drop, ins);
      hide Plan;
      KeptJoin(a, b);
      if hi - 1 in ins { assert b[0].Ellipsis?; }
    }
  }

  lemma KeptJoin(a: seq<Item<Rec>>, b: seq<Item<Rec>>)
    ensures AllKeptItems(a + b) <==> AllKeptItems(a) && AllKeptItems(b)
  {
    if AllKeptItems(a + b) {
      forall k | 0 <= k < |a| ensures a[k].Kept? { assert (a + b)[k] == a[k]; }
      forall k | 0 <= k < |b| ensures b[k].Kept? { assert (a + b)[|a| + k] == b[k]; }
    }
  }

  /** The line numbers of paragraph k and what becomes of those lines. */
  method ItemsOfParagraph(recs: seq<Rec>, paras: seq<Paragraph>, ghost groups: seq<seq<seq<Child>>>, k: nat,
                          removed: set<int>, ell: map<int, string>, ghost tmpl: Option<Rec>)
    returns (idx: seq<nat>, items: seq<Item<Rec>>)
    requires ell.Keys <= removed
    requires k < |paras| && forall h, h' :: 0 <= h < h' < |paras| ==> paras[h] != paras[h']
    requires ElemsOf(recs) == Concat(groups) && InParagraphs(recs, paras, groups, |paras|)
    requires groups[k] != [] && (ell != map[] ==> tmpl.Some?)
    requires forall i :: 0 <= i < |recs| ==> Shaped(recs[i])
    requires Base(groups, k) <= Base(groups, k + 1) <= |recs|
    ensures items == Plan(recs, Base(groups, k), Base(groups, k + 1), removed, ell) && Buildable(items, tmpl)
    ensures idx == IndexesOf(recs, paras[k]) && |idx| == Base(groups, k + 1) - Base(groups, k)
    ensures idx != [] ==> idx[0] == Base(groups, k)
    ensures AllKeptItems(items) <==> forall i :: Base(groups, k) <= i < Base(groups, k + 1) ==> i !in ell
    ensures forall i :: Base(groups, k) <= i < Base(groups, k + 1) ==> recs[i].p == paras[k]
    ensures idx != [] && forall j :: 0 <= j < |idx| ==> idx[j] < |recs|
    ensures |idx| == 1 ==> groups[k] == [recs[idx[0]].elems] && OneLineItems(items, recs[idx[0]])
  {
    RangeOfParagraph(recs, paras, groups, k);
    hide Concat, Plan, InParagraphs;
    ghost var lo, hi := Base(groups, k), Base(groups, k + 1);
    IndexesAreRange(recs, paras[k], lo, hi);
    idx := IndexesOf(recs, paras[k]);
    items := ItemsFor(recs, idx, lo, hi, removed, ell);
    PlanBuildable(recs, lo, hi, removed, ell, tmpl);
    PlanKept(recs, lo, hi, removed, ell);
    if hi == lo + 1 { PlanOne(recs, lo, removed, ell); }
    OneLineParagraph(recs, groups, k);
  }

  /** Each line inserted among lo..hi can be made: there is a run to copy, or both it and the
      template line have their paragraphs to themselves. */
  ghost predicate Copyable(recs: seq<Rec>, lo: int, hi: int, ell: map<int, string>, tmpl: Option<Rec>, src: Run?)
    requires 0 <= lo <= hi <= |recs|
  {
    src != null || forall i :: lo <= i < hi && i in ell ==>
        Alone(recs, recs[i].p) && tmpl.Some? && Alone(recs, tmpl.value.p)
  }

  lemma CopyableMore(recs: seq<Rec>, lo: nat, hi: nat, ell: map<int, string>, tmpl: Option<Rec>, src: Run?)
    requires lo <= hi <= |recs|
    ensures Copyable(recs, 0, hi, ell, tmpl, src) <==>
        Copyable(recs, 0, lo, ell, tmpl, src) && Copyable(recs, lo, hi, ell, tmpl, src)
    ensures Copyable(recs, 0, 0, ell, tmpl, src)
  {
  }

  lemma MakableMeans(recs: seq<Rec>, lo: nat, hi: nat, p: Paragraph, items: seq<Item<Rec>>, ell: map<int, string>,
                     tmpl: Option<Rec>, src: Run?)
    requires lo < hi <= |recs| && |IndexesOf(recs, p)| == hi - lo && forall i :: lo <= i < hi ==> recs[i].p == p
    requires AllKeptItems(items) <==> forall i :: lo <= i < hi ==> i !in ell
    requires hi == lo + 1 ==> OneLineItems(items, recs[lo])
    ensures Makable(items, IndexesOf(recs, p), recs, tmpl, src) <==> Copyable(recs, lo, hi, ell, tmpl, src)
  {
    hide IndexesOf;
    if hi == lo + 1 && lo in ell { assert items != []; }
  }

  /** One step of the loop over paragraphs. */
  method EditNext(tx: TextBody, at: nat, paras: seq<Paragraph>, k: nat, recs: seq<Rec>, removed: set<int>,
                  ell: map<int, string>, tmpl: Option<Rec>, brTmpl: Option<Child>, rgb: Rgb,
                  ghost st: Stage, ghost w: Work, ghost src: Run?)
    returns (r: Result<nat>, ghost st': Stage, ghost w': Work)
    requires Source(tmpl, src) && AloneKept(recs, tmpl) && ell.Keys <= removed
    requires k < |paras| && forall h, h' :: 0 <= h < h' < |paras| ==> paras[h] != paras[h']
    requires st == Stage(tx.paras, at, paras, k, st.groups, st.made, st.ends) && InStep(st)
    requires w.lines == Concat(st.made) && w.tone == ToneFor(rgb, tmpl, src) && Made(w)
    requires ElemsOf(recs) == Concat(st.groups) && InParagraphs(recs, paras, st.groups, |paras|)
    requires forall i :: 0 <= i < |recs| ==> Shaped(recs[i])
    requires (brTmpl.Some? ==> brTmpl.value.Break?) && (ell != map[] ==> tmpl.Some?)
    requires Base(st.groups, k) <= Base(st.groups, k + 1) <= |recs|
    modifies tx, paras[k]
    ensures r.Ok? <==> Copyable(recs, Base(st.groups, k), Base(st.groups, k + 1), ell, tmpl, src)
    ensures AloneKept(recs, tmpl)
    ensures r.Ok? ==> st' == Stage(tx.paras, r.value, paras, k + 1, st.groups, st'.made, st'.ends) && InStep(st')
    ensures r.Ok? ==>
      st'.ends == st.ends + PartBreaks(Plan(recs, Base(st.groups, k), Base(st.groups, k + 1), removed, ell), brTmpl)
    ensures r.Ok? ==> w'.lines == Concat(st'.made) && w'.tone == w.tone && w'.had == w.had && Made(w')
    ensures r.Ok? ==>
      w'.items == w.items + ItemsElems(Plan(recs, Base(st.groups, k), Base(st.groups, k + 1), removed, ell))
  {
    hide LinesOf, Concat, Plan, Base, InParagraphs, ItemsElems, Made, Shaped, Placed, InStep, Buildable, AllKeptItems;
    hide ElemsOf, ToneFor, Makable, Copyable, OneLineItems, IndexesOf, InkedRun, BreaksOf, PartBreaks;
    InStepHere(st);
    var idx, items := ItemsOfParagraph(recs, paras, st.groups, k, removed, ell, tmpl);
    MakableMeans(recs, Base(st.groups, k), Base(st.groups, k + 1), paras[k], items, ell, tmpl, src);
    var kept, lines, own := EditAt(tx, at, paras[k], recs, idx, items, tmpl, brTmpl, rgb, w.had, src);
    if kept.Err? {
      return Err(kept.message), st, w;
    }
    MadeStable(w);
    ghost var more := Work(lines, ItemsElems(items), w.tone, w.had, own);
    MadeAppend(w, more);
    w' := Joined(w, more);
    if kept.value {
      InStepKeep(st, tx.paras);
      MadeNext(st.made, lines);
      st' := Stage(tx.paras, at + 1, paras, k + 1, st.groups, st.made + [lines],
                   st.ends + [BreaksOf(tx.paras[at].children)]);
      r := Ok(at + 1);
    } else {
      InStepDrop(st, tx.paras);
      st' := Stage(tx.paras, at, paras, k + 1, st.groups, st.made, st.ends);
      assert st.ends + [] == st.ends;
      r := Ok(at);
    }
  }

  /** The loop over paragraphs. */
  method EditParagraphs(tx: TextBody, recs: seq<Rec>, removed: set<int>, ell: map<int, string>, tmpl: Option<Rec>,
                        brTmpl: Option<Child>, rgb: Rgb, ghost had: set<Run>, ghost src: Run?)
    returns (r: Result<()>, ghost w: Work)
    requires Source(tmpl, src) && AloneKept(recs, tmpl) && ell.Keys <= removed
    requires forall h, h' :: 0 <= h < h' < |tx.paras| ==> tx.paras[h] != tx.paras[h']
    requires ElemsOf(recs) == BoxLines(tx.paras) && InParagraphs(recs, tx.paras, Groups(tx.paras), |tx.paras|)
    requires forall i :: 0 <= i < |recs| ==> Shaped(recs[i])
    requires (brTmpl.Some? ==> brTmpl.value.Break?) && (ell != map[] ==> tmpl.Some?)
    modifies tx, tx.paras
    ensures r.Ok? <==> Copyable(recs, 0, |recs|, ell, tmpl, src)
    ensures r.Ok? ==> w.lines == BoxLines(tx.paras) && w.tone == ToneFor(rgb, tmpl, src) && w.had == had && Made(w)
    ensures r.Ok? ==> w.items == ItemsElems(Plan(recs, 0, |recs|, removed, ell))
    ensures r.Ok? ==>
      BreaksOfEach(tx.paras) == PlannedBreaks(recs, old(Groups(tx.paras)), |old(tx.paras)|, removed, ell, brTmpl)
  {
    hide LinesOf, Concat, Plan, Base, InParagraphs, ItemsElems, Made, Shaped, Placed, InStep, Groups, BoxLines;
    hide ToneFor, Alone, InkedRun, Copyable, BreaksOf, PartBreaks, PlannedBreaks, BreaksOfEach;
    var paras := tx.paras;
    ghost var groups := Groups(paras);
    ghost var st := Stage(paras, 0, paras, 0, groups, [], []);
    var at := 0;
    w := Work([], [], ToneFor(rgb, tmpl, src), had, {});
    PlanStart(recs, groups, removed, ell);
    CopyableMore(recs, 0, 0, ell, tmpl, src);
    StepsStart(st, recs, w);
    NoPlannedBreaks(recs, groups, removed, ell, brTmpl);
    for k := 0 to |paras|
      invariant Base(groups, k) <= |recs|
      invariant st == Stage(tx.paras, at, paras, k, groups, st.made, st.ends) && InStep(st)
      invariant st.ends == PlannedBreaks(recs, groups, k, removed, ell, brTmpl)
      invariant w.lines == Concat(st.made) && w.tone == ToneFor(rgb, tmpl, src) && w.had == had && Made(w)
      invariant AloneKept(recs, tmpl) && Copyable(recs, 0, Base(groups, k), ell, tmpl, src)
      invariant w.items == ItemsElems(Plan(recs, 0, Base(groups, k), removed, ell))
    {
      BaseAscends(groups, k, k + 1);
      BaseAscends(groups, k + 1, |paras|);
      ghost var items := Plan(recs, Base(groups, k), Base(groups, k + 1), removed, ell);
      PlanNext(recs, Base(groups, k), Base(groups, k + 1), items, removed, ell);
      BreaksNext(recs, groups, k, removed, ell, brTmpl);
      var next;
      next, st, w := EditNext(tx, at, paras, k, recs, removed, ell, tmpl, brTmpl, rgb, st, w, src);
      if next.Err? {
        CopyableMore(recs, Base(groups, k), Base(groups, k + 1), ell, tmpl, src);
        CopyableMore(recs, Base(groups, k + 1), |recs|, ell, tmpl, src);
        return Err(next.message), w;
      }
      CopyableMore(recs, Base(groups, k), Base(groups, k + 1), ell, tmpl, src);
      at := next.value;
    }
    StepsDone(st);
    r := Ok(());
  }

  lemma NoPlannedBreaks(recs: seq<Rec>, groups: seq<seq<seq<Child>>>, drop: set<int>, ins: map<int, string>,
                        brTmpl: Option<Child>)
    requires Base(groups, 0) <= |recs|
    ensures PlannedBreaks(recs, groups, 0, drop, ins, brTmpl) == []
  {
  }

  lemma BreaksNext(recs: seq<Rec>, groups: seq<seq<seq<Child>>>, k: nat, drop: set<int>, ins: map<int, string>,
                   brTmpl: Option<Child>)
    requires k < |groups| && Base(groups, k) <= Base(groups, k + 1) <= |recs|
    ensures PlannedBreaks(recs, groups, k + 1, drop, ins, brTmpl)
         == PlannedBreaks(recs, groups, k, drop, ins, brTmpl)
            + PartBreaks(Plan(recs, Base(groups, k), Base(groups, k + 1), drop, ins), brTmpl)
  {
  }

  lemma StepsStart(st: Stage, recs: seq<Rec>, w: Work)
    requires st == Stage(st.paras, 0, st.paras, 0, Groups(st.paras), [], []) && ElemsOf(recs) == BoxLines(st.paras)
    requires w.lines == [] && w.items == []
    ensures InStep(st) && Made(w) && |st.groups| == |st.paras| && Base(st.groups, |st.paras|) == |recs|
    ensures ElemsOf(recs) == Concat(st.groups)
  {
    hide LinesOf, Concat;
    assert st.groups[..|st.paras|] == st.groups;
  }

  lemma StepsDone(st: Stage)
    requires InStep(st) && st.k == |st.paras|
    ensures BoxLines(st.ps) == Concat(st.made) && BreaksOfEach(st.ps) == st.ends
  {
    PlacedHere(st.ps, st.at, st.paras, st.k);
    hide LinesOf, Concat;
    assert Groups(st.ps) == st.made;
  }

  lemma MadeNext(made: seq<seq<seq<Child>>>, lines: seq<seq<Child>>)
    ensures Concat(made + [lines]) == Concat(made) + lines
  {
  }

  lemma PlanNext(recs: seq<Rec>, lo: nat, hi: nat, items: seq<Item<Rec>>, removed: set<int>, ell: map<int, string>)
    requires lo <= hi <= |recs| && items == Plan(recs, lo, hi, removed, ell)
    ensures ItemsElems(Plan(recs, 0, hi, removed, ell))
        == ItemsElems(Plan(recs, 0, lo, removed, ell)) + ItemsElems(items)
  {
    hide Plan;
    PlanSplit(recs, 0, lo, hi, removed, ell);
  }

  lemma PlanStart(recs: seq<Rec>, groups: seq<seq<seq<Child>>>, removed: set<int>, ell: map<int, string>)
    ensures Base(groups, 0) == 0 && ItemsElems(Plan(recs, 0, 0, removed, ell)) == []
    ensures Concat<seq<Child>>([]) == []
  {
  }

  lemma OneLineParagraph(recs: seq<Rec>, groups: seq<seq<seq<Child>>>, k: nat)
    requires k < |groups| && ElemsOf(recs) == Concat(groups)
    ensures Base(groups, k + 1) == Base(groups, k) + |groups[k]| <= |recs|
    ensures |groups[k]| == 1 ==> groups[k] == [recs[Base(groups, k)].elems]
  {
    ConcatStep(groups, k);
    BaseAscends(groups, k + 1, |groups|);
    assert groups[..|groups|] == groups;
    ConcatPrefix(groups, k + 1, |groups|);
    assert ElemsOf(recs)[Base(groups, k)..Base(groups, k + 1)] == groups[k];
  }

  lemma {:induction false} ConcatPrefix<T>(groups: seq<seq<T>>, k: nat, k': nat)
    requires k <= k' <= |groups|
    ensures Concat(groups[..k]) <= Concat(groups[..k'])
    decreases k'
  {
    if k < k' {
      ConcatPrefix(groups, k, k' - 1);
      ConcatStep(groups, k' - 1);
    }
  }

  ghost predicate TextsAre(lines: seq<seq<Child>>, texts: seq<string>)
    reads *
  {
    |texts| == |lines| && forall i :: 0 <= i < |lines| ==> LineText(lines[i]) == texts[i]
  }

  /** `lines` are the items: surviving lines with exactly their own elements,
      inserted lines one run each, of none of the runs in `had`. */
  ghost predicate Excerpt(lines: seq<seq<Child>>, items: seq<Item<seq<Child>>>, tone: Tone, had: set<Run>)
    reads *
  {
    && RealisedIn(lines, items, tone)
    && forall i :: 0 <= i < |lines| && items[i].Ellipsis? ==> RunsOf(lines[i]) !! had
  }

  ghost function LineRuns(lines: seq<seq<Child>>): set<Run> {
    set i, x | 0 <= i < |lines| && x in RunsOf(lines[i]) :: x
  }

  lemma SplicedTexts(lines: seq<seq<Child>>, recs: seq<Rec>, items: seq<Item<Rec>>, plain: seq<Item<string>>,
                     tone: Tone)
    requires RealisedIn(lines, ItemsElems(items), tone) && |plain| == |items|
    requires forall i :: 0 <= i < |recs| ==> LineText(recs[i].elems) == recs[i].text
    requires forall i :: 0 <= i < |items| ==>
               match items[i]
               case Ellipsis(t) => plain[i] == Ellipsis(t)
               case Kept(rec) => rec in recs && plain[i] == Kept(rec.text)
    ensures TextsAre(lines, ItemTexts(plain))
  {
  }

  /** What the op reads before it changes anything. */
  datatype Reading = Reading(recs: seq<Rec>, removed: set<int>, ell: map<int, string>, tmpl: Option<Rec>,
                             br: Option<Child>)

  ghost predicate AllReadable(paras: seq<Paragraph>)
    reads *
  {
    forall k :: 0 <= k < |paras| ==> Readable(paras[k].children)
  }

  /** `tmpl`, and the run of it to copy. */
  method Template(recs: seq<Rec>, isComment: string -> bool) returns (tmpl: Option<Rec>, ghost src: Run?)
    requires forall i :: 0 <= i < |recs| ==> WellRead(recs[i])
    ensures tmpl == TemplateLine(recs, isComment) && Source(tmpl, src)
    ensures tmpl.Some? <==> exists i :: 0 <= i < |recs| && !Blank(recs[i].text)
    ensures tmpl.Some? ==> tmpl.value in recs && !Blank(tmpl.value.text)
  {
    hide InkedRun;
    var comment := FirstWhere(recs, isComment);
    var code := FirstWhere(recs, t => !isComment(t));
    forall i | 0 <= i < |recs| && !Blank(recs[i].text)
      ensures Wanted(recs[i], isComment) || Wanted(recs[i], t => !isComment(t))
    {
      assert WellRead(recs[i]);
    }
    tmpl := if comment.Some? then comment else code;
    src := null;
    if tmpl.Some? && InkedRun(tmpl.value.elems).Some? {
      src := InkedRun(tmpl.value.elems).value;
    }
  }

  /** A line with text and no field has a run to copy. */
  lemma {:induction false} TextFromRun(line: seq<Child>)
    requires NoBreak(line) && NoFields(line) && !Blank(LineText(line))
    ensures InkedRun(line).Some?
  {
    assert line != [];
    var init, last := line[..|line| - 1], line[|line| - 1];
    BlankAppend(LineText(init), ChildText(last));
    assert last.RunChild?;
    if Blank(ChildText(last)) { TextFromRun(init); }
  }

  /** The records of the box as they are, with their texts. */
  ghost predicate RecordsOf(recs: seq<Rec>, paras: seq<Paragraph>, texts: seq<string>)
    reads *
  {
    && ElemsOf(recs) == BoxLines(paras) && InParagraphs(recs, paras, Groups(paras), |paras|)
    && BrsOf(recs) == Concat(EndsOfEach(paras)) && TextsAre(BoxLines(paras), texts) && |texts| == |recs|
    && forall i :: 0 <= i < |recs| ==> WellRead(recs[i]) && recs[i].text == texts[i]
  }

  /** The records with their texts, and the template line. */
  method ReadRecords(paras: seq<Paragraph>, isComment: string -> bool)
    returns (r: Result<seq<Rec>>, texts: seq<string>, tmpl: Option<Rec>, ghost src: Run?)
    ensures r.Ok? <==> AllReadable(paras)
    ensures r.Ok? ==> RecordsOf(r.value, paras, texts) && tmpl == TemplateLine(r.value, isComment)
    ensures Source(tmpl, src) && (r.Ok? ==> (tmpl.Some? <==> HasText(texts)) && (tmpl.Some? ==> tmpl.value in r.value))
  {
    hide Concat, LinesOf, LineText, InParagraphs, Base, RunsOf, Readable, TemplateLine;
    texts, tmpl, src := [], None, null;
    r := LineRecords(paras);
    if r.Ok? {
      var recs := r.value;
      assert forall i :: 0 <= i < |recs| ==> WellRead(recs[i]) && ElemsOf(recs)[i] == recs[i].elems;
      texts := seq(|recs|, i requires 0 <= i < |recs| => recs[i].text);
      tmpl, src := Template(recs, isComment);
      assert forall i :: 0 <= i < |recs| ==> texts[i] == recs[i].text;
    }
  }

  /** The checks of the cuts, and what the op then knows of the box. */
  method ReadBox(paras: seq<Paragraph>, cuts: seq<Cut>, isComment: string -> bool)
    returns (r: Result<Reading>, texts: seq<string>, ghost src: Run?, ghost recs: seq<Rec>)
    ensures AllReadable(paras) ==> RecordsOf(recs, paras, texts)
    ensures r.Ok? <==> AllReadable(paras) && cuts != [] && CutsMatch(texts, SortedCuts(cuts), isComment)
                       && (Inserted(SortedCuts(cuts)) != map[] ==> HasText(texts))
    ensures r.Ok? ==> var d := r.value;
                      && d.recs == recs && d.tmpl == TemplateLine(recs, isComment) && Source(d.tmpl, src)
                      && d.removed == Removed(SortedCuts(cuts)) && d.ell == Inserted(SortedCuts(cuts))
                      && d.br == FirstBreak(recs) && (d.br.Some? ==> d.br.value.Break?)
                          && (d.ell != map[] ==> d.tmpl.Some?)
                      && (d.tmpl.Some? ==> d.tmpl.value in recs)
  {
    hide Concat, LinesOf, LineText, InParagraphs, Base, CutsMatch, Removed, Inserted, SortedCuts, RunsOf, FirstBreak;
    hide AllReadable, TextsAre, HasText, BoxLines, TemplateLine, ElemsOf;
    var found, tmpl;
    found, texts, tmpl, src := ReadRecords(paras, isComment);
    recs := [];
    if found.Err? {
      return Err(found.message), texts, src, recs;
    }
    recs := found.value;
    label L:
    var checked := ReadCuts(texts, SortedCuts(cuts), isComment);
    if cuts == [] || checked.Err? {
      return Err("no cuts, or a cut does not match"), texts, src, recs;
    }
    var (removed, ell) := checked.value;
    if ell != map[] && tmpl.None? {
      return Err("no line to copy the ellipsis format from"), texts, src, recs;
    }
    assert forall i :: 0 <= i < |found.value| ==> Shaped(found.value[i]);
    FirstBreakIsBreak(found.value);
    r := Ok(Reading(found.value, removed, ell, tmpl, FirstBreak(found.value)));
  }

  /** Cuts that can be made: they match and leave a line, and every inserted line has a format
      to copy. */
  ghost predicate Cuttable(recs: seq<Rec>, texts: seq<string>, cuts: seq<Cut>, isComment: string -> bool)
    reads *
  {
    && cuts != [] && CutsMatch(texts, SortedCuts(cuts), isComment)
    && SliceAssign(AllKept(texts), SortedCuts(cuts)) != []
    && (Inserted(SortedCuts(cuts)) != map[] ==> HasText(texts))
    && CanCopy(recs, Inserted(SortedCuts(cuts)), isComment)
  }

  /** The template line has a run with text, or it and each line that is replaced have their
      paragraphs to themselves. */
  ghost predicate CanCopy(recs: seq<Rec>, ell: map<int, string>, isComment: string -> bool)
    reads *
  {
    var tmpl := TemplateLine(recs, isComment);
    || (tmpl.Some? && InkedRun(tmpl.value.elems).Some?)
    || forall i :: 0 <= i < |recs| && i in ell ==> Alone(recs, recs[i].p) && tmpl.Some? && Alone(recs, tmpl.value.p)
  }

  /** In a box without fields it has such a run, if any line has text. */
  lemma FieldlessCopies(recs: seq<Rec>, paras: seq<Paragraph>, texts: seq<string>, ell: map<int, string>,
                        isComment: string -> bool)
    requires RecordsOf(recs, paras, texts) && forall i :: 0 <= i < |recs| ==> NoFields(recs[i].elems)
    requires HasText(texts)
    ensures CanCopy(recs, ell, isComment)
  {
    hide InkedRun, LineText, Concat, LinesOf, InParagraphs;
    var i :| 0 <= i < |texts| && !Blank(texts[i]);
    assert WellRead(recs[i]);
    assert Wanted(recs[i], isComment) || Wanted(recs[i], t => !isComment(t)) by { NoText(); }
    var tmpl := TemplateLine(recs, isComment);
    assert WellRead(tmpl.value);
    TextFromRun(tmpl.value.elems);
  }

  lemma NoText()
    ensures LineText([]) == ""
  {
  }

  /** A line that has its paragraph to itself is all it holds. */
  lemma AloneHolds(recs: seq<Rec>, paras: seq<Paragraph>, i: nat)
    requires ElemsOf(recs) == BoxLines(paras) && InParagraphs(recs, paras, Groups(paras), |paras|) && i < |recs|
    requires forall h, h' :: 0 <= h < h' < |paras| ==> paras[h] != paras[h']
    requires Alone(recs, recs[i].p)
    ensures recs[i].p.children == recs[i].elems
  {
    hide Concat, LinesOf;
    var groups := Groups(paras);
    var k := Holder(groups, |paras|, i);
    RangeOfParagraph(recs, paras, groups, k);
    IndexesAreRange(recs, paras[k], Base(groups, k), Base(groups, k + 1));
    OneLineParagraph(recs, groups, k);
    OneLineAll(paras[k].children);
  }

  lemma {:induction false} OneLineAll(c: seq<Child>)
    ensures |LinesOf(c)| == 1 ==> LinesOf(c) == [c]
  {
    if c != [] {
      OneLineAll(c[1..]);
      assert c == [c[0]] + c[1..];
    }
  }

  /** A box with a paragraph has a line. */
  lemma NoParagraphs(ps: seq<Paragraph>)
    ensures ps == [] <==> BoxLines(ps) == []
  {
    if ps != [] {
      hide LinesOf;
      ConcatStep(Groups(ps), |ps| - 1);
      assert Groups(ps)[..|ps|] == Groups(ps);
    }
  }

  lemma InsertsWhereRemoves(cuts: seq<Cut>, n: nat)
    requires Disjoint(cuts, n)
    ensures Inserted(cuts).Keys <= Removed(cuts) && forall i :: i in Inserted(cuts) ==> 0 <= i < n
  {
    forall i | i in Inserted(cuts) ensures i in Removed(cuts) && 0 <= i < n {
      InsertedInside(cuts, n, i);
      var k :| 0 <= k < |cuts| && i == cuts[k].from - 1;
      assert Covers(cuts[k], i);
      RemovedMeans(cuts, i);
    }
  }

  /** The box's lines before, as records with their paragraphs and texts. */
  ghost predicate RecordsWere(recs: seq<Rec>, texts: seq<string>, lines: seq<seq<Child>>, paras: seq<Paragraph>,
                              groups: seq<seq<seq<Child>>>, ends: seq<seq<Option<Child>>>)
    reads *
  {
    && ElemsOf(recs) == lines && BrsOf(recs) == Concat(ends)
    && InParagraphs(recs, paras, groups, |paras|) && TextsAre(lines, texts)
    && |texts| == |recs| && forall i :: 0 <= i < |recs| ==> recs[i].text == texts[i]
  }

  /** Every inserted line is one run in the colour asked for, and in the house colour if none is: the
      checker then has nothing to report on it. */
  ghost predicate InsertsComments(lines: seq<seq<Child>>, items: seq<Item<seq<Child>>>, given: Option<string>,
                                  isComment: string -> bool)
    reads *
  {
    && |lines| == |items|
    && forall i :: 0 <= i < |items| && items[i].Ellipsis? ==> InsertedComment(lines[i], given, isComment)
  }

  ghost predicate InsertedComment(line: seq<Child>, given: Option<string>, isComment: string -> bool)
    reads *
  {
    && |line| == 1 && line[0].RunChild? && isComment(line[0].run.text)
    && line[0].run.rgb.Some? && Asked(given, line[0].run.rgb.value, COMMENT_RGB)
    && (given.None? ==> Colours.Hits([Colours.Seg(line[0].run.text, line[0].run.rgb)],
                                     Colours.Rule(CODE_RGB, COMMENT_RGB, false, isComment)) == {})
  }

  lemma {:induction false} InsertedAre<L>(lines: seq<Item<L>>, cuts: seq<Cut>, i: nat)
    requires Disjoint(cuts, |lines|) && i < |SliceAssign(lines, cuts)| && SliceAssign(lines, cuts)[i].Ellipsis?
    requires forall h :: 0 <= h < |lines| ==> lines[h].Kept?
    ensures exists k :: 0 <= k < |cuts| && cuts[k].ellipsis == SliceAssign(lines, cuts)[i].text != ""
  {
    if cuts != [] {
      var m := |cuts| - 1;
      RestDisjoint(cuts, |lines|);
      var head := SliceAssign(lines[..cuts[m].from - 1], cuts[..m]);
      if i < |head| {
        InsertedAre(lines[..cuts[m].from - 1], cuts[..m], i);
        var k :| 0 <= k < m && cuts[..m][k].ellipsis == head[i].text;
        assert cuts[k] == cuts[..m][k];
      } else {
        assert cuts[m].ellipsis == SliceAssign(lines, cuts)[i].text;
      }
    }
  }

  /** A comment in the house colour is clean. */
  lemma CommentClean(text: string, isComment: string -> bool)
    requires isComment(text)
    ensures Colours.Hits([Colours.Seg(text, Some(COMMENT_RGB))],
                         Colours.Rule(CODE_RGB, COMMENT_RGB, false, isComment)) == {}
  {
    var line, r := [Colours.Seg(text, Some(COMMENT_RGB))], Colours.Rule(CODE_RGB, COMMENT_RGB, false, isComment);
    assert line[..0] == [] && Colours.JoinText([]) == "";
    assert Colours.JoinText(line) == text;
    Colours.HitsLast(line, true, r);
  }

  lemma InsertsTone(lines: seq<seq<Child>>, was: seq<seq<Child>>, sorted: seq<Cut>, given: Option<string>,
                    isComment: string -> bool, tone: Tone, had: set<Run>)
    requires Disjoint(sorted, |AllKept(was)|) && RgbOk(given) && tone.rgb == InsertRgb(given)
    requires Excerpt(lines, SliceAssign(AllKept(was), sorted), tone, had)
    requires forall k :: 0 <= k < |sorted| && sorted[k].ellipsis != "" ==> isComment(sorted[k].ellipsis)
    ensures InsertsComments(lines, SliceAssign(AllKept(was), sorted), given, isComment)
  {
    hide SliceAssign, Upper, InsertedComment, InsertRgb, RgbOk, Disjoint, LineRuns;
    var items := SliceAssign(AllKept(was), sorted);
    forall i | 0 <= i < |items| && items[i].Ellipsis? ensures InsertedComment(lines[i], given, isComment) {
      InsertedAre(AllKept(was), sorted, i);
      assert Realises(lines[i], items[i], tone);
      InsertedTone(lines[i], items[i].text, given, isComment, tone);
    }
  }

  lemma InsertedTone(line: seq<Child>, text: string, given: Option<string>, isComment: string -> bool, tone: Tone)
    requires RgbOk(given) && tone.rgb == InsertRgb(given) && isComment(text) && IsCommentLine(line, text, tone)
    ensures InsertedComment(line, given, isComment)
  {
    hide Upper, Colours.Hits;
    if given.Some? { UpperMeans(given.value); }
    CommentClean(text, isComment);
  }

  lemma MatchedAsk(texts: seq<string>, sorted: seq<Cut>, isComment: string -> bool)
    requires CutsMatch(texts, sorted, isComment)
    ensures forall k :: 0 <= k < |sorted| && sorted[k].ellipsis != "" ==> isComment(sorted[k].ellipsis)
  {
    forall k | 0 <= k < |sorted| && sorted[k].ellipsis != "" ensures isComment(sorted[k].ellipsis) {
      assert CutMatches(texts, sorted[k], isComment);
    }
  }

  /** The colour of inserted comments. */
  function InsertRgb(commentRgb: Option<string>): Rgb {
    if commentRgb.Some? then Upper(commentRgb.value) else COMMENT_RGB
  }

  ghost function CutTone(commentRgb: Option<string>, recs: seq<Rec>, isComment: string -> bool): Tone
    reads *
  {
    var tmpl := TemplateLine(recs, isComment);
    var src := if tmpl.Some? then InkedRun(tmpl.value.elems) else None;
    Tone(InsertRgb(commentRgb),
         (if src.None? then {} else {src.value.format}) + if tmpl.None? then {} else {FormatOf(tmpl.value.elems)})
  }

  /** The op. `fits` is the verdict of the capacity check on the edited box.

      It succeeds exactly when the cuts name the lines they cut and can be made, the colour asked
      for is one and the result fits. The box's lines are then the old lines spliced: every
      surviving line has exactly its own runs and fields and, unless it is its paragraph's last,
      its own break; every inserted line is one new run with the comment in the colour asked for, or
      else in the house colour, and a format of the first comment line, or else of the first code
      line; and the texts are those of the flat splice of the same cuts. */
  method CutCode(tx: TextBody, cuts: seq<Cut>, commentRgb: Option<string>, isComment: string -> bool, fits: bool)
    returns (r: Result<()>, ghost texts: seq<string>, ghost recs: seq<Rec>)
    requires forall h, h' :: 0 <= h < h' < |tx.paras| ==> tx.paras[h] != tx.paras[h']
    modifies tx, tx.paras
    ensures old(AllReadable(tx.paras)) ==>
              RecordsWere(recs, texts, old(BoxLines(tx.paras)), old(tx.paras), old(Groups(tx.paras)),
                          old(EndsOfEach(tx.paras)))
    ensures r.Ok? <==> old(AllReadable(tx.paras)) && Cuttable(recs, texts, cuts, isComment) && RgbOk(commentRgb) && fits
    ensures r.Ok? ==> Excerpt(BoxLines(tx.paras), SliceAssign(AllKept(old(BoxLines(tx.paras))), SortedCuts(cuts)),
                              CutTone(commentRgb, recs, isComment), LineRuns(old(BoxLines(tx.paras))))
    ensures r.Ok? ==> InsertsComments(BoxLines(tx.paras), SliceAssign(AllKept(old(BoxLines(tx.paras))),
                                        SortedCuts(cuts)), commentRgb, isComment)
    ensures r.Ok? ==> TextsAre(BoxLines(tx.paras), ItemTexts(SliceAssign(AllKept(texts), SortedCuts(cuts))))
    ensures r.Ok? ==> InParagraphs(recs, old(tx.paras), old(Groups(tx.paras)), |old(tx.paras)|)
    ensures r.Ok? ==> BreaksOfEach(tx.paras) == PlannedBreaks(recs, old(Groups(tx.paras)), |old(tx.paras)|,
                        Removed(SortedCuts(cuts)), Inserted(SortedCuts(cuts)), FirstBreak(recs))
  {
    hide Concat, LinesOf, Plan, SliceAssign, LineText, InParagraphs, Base, CutsMatch, Removed, Inserted, SortedCuts;
    hide Made, Shaped, CanCopy, HasText, Copyable, ToneFor, CutTone, InsertRgb, RgbOk, TemplateLine, BoxLines, LineRuns;
    hide InkedRun, AllReadable, TextsAre, Excerpt,
         ItemsElems, ItemTexts, AllKept, IndexesOf, RealisedIn, Disjoint, ElemsOf, WellRead, RecordsOf, BreaksOf,
         PlannedBreaks, BreaksOfEach, EndsOfEach, FirstBreak, BrsOf, InsertsComments;
    ghost var lines := BoxLines(tx.paras);
    var read;
    ghost var src;
    read, texts, src, recs := ReadBox(tx.paras, cuts, isComment);
    if AllReadable(tx.paras) { RecordsReady(recs, tx.paras, texts, if read.Ok? then read.value.tmpl else None); }
    if read.Err? {
      return Err(read.message), texts, recs;
    }
    var d := read.value;
    if !RgbOk(commentRgb) {
      return Err("not an RRGGBB colour"), texts, recs;
    }
    var rgb := InsertRgb(commentRgb);
    ghost var had := LineRuns(lines);
    label L:
    MatchingDisjoint(texts, SortedCuts(cuts), isComment);
    InsertsWhereRemoves(SortedCuts(cuts), |texts|);
    var done, w := EditParagraphs(tx, d.recs, d.removed, d.ell, d.tmpl, d.br, rgb, had, src);
    RecordsStable@L(recs, texts, lines);
    CanCopyIs(recs, d.ell, isComment, src);
    if done.Err? {
      return Err(done.message), texts, recs;
    }
    CutToneIs(commentRgb, recs, isComment, src);
    SameResult(recs, lines, texts, SortedCuts(cuts), isComment, w);
    MatchedAsk(texts, SortedCuts(cuts), isComment);
    InsertsTone(w.lines, lines, SortedCuts(cuts), commentRgb, isComment, w.tone, w.had);
    NoParagraphs(tx.paras);
    SameLength(BoxLines(tx.paras), SliceAssign(AllKept(texts), SortedCuts(cuts)));
    if tx.paras == [] {
      return Err("every line was cut"), texts, recs;
    }
    if !fits {
      return Err("the lines after the cuts exceed the box capacity"), texts, recs;
    }
    r := Ok(());
  }

  lemma MatchingDisjoint(texts: seq<string>, sorted: seq<Cut>, isComment: string -> bool)
    requires CutsMatch(texts, sorted, isComment)
    ensures Disjoint(sorted, |texts|) && Disjoint(sorted, |AllKept(texts)|)
  {
  }

  lemma SameLength(lines: seq<seq<Child>>, items: seq<Item<string>>)
    requires TextsAre(lines, ItemTexts(items))
    ensures lines == [] <==> items == []
  {
  }

  /** What the loop needs of the records. */
  lemma RecordsReady(recs: seq<Rec>, paras: seq<Paragraph>, texts: seq<string>, tmpl: Option<Rec>)
    requires RecordsOf(recs, paras, texts) && (tmpl.Some? ==> tmpl.value in recs)
    requires forall h, h' :: 0 <= h < h' < |paras| ==> paras[h] != paras[h']
    ensures ElemsOf(recs) == BoxLines(paras) && InParagraphs(recs, paras, Groups(paras), |paras|) && |recs| == |texts|
    ensures forall i :: 0 <= i < |recs| ==> Shaped(recs[i]) && WellRead(recs[i]) && recs[i].text == texts[i]
    ensures AloneKept(recs, tmpl)
    ensures RecordsWere(recs, texts, BoxLines(paras), paras, Groups(paras), EndsOfEach(paras))
  {
    hide Concat, LinesOf, InParagraphs, LineText, IndexesOf;
    if tmpl.Some? && Alone(recs, tmpl.value.p) {
      var i :| 0 <= i < |recs| && recs[i] == tmpl.value;
      AloneHolds(recs, paras, i);
    }
    forall i | 0 <= i < |recs| ensures Shaped(recs[i]) { assert WellRead(recs[i]); }
  }

  /** The runs of the old lines keep their texts, and so do the lines. */
  twostate lemma RecordsStable(recs: seq<Rec>, new texts: seq<string>, new lines: seq<seq<Child>>)
    requires lines == ElemsOf(recs) && |texts| == |recs|
    requires forall i :: 0 <= i < |recs| ==> old(WellRead(recs[i])) && recs[i].text == texts[i]
    requires forall i, x :: 0 <= i < |recs| && x in RunsOf(recs[i].elems) ==> x.text == old(x.text)
    ensures TextsAre(lines, texts) && forall i :: 0 <= i < |recs| ==> LineText(recs[i].elems) == recs[i].text
  {
    hide LineText;
    forall i | 0 <= i < |recs| ensures LineText(recs[i].elems) == recs[i].text {
      var line := recs[i].elems;
      assert old(WellRead(recs[i]));
      forall j | 0 <= j < |line| && line[j].RunChild? ensures line[j].run.text == old(line[j].run.text) {
        assert line[j].run in RunsOf(line);
      }
      LineTextStable(line);
    }
  }

  lemma CanCopyIs(recs: seq<Rec>, ell: map<int, string>, isComment: string -> bool, src: Run?)
    requires Source(TemplateLine(recs, isComment), src)
    ensures Copyable(recs, 0, |recs|, ell, TemplateLine(recs, isComment), src) <==> CanCopy(recs, ell, isComment)
  {
    hide TemplateLine, InkedRun, IndexesOf;
  }

  lemma CutToneIs(commentRgb: Option<string>, recs: seq<Rec>, isComment: string -> bool, src: Run?)
    requires Source(TemplateLine(recs, isComment), src)
    ensures ToneFor(InsertRgb(commentRgb), TemplateLine(recs, isComment), src)
         == CutTone(commentRgb, recs, isComment)
    ensures CutTone(commentRgb, recs, isComment).rgb == InsertRgb(commentRgb)
  {
    hide TemplateLine, InkedRun;
  }

  /** The records' plan, read as lines and as texts, is the slice assignment. */
  lemma SameResult(recs: seq<Rec>, lines: seq<seq<Child>>, texts: seq<string>, sorted: seq<Cut>,
                   isComment: string -> bool, w: Work)
    requires lines == ElemsOf(recs) && |texts| == |recs| && forall i :: 0 <= i < |recs| ==> texts[i] == recs[i].text
    requires CutsMatch(texts, sorted, isComment)
    requires forall i :: 0 <= i < |recs| ==> LineText(recs[i].elems) == recs[i].text
    requires Made(w) && w.items == ItemsElems(Plan(recs, 0, |recs|, Removed(sorted), Inserted(sorted)))
    ensures Disjoint(sorted, |AllKept(lines)|)
    ensures Excerpt(w.lines, SliceAssign(AllKept(lines), sorted), w.tone, w.had)
    ensures TextsAre(w.lines, ItemTexts(SliceAssign(AllKept(texts), sorted)))
  {
    hide Plan, SliceAssign, LineText;
    PlanElems(recs, lines, 0, |recs|, Removed(sorted), Inserted(sorted));
    PlanTexts(recs, texts, 0, |recs|, Removed(sorted), Inserted(sorted));
    PlanIsSliceAssign(lines, sorted);
    PlanIsSliceAssign(texts, sorted);
    SplicedTexts(w.lines, recs, Plan(recs, 0, |recs|, Removed(sorted), Inserted(sorted)),
                 Plan(texts, 0, |recs|, Removed(sorted), Inserted(sorted)), w.tone);
  }
}
