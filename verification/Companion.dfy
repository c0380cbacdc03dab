/** Bringing a document to a new revision in place: an alignment of old and new
    blocks applied through references to the old document's nodes
    (_plans/s12-manifest/tools/companion_docx.py, main and Runs.fill). */
module Companion {
  import opened Text

  // ------------------------------------------------------------------- values

  /** What is compared about a block: a paragraph's style and text, a table's cell texts. */
  datatype BlockText = ParaText(style: string, text: string) | TableText(rows: seq<seq<string>>)

  datatype Span = Span(text: string, kind: string)

  /** A block of the new revision. */
  datatype NewBlock = NewPara(style: string, spans: seq<Span>, image: bool) | NewTable(rows: seq<seq<string>>)

  function Joined(spans: seq<Span>): string {
    if spans == [] then "" else Joined(spans[..|spans| - 1]) + spans[|spans| - 1].text
  }

  /** `btext` */
  function BText(b: NewBlock): BlockText {
    match b
    case NewPara(style, spans, _) => ParaText(style, Joined(spans))
    case NewTable(rows) => TableText(rows)
  }

  function BTexts(bs: seq<NewBlock>): seq<BlockText> {
    seq(|bs|, j requires 0 <= j < |bs| => BText(bs[j]))
  }

  /** An opcode: old[i1..i2] becomes new[j1..j2]; `equal` when it is kept. */
  datatype Opcode = Opcode(equal: bool, i1: nat, i2: nat, j1: nat, j2: nat)

  /** What difflib guarantees of its opcodes: they tile both sequences, the equal
      ones are non-empty and match, and no two other ones are adjacent. */
  ghost predicate Aligns(ops: seq<Opcode>, old_: seq<BlockText>, new_: seq<NewBlock>) {
    && (forall t :: 0 <= t < |ops| ==> ops[t].i1 <= ops[t].i2 <= |old_| && ops[t].j1 <= ops[t].j2 <= |new_|)
    && (ops != [] ==> ops[0].i1 == 0 && ops[0].j1 == 0)
    && (forall t :: 0 < t < |ops| ==> ops[t].i1 == ops[t - 1].i2 && ops[t].j1 == ops[t - 1].j2)
    && EndOld(ops) == |old_| && EndNew(ops) == |new_|
    && (forall t :: 0 <= t < |ops| && ops[t].equal ==>
        ops[t].i1 < ops[t].i2 && ops[t].i2 - ops[t].i1 == ops[t].j2 - ops[t].j1)
    && (forall t :: 0 <= t < |ops| && ops[t].equal ==> Matches(ops[t], old_, new_))
    && (forall t :: 0 < t < |ops| ==> ops[t].equal || ops[t - 1].equal)
  }

  ghost predicate Matches(op: Opcode, old_: seq<BlockText>, new_: seq<NewBlock>)
    requires op.i1 <= op.i2 <= |old_| && op.j1 <= op.j2 <= |new_| && op.i2 - op.i1 == op.j2 - op.j1
  {
    forall i :: op.i1 <= i < op.i2 ==> old_[i] == BText(new_[op.j1 + i - op.i1])
  }

  ghost function EndOld(ops: seq<Opcode>): nat {
    if ops == [] then 0 else ops[|ops| - 1].i2
  }

  ghost function EndNew(ops: seq<Opcode>): nat {
    if ops == [] then 0 else ops[|ops| - 1].j2
  }

  /** A paired table keeps its shape; the cells both have get the new text. */
  ghost function ZipRows(old_: seq<seq<string>>, new_: seq<seq<string>>): seq<seq<string>> {
    seq(|old_|, r requires 0 <= r < |old_| => if r < |new_| then ZipCells(old_[r], new_[r]) else old_[r])
  }

  ghost function ZipCells(old_: seq<string>, new_: seq<string>): seq<string> {
    seq(|old_|, c requires 0 <= c < |old_| => if c < |new_| then new_[c] else old_[c])
  }

  ghost predicate SameShape(a: seq<seq<string>>, b: seq<seq<string>>) {
    |a| == |b| && forall r :: 0 <= r < |a| ==> |a[r]| == |b[r]|
  }

  /** A zipped table is the new one exactly when the shapes agree. */
  lemma ZipIsNew(a: seq<seq<string>>, b: seq<seq<string>>)
    ensures ZipRows(a, b) == b <==> SameShape(a, b)
  {
    if SameShape(a, b) {
      forall r | 0 <= r < |a| ensures ZipRows(a, b)[r] == b[r] {}
    }
    if ZipRows(a, b) == b {
      forall r | 0 <= r < |a| ensures |a[r]| == |b[r]| {
        assert |ZipRows(a, b)[r]| == |a[r]|;
      }
    }
  }

  /** The first old paragraph of a style: where the insert template comes from. */
  function FirstOfStyle(old_: seq<BlockText>, style: string): (f: int)
    ensures f == -1 || (0 <= f < |old_| && old_[f].ParaText? && old_[f].style == style)
    ensures f == -1 <==> forall h :: 0 <= h < |old_| && old_[h].ParaText? ==> old_[h].style != style
    ensures forall h :: 0 <= h < f && old_[h].ParaText? ==> old_[h].style != style
  {
    if old_ == [] then -1
    else
      var f := FirstOfStyle(old_[..|old_| - 1], style);
      if f >= 0 then f
      else if old_[|old_| - 1].ParaText? && old_[|old_| - 1].style == style then |old_| - 1 else -1
  }

  function Min(a: int, b: int): int {
    if a < b then a else b
  }

  /** How often the loop over k runs for an opcode. */
  function Steps(op: Opcode): int {
    if op.i2 - op.i1 < op.j2 - op.j1 then op.j2 - op.j1 else op.i2 - op.i1
  }

  /** How many old blocks an opcode overwrites. */
  function Pairs(op: Opcode): int {
    if op.equal then 0 else Min(op.i2 - op.i1, op.j2 - op.j1)
  }

  /** The style old node f has after the first n opcodes (a deleted node keeps its own). */
  ghost function StyleAfter(ops: seq<Opcode>, old_: seq<BlockText>, new_: seq<NewBlock>, n: nat, f: nat): string
    requires n <= |ops| && f < |old_| && old_[f].ParaText?
    requires forall t :: 0 <= t < |ops| ==> ops[t].i1 <= ops[t].i2 && ops[t].j1 <= ops[t].j2 <= |new_|
  {
    if n == 0 then old_[f].style
    else
      var op := ops[n - 1];
      if op.i1 <= f < op.i1 + Pairs(op) && new_[op.j1 + f - op.i1].NewPara? then new_[op.j1 + f - op.i1].style
      else StyleAfter(ops, old_, new_, n - 1, f)
  }

  /** The text the block put for new block j by opcode t ends up with. */
  ghost function Outcome(ops: seq<Opcode>, old_: seq<BlockText>, new_: seq<NewBlock>, t: nat, j: nat): BlockText
    requires Aligns(ops, old_, new_) && t < |ops| && ops[t].j1 <= j < ops[t].j2
  {
    var op := ops[t];
    var i := op.i1 + j - op.j1;
    if op.equal then old_[i]
    else if i < op.i2 then
      if old_[i].TableText? && new_[j].NewTable? then TableText(ZipRows(old_[i].rows, new_[j].rows)) else BText(new_[j])
    else if new_[j].NewPara? && FirstOfStyle(old_, new_[j].style) >= 0 then
      ParaText(StyleAfter(ops, old_, new_, t + 1, FirstOfStyle(old_, new_[j].style)), Joined(new_[j].spans))
    else BText(new_[j])
  }

  /** Old node f is given another style than `style` by opcode op. */
  ghost predicate Restyles(op: Opcode, new_: seq<NewBlock>, f: int, style: string)
    requires op.j1 <= op.j2 <= |new_|
  {
    op.i1 <= f < op.i1 + Pairs(op) && new_[op.j1 + f - op.i1].NewPara? && new_[op.j1 + f - op.i1].style != style
  }

  /** New block j is inserted by op, not written over an old one. */
  predicate Inserts(op: Opcode, j: int) {
    !op.equal && op.j1 + Pairs(op) <= j < op.j2
  }

  /** The template for inserting new block j by opcode t was not restyled before. */
  ghost predicate TemplateHolds(ops: seq<Opcode>, old_: seq<BlockText>, new_: seq<NewBlock>, t: nat, j: nat)
    requires Aligns(ops, old_, new_) && t < |ops| && j < |new_|
  {
    new_[j].NewPara? && FirstOfStyle(old_, new_[j].style) >= 0 ==>
      forall t' :: 0 <= t' <= t ==> !Restyles(ops[t'], new_, FirstOfStyle(old_, new_[j].style), new_[j].style)
  }

  /** A table written over an old table has that table's shape. */
  ghost predicate ShapeHolds(op: Opcode, old_: seq<BlockText>, new_: seq<NewBlock>, j: nat)
    requires op.i1 <= op.i2 <= |old_| && op.j1 <= op.j2 <= |new_| && op.j1 <= j < op.j1 + Pairs(op)
  {
    var i := op.i1 + j - op.j1;
    old_[i].TableText? && new_[j].NewTable? ==> SameShape(old_[i].rows, new_[j].rows)
  }

  /** The whole condition: templates keep their style, tables keep their shape. */
  ghost predicate Faithful(ops: seq<Opcode>, old_: seq<BlockText>, new_: seq<NewBlock>)
    requires Aligns(ops, old_, new_)
  {
    forall t, j :: 0 <= t < |ops| && ops[t].j1 <= j < ops[t].j2 && !ops[t].equal ==>
      if Inserts(ops[t], j) then TemplateHolds(ops, old_, new_, t, j) else ShapeHolds(ops[t], old_, new_, j)
  }

  lemma OpBounds(ops: seq<Opcode>, old_: seq<BlockText>, new_: seq<NewBlock>, t: nat)
    requires Aligns(ops, old_, new_) && t < |ops|
    ensures ops[t].i1 <= ops[t].i2 <= |old_| && ops[t].j1 <= ops[t].j2 <= |new_|
  {
  }

  lemma {:induction false} OpsAscend(ops: seq<Opcode>, old_: seq<BlockText>, new_: seq<NewBlock>, t: nat, t': nat)
    requires Aligns(ops, old_, new_) && t < t' < |ops|
    ensures ops[t].i2 <= ops[t'].i1 && ops[t].j2 <= ops[t'].j1
    decreases t'
  {
    if t + 1 < t' { OpsAscend(ops, old_, new_, t, t' - 1); }
  }

  /** An old node has its style after n opcodes exactly when none of them restyled it. */
  lemma {:induction false} StyleKept(ops: seq<Opcode>, old_: seq<BlockText>, new_: seq<NewBlock>, n: nat, f: nat)
    requires Aligns(ops, old_, new_) && n <= |ops| && f < |old_| && old_[f].ParaText?
    ensures StyleAfter(ops, old_, new_, n, f) == old_[f].style
       <==> forall t :: 0 <= t < n ==> !Restyles(ops[t], new_, f, old_[f].style)
    decreases n
  {
    if 0 < n {
      StyleKept(ops, old_, new_, n - 1, f);
      var op := ops[n - 1];
      if op.i1 <= f {
        forall t | 0 <= t < n - 1 ensures !Restyles(ops[t], new_, f, old_[f].style) {
          OpsAscend(ops, old_, new_, t, n - 1);
        }
      }
    }
  }

  /** Every block's outcome is the new block exactly under that condition. */
  lemma OutcomeIsNew(ops: seq<Opcode>, old_: seq<BlockText>, new_: seq<NewBlock>, t: nat, j: nat)
    requires Aligns(ops, old_, new_) && t < |ops| && ops[t].j1 <= j < ops[t].j2
    ensures Outcome(ops, old_, new_, t, j) == BText(new_[j]) <==>
            (ops[t].equal || if Inserts(ops[t], j) then TemplateHolds(ops, old_, new_, t, j)
                             else ShapeHolds(ops[t], old_, new_, j))
  {
    var op := ops[t];
    var i := op.i1 + j - op.j1;
    if op.equal {
      assert Matches(op, old_, new_);
      assert old_[i] == BText(new_[op.j1 + i - op.i1]);
    } else if i < op.i2 {
      if old_[i].TableText? && new_[j].NewTable? {
        ZipIsNew(old_[i].rows, new_[j].rows);
      }
    } else if new_[j].NewPara? && FirstOfStyle(old_, new_[j].style) >= 0 {
      StyleKept(ops, old_, new_, t + 1, FirstOfStyle(old_, new_[j].style));
    }
  }

  /** The result is the new revision exactly under that condition. */
  lemma ResultIsNew(ops: seq<Opcode>, old_: seq<BlockText>, new_: seq<NewBlock>, result: seq<BlockText>)
    requires Aligns(ops, old_, new_) && IsResult(ops, old_, new_, result)
    ensures Faithful(ops, old_, new_) <==> result == BTexts(new_)
  {
    var want := BTexts(new_);
    if Faithful(ops, old_, new_) {
      forall j | 0 <= j < |new_| ensures result[j] == want[j] {
        var t := OpOf(ops, old_, new_, |ops|, j);
        OutcomeIsNew(ops, old_, new_, t, j);
      }
    }
    if result == want {
      forall t, j | 0 <= t < |ops| && ops[t].j1 <= j < ops[t].j2 && !ops[t].equal
        ensures if Inserts(ops[t], j) then TemplateHolds(ops, old_, new_, t, j) else ShapeHolds(ops[t], old_, new_, j)
      {
        assert result[j] == Outcome(ops, old_, new_, t, j);
        OutcomeIsNew(ops, old_, new_, t, j);
      }
    }
  }

  ghost predicate IsResult(ops: seq<Opcode>, old_: seq<BlockText>, new_: seq<NewBlock>, result: seq<BlockText>)
    requires Aligns(ops, old_, new_)
  {
    && |result| == |new_|
    && forall t, j :: 0 <= t < |ops| && ops[t].j1 <= j < ops[t].j2 ==> result[j] == Outcome(ops, old_, new_, t, j)
  }

  /** The opcode that covers new block j. */
  ghost function OpOf(ops: seq<Opcode>, old_: seq<BlockText>, new_: seq<NewBlock>, n: nat, j: nat): (t: nat)
    requires Aligns(ops, old_, new_) && n <= |ops| && j < (if n == 0 then 0 else ops[n - 1].j2)
    ensures t < n && ops[t].j1 <= j < ops[t].j2
  {
    if ops[n - 1].j1 <= j then n - 1 else OpOf(ops, old_, new_, n - 1, j)
  }

  // ---------------------------------------------------------------- the document

  /** A `w:p` or `w:tbl` node of the body. */
  class Block {
    const isTable: bool
    var style: string
    var runs: seq<Span>
    var rows: seq<seq<string>>

    constructor (style: string, runs: seq<Span>)
      ensures !isTable && this.style == style && this.runs == runs
    {
      this.isTable, this.style, this.runs, this.rows := false, style, runs, [];
    }

    /** `dtext` */
    function Text(): BlockText
      reads this
    {
      if isTable then TableText(rows) else ParaText(style, Joined(runs))
    }
  }

  /** `styles` are the styles the document defines. */
  class Document {
    const styles: set<string>
    var body: seq<Block>

    constructor (styles: set<string>, body: seq<Block>)
      ensures this.styles == styles && this.body == body
    {
      this.styles, this.body := styles, body;
    }
  }

  /** What the document has to copy from: the kinds of its paragraphs' runs, and its styles. */
  datatype Stock = Stock(kinds: set<string>, styles: set<string>) {
    predicate Plain() { "plain" in kinds }
  }

  function Kinds(runs: seq<Span>): set<string> {
    set r | r in runs :: r.kind
  }

  /** The runs for the spans: each copies a run of its kind, or a plain one if there is none. */
  function Filled(spans: seq<Span>, kinds: set<string>): (runs: seq<Span>)
    ensures |runs| == |spans|
    ensures forall k :: 0 <= k < |runs| ==>
              runs[k] == Span(spans[k].text, if spans[k].kind in kinds then spans[k].kind else "plain")
  {
    seq(|spans|, k requires 0 <= k < |spans| =>
      Span(spans[k].text, if spans[k].kind in kinds then spans[k].kind else "plain"))
  }

  lemma {:induction false} FilledText(spans: seq<Span>, kinds: set<string>)
    ensures Joined(Filled(spans, kinds)) == Joined(spans)
  {
    if spans != [] {
      FilledText(spans[..|spans| - 1], kinds);
      assert Filled(spans, kinds)[..|spans| - 1] == Filled(spans[..|spans| - 1], kinds);
    }
  }

  /** One run for each span, in order, with its text; of its kind if that is one of `kinds`, and
      plain otherwise. */
  ghost predicate RunsAre(runs: seq<Span>, spans: seq<Span>, kinds: set<string>) {
    && |runs| == |spans|
    && forall k :: 0 <= k < |runs| ==>
         && runs[k].text == spans[k].text
         && runs[k].kind == if spans[k].kind in kinds then spans[k].kind else "plain"
  }

  /** Copies of runs of the document's kinds are of those kinds again. */
  lemma FilledFrom(spans: seq<Span>, own: set<string>, kinds: set<string>)
    requires own <= kinds && ("plain" in kinds || spans == [])
    ensures RunsAre(Filled(spans, own + kinds), spans, kinds) && Kinds(Filled(spans, own + kinds)) <= kinds
  {
  }

  /** `Runs.fill`: the runs rebuilt, one per span, each copied from a run of its kind in the
      paragraph or the document. It needs a plain run in the document, whatever the kind. */
  method Fill(p: Block, spans: seq<Span>, stock: Stock) returns (ok: bool)
    modifies p`runs
    ensures ok <==> stock.Plain() || spans == []
    ensures ok ==> p.runs == Filled(spans, Kinds(old(p.runs)) + stock.kinds)
  {
    var own := Kinds(p.runs);
    p.runs := [];
    for k := 0 to |spans|
      invariant p.runs == Filled(spans[..k], own + stock.kinds) && (k == 0 || stock.Plain())
    {
      if !stock.Plain() {
        return false;
      }
      var kind := spans[k].kind;
      p.runs := p.runs + [Span(spans[k].text, if kind in own || kind in stock.kinds then kind else "plain")];
    }
    ok := true;
  }

  /** The cells two tables both have, rewritten where they differ. */
  method FillTable(x: Block, rows: seq<seq<string>>, stock: Stock) returns (ok: bool)
    modifies x`rows
    ensures ok ==> x.rows == ZipRows(old(x.rows), rows)
    ensures ok <==> stock.Plain() || ZipRows(old(x.rows), rows) == old(x.rows)
  {
    ghost var rows0 := x.rows;
    var n := Min(|x.rows|, |rows|);
    for r := 0 to n
      invariant |x.rows| == |rows0|
      invariant forall h :: 0 <= h < r ==> x.rows[h] == ZipCells(rows0[h], rows[h])
      invariant forall h :: r <= h < |rows0| ==> x.rows[h] == rows0[h]
      invariant stock.Plain() || x.rows == rows0
    {
      var cells := FillRow(x.rows[r], rows[r], stock);
      if cells.None? {
        assert ZipRows(rows0, rows)[r] != rows0[r];
        return false;
      }
      x.rows := x.rows[r := cells.value];
    }
    assert x.rows == ZipRows(rows0, rows);
    ok := true;
  }

  method FillRow(row: seq<string>, want: seq<string>, stock: Stock) returns (r: Option<seq<string>>)
    ensures r.Some? ==> r.value == ZipCells(row, want) && (stock.Plain() || r.value == row)
    ensures r.None? <==> !stock.Plain() && ZipCells(row, want) != row
  {
    var cells := row;
    for c := 0 to Min(|row|, |want|)
      invariant |cells| == |row|
      invariant forall h :: 0 <= h < |row| ==> cells[h] == if h < c then want[h] else row[h]
      invariant stock.Plain() || cells == row
    {
      if cells[c] != want[c] {
        if !stock.Plain() {
          assert ZipCells(row, want)[c] != row[c];
          return None;
        }
        cells := cells[c := want[c]];
      }
    }
    assert cells == ZipCells(row, want);
    r := Some(cells);
  }

  /** Where the loop is: `j` finished blocks with the texts `done`, then the old
      nodes from `i` on, untouched; `cur` are the old nodes' styles. */
  datatype Pos = Pos(i: nat, j: nat, done: seq<BlockText>, cur: seq<string>)

  ghost predicate At(body: seq<Block>, items: seq<Block>, old_: seq<BlockText>, s: Pos)
    reads body, items
  {
    && s.i <= |items| == |old_| == |s.cur| && s.j <= |body| && |s.done| == s.j && |body| - s.j == |items| - s.i
    && (forall h :: s.i <= h < |items| ==> body[s.j + h - s.i] == items[h])
    && (forall m, m' :: 0 <= m < m' < |body| ==> body[m] != body[m'])
    && (forall m :: 0 <= m < s.j ==> body[m].Text() == s.done[m])
    && (forall h, h' :: 0 <= h < h' < |items| ==> items[h] != items[h'])
    && (forall h :: s.i <= h < |items| ==> items[h].Text() == old_[h])
    && (forall h :: 0 <= h < |items| ==> items[h].isTable == old_[h].TableText?)
    && (forall h :: 0 <= h < |items| && !items[h].isTable ==> items[h].style == s.cur[h])
  }

  /** `addnext`: the anchor has to be in the document. */
  method InsertAfter(doc: Document, anchor: Block, el: Block, ghost at: nat)
    requires at < |doc.body| && doc.body[at] == anchor
    requires forall m, m' :: 0 <= m < m' < |doc.body| ==> doc.body[m] != doc.body[m']
    modifies doc
    ensures doc.body == old(doc.body[..at + 1]) + [el] + old(doc.body[at + 1..])
  {
    var k := 0;
    while doc.body[k] != anchor
      invariant k <= at
      decreases at - k
    {
      k := k + 1;
    }
    doc.body := doc.body[..k + 1] + [el] + doc.body[k + 1..];
  }

  /** `getparent().remove(...)` */
  method Remove(doc: Document, x: Block, ghost at: nat)
    requires at < |doc.body| && doc.body[at] == x
    requires forall m, m' :: 0 <= m < m' < |doc.body| ==> doc.body[m] != doc.body[m']
    modifies doc
    ensures doc.body == old(doc.body[..at]) + old(doc.body[at + 1..])
  {
    var k := 0;
    while doc.body[k] != x
      invariant k <= at
      decreases at - k
    {
      k := k + 1;
    }
    doc.body := doc.body[..k] + doc.body[k + 1..];
  }

  /** Old block i is written over with a new block. */
  ghost predicate PairOk(o: BlockText, n: NewBlock, stock: Stock) {
    match o
    case TableText(rows) => n.NewTable? && (stock.Plain() || ZipRows(rows, n.rows) == rows)
    case ParaText(style, _) =>
      n.NewPara? && (n.style == style || n.style in stock.styles) && (stock.Plain() || n.spans == [])
  }

  method SetBlock(x: Block, nb: NewBlock, stock: Stock) returns (ok: bool)
    modifies x
    ensures ok <==> PairOk(old(x.Text()), nb, stock)
    ensures ok ==> x.Text() == match old(x.Text())
                               case TableText(rows) => TableText(ZipRows(rows, nb.rows))
                               case ParaText(_, _) => BText(nb)
    ensures ok && !x.isTable ==>
              x.style == nb.style && nb.NewPara? && x.runs == Filled(nb.spans, Kinds(old(x.runs)) + stock.kinds)
  {
    if x.isTable || nb.NewTable? {
      if !(x.isTable && nb.NewTable?) {
        return false;
      }
      ok := FillTable(x, nb.rows, stock);
      return;
    }
    if x.style != nb.style {
      if nb.style !in stock.styles { return false; }
      x.style := nb.style;
    }
    FilledText(nb.spans, Kinds(x.runs) + stock.kinds);
    ok := Fill(x, nb.spans, stock);
  }

  /** The state after old block s.i was written over with nb. */
  ghost function AfterSet(old_: seq<BlockText>, s: Pos, nb: NewBlock): Pos
    requires s.i < |old_| == |s.cur|
  {
    Pos(s.i + 1, s.j + 1,
        s.done + [if old_[s.i].TableText? && nb.NewTable? then TableText(ZipRows(old_[s.i].rows, nb.rows))
                  else BText(nb)],
        if nb.NewPara? then s.cur[s.i := nb.style] else s.cur)
  }

  predicate Covers(op: Opcode, j: int) {
    !op.equal && op.j1 <= j < op.j2
  }

  /** New block j is written by some opcode, not kept. */
  ghost predicate Written(ops: seq<Opcode>, j: int) {
    exists t :: 0 <= t < |ops| && Covers(ops[t], j)
  }

  /** Of the first `n` new blocks, each paragraph that is written has its spans as runs; and no
      paragraph of the old document has runs of other kinds. */
  ghost predicate Wrote(body: seq<Block>, items: seq<Block>, new_: seq<NewBlock>, ops: seq<Opcode>, n: nat,
                        kinds: set<string>)
    reads body, items
  {
    && n <= |body| && n <= |new_|
    && (forall h :: 0 <= h < |items| && !items[h].isTable ==> Kinds(items[h].runs) <= kinds)
    && forall m :: 0 <= m < n && Written(ops, m) && new_[m].NewPara? ==>
         RunsAre(body[m].runs, new_[m].spans, kinds)
  }

  datatype Writing = Writing(body: seq<Block>, items: seq<Block>, new_: seq<NewBlock>, ops: seq<Opcode>, n: nat,
                             stock: Stock)

  twostate lemma WroteSet(a: Writing, new i: nat)
    requires old(Wrote(a.body, a.items, a.new_, a.ops, a.n, a.stock.kinds))
    requires i < |a.items| && a.n < |a.body| && a.n < |a.new_| && a.body[a.n] == a.items[i]
    requires forall m :: 0 <= m < a.n ==> a.body[m] != a.items[i]
    requires forall b :: (b in a.body || b in a.items) && b != a.items[i] ==> b.runs == old(b.runs)
    requires !a.items[i].isTable ==>
      var nb := a.new_[a.n];
      && nb.NewPara? && (a.stock.Plain() || nb.spans == [])
      && a.items[i].runs == Filled(nb.spans, Kinds(old(a.items[i].runs)) + a.stock.kinds)
    requires a.items[i].isTable ==> a.new_[a.n].NewTable?
    ensures Wrote(a.body, a.items, a.new_, a.ops, a.n + 1, a.stock.kinds)
  {
    hide Filled, RunsAre, Kinds, Written;
    if !a.items[i].isTable {
      FilledFrom(a.new_[a.n].spans, Kinds(old(a.items[i].runs)), a.stock.kinds);
    }
    forall h | 0 <= h < |a.items| && !a.items[h].isTable ensures Kinds(a.items[h].runs) <= a.stock.kinds {
      assert a.items[h] in a.items;
    }
    forall m | 0 <= m < a.n + 1 && Written(a.ops, m) && a.new_[m].NewPara?
      ensures RunsAre(a.body[m].runs, a.new_[m].spans, a.stock.kinds)
    {
      assert a.body[m] in a.body;
    }
  }

  lemma WroteInsert(body: seq<Block>, body': seq<Block>, items: seq<Block>, new_: seq<NewBlock>, ops: seq<Opcode>,
                    n: nat, kinds: set<string>)
    requires Wrote(body, items, new_, ops, n, kinds) && n < |body'| && n < |new_|
    requires forall m :: 0 <= m < n ==> body'[m] == body[m]
    requires new_[n].NewPara? ==> RunsAre(body'[n].runs, new_[n].spans, kinds)
    ensures Wrote(body', items, new_, ops, n + 1, kinds)
  {
  }

  lemma WroteSame(body: seq<Block>, body': seq<Block>, items: seq<Block>, new_: seq<NewBlock>, ops: seq<Opcode>,
                  n: nat, kinds: set<string>)
    requires Wrote(body, items, new_, ops, n, kinds) && n <= |body'| && forall m :: 0 <= m < n ==> body'[m] == body[m]
    ensures Wrote(body', items, new_, ops, n, kinds)
  {
  }

  method SetAt(doc: Document, items: seq<Block>, i: nat, nb: NewBlock, stock: Stock, ghost old_: seq<BlockText>,
               ghost new_: seq<NewBlock>, ghost ops: seq<Opcode>, ghost s: Pos)
    returns (ok: bool)
    requires At(doc.body, items, old_, s) && i == s.i < |items|
    requires Wrote(doc.body, items, new_, ops, s.j, stock.kinds) && s.j < |new_| && nb == new_[s.j]
    modifies items[i]
    ensures ok ==> Wrote(doc.body, items, new_, ops, s.j + 1, stock.kinds)
    ensures ok <==> PairOk(old_[s.i], nb, stock)
    ensures ok ==> At(doc.body, items, old_, AfterSet(old_, s, nb)) && AfterSet(old_, s, nb).j == s.j + 1
    ensures s.j < |doc.body| && doc.body[s.j] == items[s.i]
  {
    hide ZipRows, Joined, BText, At, AfterSet, Wrote, Filled, Kinds;
    AtHere(doc.body, items, old_, s);
    label before:
    ok := SetBlock(items[i], nb, stock);
    if ok {
      AtSet@before(Setting(doc.body, items, old_, s, nb));
      WroteSet@before(Writing(doc.body, items, new_, ops, s.j, stock), i);
    }
  }

  lemma AtHere(body: seq<Block>, items: seq<Block>, old_: seq<BlockText>, s: Pos)
    requires At(body, items, old_, s) && s.i < |items|
    ensures |items| == |old_| == |s.cur| && s.j < |body| && body[s.j] == items[s.i]
    ensures items[s.i].Text() == old_[s.i] && items[s.i].isTable == old_[s.i].TableText?
    ensures forall nb :: AfterSet(old_, s, nb).j == s.j + 1
    ensures forall m :: 0 <= m < s.j ==> body[m] != items[s.i]
  {
    assert body[s.j + s.i - s.i] == items[s.i];
  }

  datatype Setting = Setting(body: seq<Block>, items: seq<Block>, old_: seq<BlockText>, s: Pos, nb: NewBlock)

  twostate lemma AtSet(a: Setting)
    requires old(At(a.body, a.items, a.old_, a.s)) && a.s.i < |a.items| == |a.old_| == |a.s.cur|
    requires forall b :: (b in a.body || b in a.items) && b != a.items[a.s.i] ==>
        b.Text() == old(b.Text()) && b.style == old(b.style)
    requires var x, o := a.items[a.s.i], a.old_[a.s.i];
      && (o.TableText? ==> a.nb.NewTable? && x.Text() == TableText(ZipRows(o.rows, a.nb.rows)))
      && (o.ParaText? ==> a.nb.NewPara? && x.Text() == BText(a.nb) && x.style == a.nb.style)
    ensures At(a.body, a.items, a.old_, AfterSet(a.old_, a.s, a.nb))
  {
    hide ZipRows, BText;
    var body, items, old_, s := a.body, a.items, a.old_, a.s;
    var s' := AfterSet(old_, s, a.nb);
    assert body[s.j + s.i - s.i] == items[s.i];
    forall m | 0 <= m < s'.j ensures body[m].Text() == s'.done[m] {
      if m < s.j { assert body[m] in body && body[m] != body[s.j]; }
    }
    forall h | s'.i <= h < |items| ensures items[h].Text() == old_[h] && body[s'.j + h - s'.i] == items[h] {
      assert items[h] in items && body[s.j + h - s.i] == items[h];
    }
    forall h | 0 <= h < |items| && !items[h].isTable ensures items[h].style == s'.cur[h] {
      assert items[h] in items;
    }
  }

  /** New block nb can be inserted. */
  ghost predicate InsertOk(old_: seq<BlockText>, nb: NewBlock, anchored: bool, stock: Stock) {
    nb.NewPara? && !nb.image && FirstOfStyle(old_, nb.style) >= 0 && anchored && (stock.Plain() || nb.spans == [])
  }

  /** `styles`: per style, the document's first paragraph of that style. */
  ghost predicate Templates(styles: map<string, Block>, items: seq<Block>, old_: seq<BlockText>) {
    && |items| == |old_|
    && (forall s :: s in styles <==> FirstOfStyle(old_, s) >= 0)
    && (forall s :: s in styles ==> styles[s] == items[FirstOfStyle(old_, s)])
  }

  /** The state after nb was inserted from its style's template. */
  ghost function AfterInsert(old_: seq<BlockText>, s: Pos, nb: NewBlock): Pos
    requires nb.NewPara? && FirstOfStyle(old_, nb.style) >= 0 && |s.cur| == |old_|
  {
    Pos(s.i, s.j + 1, s.done + [ParaText(s.cur[FirstOfStyle(old_, nb.style)], Joined(nb.spans))], s.cur)
  }

  method InsertAt(doc: Document, items: seq<Block>, styles: map<string, Block>, anchor: Option<Block>, nb: NewBlock,
                  stock: Stock, ghost old_: seq<BlockText>, ghost new_: seq<NewBlock>, ghost ops: seq<Opcode>,
                  ghost s: Pos)
    returns (el: Option<Block>)
    requires At(doc.body, items, old_, s) && Templates(styles, items, old_)
    requires Wrote(doc.body, items, new_, ops, s.j, stock.kinds) && s.j < |new_| && nb == new_[s.j]
    requires anchor.Some? ==> 0 < s.j && doc.body[s.j - 1] == anchor.value
    modifies doc
    ensures el.Some? <==> InsertOk(old_, nb, anchor.Some?, stock)
    ensures el.Some? ==> nb.NewPara? && FirstOfStyle(old_, nb.style) >= 0
    ensures el.Some? ==> At(doc.body, items, old_, AfterInsert(old_, s, nb)) && AfterInsert(old_, s, nb).j == s.j + 1
    ensures el.Some? ==> s.j < |doc.body| && doc.body[s.j] == el.value
    ensures el.Some? ==> Wrote(doc.body, items, new_, ops, s.j + 1, stock.kinds)
    ensures s.j <= |doc.body| && forall m :: 0 <= m < s.j ==> doc.body[m] == old(doc.body[m])
  {
    hide Joined, FirstOfStyle, At, Templates, Wrote, Filled, Kinds, RunsAre;
    AtDiffers(doc.body, items, old_, s);
    if nb.NewPara? { TemplateOf(doc.body, styles, items, old_, s, nb.style); }
    if nb.NewTable? || nb.image || nb.style !in styles || anchor.None? {
      return None;
    }
    var tmpl := styles[nb.style];
    var copy := new Block(tmpl.style, tmpl.runs);
    ghost var body0 := doc.body;
    InsertAfter(doc, anchor.value, copy, s.j - 1);
    FilledText(nb.spans, Kinds(copy.runs) + stock.kinds);
    var ok := Fill(copy, nb.spans, stock);
    if !ok {
      return None;
    }
    AtInsert(body0, doc.body, items, old_, s, copy);
    KindsKnown(body0, items, new_, ops, s.j, stock.kinds, tmpl);
    FilledFrom(nb.spans, Kinds(tmpl.runs), stock.kinds);
    WroteInsert(body0, doc.body, items, new_, ops, s.j, stock.kinds);
    el := Some(copy);
  }

  lemma AtDiffers(body: seq<Block>, items: seq<Block>, old_: seq<BlockText>, s: Pos)
    requires At(body, items, old_, s)
    ensures s.j <= |body| && |s.cur| == |old_| == |items|
    ensures forall m, m' :: 0 <= m < m' < |body| ==> body[m] != body[m']
  {
  }

  /** The template of a style, and the style it has now. */
  lemma TemplateOf(body: seq<Block>, styles: map<string, Block>, items: seq<Block>, old_: seq<BlockText>, s: Pos,
                   style: string)
    requires At(body, items, old_, s) && Templates(styles, items, old_)
    ensures style in styles <==> FirstOfStyle(old_, style) >= 0
    ensures style in styles ==> |s.cur| == |old_| && styles[style].style == s.cur[FirstOfStyle(old_, style)]
    ensures style in styles ==> styles[style] in items && !styles[style].isTable
  {
  }

  lemma KindsKnown(body: seq<Block>, items: seq<Block>, new_: seq<NewBlock>, ops: seq<Opcode>, n: nat,
                   kinds: set<string>, x: Block)
    requires Wrote(body, items, new_, ops, n, kinds) && x in items && !x.isTable
    ensures Kinds(x.runs) <= kinds
  {
  }

  lemma AtInsert(body: seq<Block>, body': seq<Block>, items: seq<Block>, old_: seq<BlockText>, s: Pos, el: Block)
    requires At(body, items, old_, s) && el !in body
    requires body' == body[..s.j] + [el] + body[s.j..]
    ensures At(body', items, old_, Pos(s.i, s.j + 1, s.done + [el.Text()], s.cur))
  {
  }

  method DeleteAt(doc: Document, items: seq<Block>, i: nat, ghost old_: seq<BlockText>, ghost s: Pos)
    requires At(doc.body, items, old_, s) && i == s.i < |items|
    modifies doc
    ensures At(doc.body, items, old_, Pos(s.i + 1, s.j, s.done, s.cur))
    ensures s.j <= |doc.body| && forall m :: 0 <= m < s.j ==> doc.body[m] == old(doc.body[m])
  {
    assert doc.body[s.j + s.i - s.i] == items[s.i];
    Remove(doc, items[i], s.j);
  }

  /** An equal range: nothing is done, the old nodes are the new blocks. */
  lemma KeepRange(body: seq<Block>, items: seq<Block>, old_: seq<BlockText>, s: Pos, i': nat)
    requires At(body, items, old_, s) && s.i <= i' <= |items|
    ensures At(body, items, old_, Pos(i', s.j + i' - s.i, s.done + old_[s.i..i'], s.cur))
    ensures forall h :: s.i <= h < i' ==> s.j + h - s.i < |body| && body[s.j + h - s.i] == items[h]
  {
  }

  // ------------------------------------------------------------------- the loop

  /** Step k of opcode t can be done. */
  ghost predicate StepOk(ops: seq<Opcode>, old_: seq<BlockText>, new_: seq<NewBlock>, t: nat, k: nat, stock: Stock)
    requires Aligns(ops, old_, new_) && t < |ops|
  {
    !ops[t].equal && ops[t].j1 + k < ops[t].j2 ==>
      if k < Pairs(ops[t]) then PairOk(old_[ops[t].i1 + k], new_[ops[t].j1 + k], stock)
      else InsertOk(old_, new_[ops[t].j1 + k], 0 < ops[t].i2, stock)
  }

  ghost predicate StepsOk(ops: seq<Opcode>, old_: seq<BlockText>, new_: seq<NewBlock>, t: nat, stock: Stock)
    requires Aligns(ops, old_, new_) && t < |ops|
  {
    forall k: nat :: StepOk(ops, old_, new_, t, k, stock)
  }

  /** The first k steps of opcode t can be done. */
  ghost predicate StepsBelow(ops: seq<Opcode>, old_: seq<BlockText>, new_: seq<NewBlock>, t: nat, k: nat, stock: Stock)
    requires Aligns(ops, old_, new_) && t < |ops|
  {
    forall h: nat :: h < k ==> StepOk(ops, old_, new_, t, h, stock)
  }

  lemma StepsGrow(ops: seq<Opcode>, old_: seq<BlockText>, new_: seq<NewBlock>, t: nat, k: nat, stock: Stock)
    requires Aligns(ops, old_, new_) && t < |ops| && StepsBelow(ops, old_, new_, t, k, stock)
    ensures if StepOk(ops, old_, new_, t, k, stock) then StepsBelow(ops, old_, new_, t, k + 1, stock)
            else !StepsOk(ops, old_, new_, t, stock)
    ensures ops[t].j2 - ops[t].j1 <= k ==> StepsOk(ops, old_, new_, t, stock)
  {
  }

  /** Step k as the branch that does it sees it. */
  lemma StepSees(ops: seq<Opcode>, old_: seq<BlockText>, new_: seq<NewBlock>, t: nat, k: nat, stock: Stock,
                 anchored: bool)
    requires Aligns(ops, old_, new_) && t < |ops| && !ops[t].equal && StepsBelow(ops, old_, new_, t, k, stock)
    requires anchored <==> 0 < ops[t].i1 || 0 < Min(k, ops[t].j2 - ops[t].j1)
    ensures k < Pairs(ops[t]) ==>
              (StepOk(ops, old_, new_, t, k, stock) <==> PairOk(old_[ops[t].i1 + k], new_[ops[t].j1 + k], stock))
    ensures Pairs(ops[t]) <= k < ops[t].j2 - ops[t].j1 ==>
              (StepOk(ops, old_, new_, t, k, stock) <==> InsertOk(old_, new_[ops[t].j1 + k], anchored, stock))
    ensures ops[t].j2 - ops[t].j1 <= k ==> StepOk(ops, old_, new_, t, k, stock)
  {
    hide FirstOfStyle, PairOk;
    if 0 < k { assert StepOk(ops, old_, new_, t, 0, stock); }
  }

  /** What the state says within opcode t, before its k-th step: the finished blocks
      are opcode t's outcomes so far, the old nodes' styles those so far. */
  ghost predicate Mid(ops: seq<Opcode>, old_: seq<BlockText>, new_: seq<NewBlock>, t: nat, k: nat,
                      from: seq<BlockText>, s: Pos)
    requires Aligns(ops, old_, new_) && t < |ops|
  {
    var op := ops[t];
    && |s.cur| == |old_|
    && s.i == op.i1 + Min(k, op.i2 - op.i1) && s.j == op.j1 + Min(k, op.j2 - op.j1)
    && |from| == op.j1 && |s.done| == s.j && s.done[..op.j1] == from
    && (forall j :: op.j1 <= j < s.j ==> s.done[j] == Outcome(ops, old_, new_, t, j))
    && forall f :: 0 <= f < |old_| && old_[f].ParaText? ==>
         s.cur[f] == if op.i1 <= f < op.i1 + Min(k, Pairs(op)) && new_[op.j1 + f - op.i1].NewPara?
                     then new_[op.j1 + f - op.i1].style else StyleAfter(ops, old_, new_, t, f)
  }

  lemma MidSet(ops: seq<Opcode>, old_: seq<BlockText>, new_: seq<NewBlock>, t: nat, k: nat, from: seq<BlockText>,
               s: Pos)
    requires Aligns(ops, old_, new_) && t < |ops| && !ops[t].equal && Mid(ops, old_, new_, t, k, from, s)
    requires k < ops[t].i2 - ops[t].i1 && k < ops[t].j2 - ops[t].j1
    ensures s.i == ops[t].i1 + k && s.j == ops[t].j1 + k && |s.cur| == |old_|
    ensures Mid(ops, old_, new_, t, k + 1, from, AfterSet(old_, s, new_[s.j]))
  {
    hide Aligns;
    OpBounds(ops, old_, new_, t);
    hide StyleAfter, ZipRows, FirstOfStyle, Joined;
  }

  lemma MidInsert(ops: seq<Opcode>, old_: seq<BlockText>, new_: seq<NewBlock>, t: nat, k: nat, from: seq<BlockText>,
                  s: Pos)
    requires Aligns(ops, old_, new_) && t < |ops| && !ops[t].equal && Mid(ops, old_, new_, t, k, from, s)
    requires ops[t].i2 - ops[t].i1 <= k < ops[t].j2 - ops[t].j1
    ensures s.i == ops[t].i2 && s.j == ops[t].j1 + k && |s.cur| == |old_|
    ensures new_[s.j].NewPara? && FirstOfStyle(old_, new_[s.j].style) >= 0 ==>
              Mid(ops, old_, new_, t, k + 1, from, AfterInsert(old_, s, new_[s.j]))
  {
    hide Aligns;
    OpBounds(ops, old_, new_, t);
    if new_[s.j].NewPara? && FirstOfStyle(old_, new_[s.j].style) >= 0 {
      hide StyleAfter, Outcome, FirstOfStyle, Joined;
      MidGrow(ops, old_, new_, t, k, from, s, AfterInsert(old_, s, new_[s.j]));
    }
  }

  /** An insert adds one outcome and changes no style. */
  lemma MidGrow(ops: seq<Opcode>, old_: seq<BlockText>, new_: seq<NewBlock>, t: nat, k: nat, from: seq<BlockText>,
                s: Pos, s': Pos)
    requires Aligns(ops, old_, new_) && t < |ops| && !ops[t].equal && Mid(ops, old_, new_, t, k, from, s)
    requires ops[t].i2 - ops[t].i1 <= k < ops[t].j2 - ops[t].j1
    requires s.j < ops[t].j2 && s' == Pos(s.i, s.j + 1, s.done + [Outcome(ops, old_, new_, t, s.j)], s.cur)
    ensures Mid(ops, old_, new_, t, k + 1, from, s')
  {
    hide Aligns, StyleAfter, Outcome;
    OpBounds(ops, old_, new_, t);
  }

  lemma MidDelete(ops: seq<Opcode>, old_: seq<BlockText>, new_: seq<NewBlock>, t: nat, k: nat, from: seq<BlockText>,
                  s: Pos)
    requires Aligns(ops, old_, new_) && t < |ops| && !ops[t].equal && Mid(ops, old_, new_, t, k, from, s)
    requires ops[t].j2 - ops[t].j1 <= k < ops[t].i2 - ops[t].i1
    ensures s.i == ops[t].i1 + k
    ensures Mid(ops, old_, new_, t, k + 1, from, Pos(s.i + 1, s.j, s.done, s.cur))
  {
  }

  twostate predicate Untouched(x: Block)
    reads x
  {
    x.style == old(x.style) && x.runs == old(x.runs) && x.rows == old(x.rows)
  }

  /** What is fixed while one opcode is applied. */
  datatype Job = Job(items: seq<Block>, old_: seq<BlockText>, new_: seq<NewBlock>, ops: seq<Opcode>, t: nat,
                     stock: Stock, from: seq<BlockText>, body0: seq<Block>)

  ghost predicate Fixed(w: Job) {
    Aligns(w.ops, w.old_, w.new_) && w.t < |w.ops| && !w.ops[w.t].equal && |w.items| == |w.old_|
  }

  /** The blocks finished before this opcode are where they were. */
  ghost predicate Front(w: Job, body: seq<Block>, s: Pos)
    requires Fixed(w)
  {
    && w.ops[w.t].j1 <= |w.body0| && w.ops[w.t].j1 <= s.j <= |body|
    && forall m :: 0 <= m < w.ops[w.t].j1 ==> body[m] == w.body0[m]
  }

  /** The anchor is the last finished block. */
  ghost predicate Anchored(w: Job, body: seq<Block>, anchor: Option<Block>, k: nat, s: Pos)
    requires Fixed(w)
  {
    && (anchor.Some? <==> 0 < w.ops[w.t].i1 || 0 < Min(k, w.ops[w.t].j2 - w.ops[w.t].j1))
    && (anchor.Some? && k <= w.ops[w.t].j2 - w.ops[w.t].j1 ==> 0 < s.j <= |body| && body[s.j - 1] == anchor.value)
  }

  /** The loop over k, before its k-th step: everything but the document's state. */
  ghost predicate MidJob(w: Job, body: seq<Block>, anchor: Option<Block>, k: nat, s: Pos) {
    && Fixed(w) && Mid(w.ops, w.old_, w.new_, w.t, k, w.from, s) && StepsBelow(w.ops, w.old_, w.new_, w.t, k, w.stock)
    && Front(w, body, s) && Anchored(w, body, anchor, k, s)
  }

  ghost predicate InOp(w: Job, body: seq<Block>, anchor: Option<Block>, k: nat, s: Pos)
    reads body, w.items
  {
    && MidJob(w, body, anchor, k, s) && At(body, w.items, w.old_, s)
    && Wrote(body, w.items, w.new_, w.ops, s.j, w.stock.kinds)
  }

  /** What a step that writes over an old node needs, and what it leaves. */
  lemma BeforeSet(w: Job, body: seq<Block>, anchor: Option<Block>, k: nat, s: Pos)
    requires InOp(w, body, anchor, k, s) && k < w.ops[w.t].i2 - w.ops[w.t].i1 && k < w.ops[w.t].j2 - w.ops[w.t].j1
    ensures w.ops[w.t].i1 + k == s.i < |w.old_| == |w.items| == |s.cur| && w.ops[w.t].j1 + k == s.j < |w.new_|
    ensures At(body, w.items, w.old_, s) && MidJob(w, body, anchor, k, s)
    ensures Wrote(body, w.items, w.new_, w.ops, s.j, w.stock.kinds)
    ensures !PairOk(w.old_[s.i], w.new_[s.j], w.stock) ==> !StepsOk(w.ops, w.old_, w.new_, w.t, w.stock)
  {
    hide Aligns, At, Mid, PairOk, InsertOk, StepsOk, StepsBelow, StepOk, FirstOfStyle, ZipRows, Joined, Wrote;
    OpBounds(w.ops, w.old_, w.new_, w.t);
    MidSet(w.ops, w.old_, w.new_, w.t, k, w.from, s);
    hide AfterSet;
    StepsGrow(w.ops, w.old_, w.new_, w.t, k, w.stock);
    StepSees(w.ops, w.old_, w.new_, w.t, k, w.stock, anchor.Some?);
  }

  lemma AfterSetStep(w: Job, body: seq<Block>, anchor: Option<Block>, k: nat, s: Pos, s': Pos)
    requires MidJob(w, body, anchor, k, s) && k < w.ops[w.t].i2 - w.ops[w.t].i1 && k < w.ops[w.t].j2 - w.ops[w.t].j1
    requires |s.cur| == |w.old_| && s.i < |w.old_| && s.j < |w.new_| && PairOk(w.old_[s.i], w.new_[s.j], w.stock)
    requires s' == AfterSet(w.old_, s, w.new_[s.j]) && At(body, w.items, w.old_, s') && s.j < |body|
        && body[s.j] == w.items[s.i]
    requires Wrote(body, w.items, w.new_, w.ops, s.j + 1, w.stock.kinds)
    ensures InOp(w, body, Some(w.items[s.i]), k + 1, s')
  {
    hide Aligns, At, Mid, PairOk, InsertOk, StepsOk, StepsBelow, StepOk, FirstOfStyle, ZipRows, Joined, Wrote;
    OpBounds(w.ops, w.old_, w.new_, w.t);
    MidSet(w.ops, w.old_, w.new_, w.t, k, w.from, s);
    assert s'.j == s.j + 1 && Front(w, body, s') && 0 <= k < Pairs(w.ops[w.t]);
    hide AfterSet, Front;
    StepsGrow(w.ops, w.old_, w.new_, w.t, k, w.stock);
    StepSees(w.ops, w.old_, w.new_, w.t, k, w.stock, anchor.Some?);
    hide Anchored, Pairs;
  }

  /** A step that writes over an old node ... */
  method SetStep(doc: Document, items: seq<Block>, i: nat, nb: NewBlock, stock: Stock,
                 ghost w: Job, ghost anchor: Option<Block>, ghost k: nat, ghost s: Pos)
    returns (ok: bool, ghost s': Pos)
    requires InOp(w, doc.body, anchor, k, s) && items == w.items && stock == w.stock && i < |items|
    requires k < w.ops[w.t].i2 - w.ops[w.t].i1 && k < w.ops[w.t].j2 - w.ops[w.t].j1
    requires i == w.ops[w.t].i1 + k && nb == w.new_[w.ops[w.t].j1 + k]
    modifies items[i]
    ensures ok ==> InOp(w, doc.body, Some(items[i]), k + 1, s')
    ensures !ok ==> !StepsOk(w.ops, w.old_, w.new_, w.t, w.stock)
  {
    hide *;
    BeforeSet(w, doc.body, anchor, k, s);
    s' := AfterSet(w.old_, s, nb);
    ok := SetAt(doc, items, i, nb, stock, w.old_, w.new_, w.ops, s);
    if ok {
      AfterSetStep(w, doc.body, anchor, k, s, s');
    }
  }

  lemma BeforeInsert(w: Job, body: seq<Block>, anchor: Option<Block>, k: nat, s: Pos)
    requires InOp(w, body, anchor, k, s) && w.ops[w.t].i2 - w.ops[w.t].i1 <= k < w.ops[w.t].j2 - w.ops[w.t].j1
    ensures w.ops[w.t].j1 + k == s.j < |w.new_| && |w.items| == |w.old_| == |s.cur| && s.j <= |body|
    ensures At(body, w.items, w.old_, s) && MidJob(w, body, anchor, k, s)
    ensures Wrote(body, w.items, w.new_, w.ops, s.j, w.stock.kinds)
    ensures anchor.Some? ==> 0 < s.j && body[s.j - 1] == anchor.value
    ensures !InsertOk(w.old_, w.new_[s.j], anchor.Some?, w.stock) ==> !StepsOk(w.ops, w.old_, w.new_, w.t, w.stock)
  {
    hide Aligns, At, Mid, PairOk, InsertOk, StepsOk, StepsBelow, StepOk, FirstOfStyle, ZipRows, Joined, Wrote;
    OpBounds(w.ops, w.old_, w.new_, w.t);
    MidInsert(w.ops, w.old_, w.new_, w.t, k, w.from, s);
    hide AfterInsert;
    StepsGrow(w.ops, w.old_, w.new_, w.t, k, w.stock);
    StepSees(w.ops, w.old_, w.new_, w.t, k, w.stock, anchor.Some?);
  }

  lemma AfterInsertStep(w: Job, body: seq<Block>, body': seq<Block>, anchor: Option<Block>, el: Block, k: nat, s: Pos,
                        s': Pos)
    requires MidJob(w, body, anchor, k, s) && w.ops[w.t].i2 - w.ops[w.t].i1 <= k < w.ops[w.t].j2 - w.ops[w.t].j1
    requires s.j < |w.new_| && |s.cur| == |w.old_| && InsertOk(w.old_, w.new_[s.j], anchor.Some?, w.stock)
    requires s' == AfterInsert(w.old_, s, w.new_[s.j]) && At(body', w.items, w.old_, s') && s.j < |body'|
        && body'[s.j] == el
    requires s.j <= |body| && forall m :: 0 <= m < s.j ==> body'[m] == body[m]
    requires Wrote(body', w.items, w.new_, w.ops, s.j + 1, w.stock.kinds)
    ensures InOp(w, body', Some(el), k + 1, s')
  {
    hide Aligns, At, Mid, PairOk, StepsOk, StepsBelow, StepOk, FirstOfStyle, ZipRows, Joined, Wrote;
    OpBounds(w.ops, w.old_, w.new_, w.t);
    MidInsert(w.ops, w.old_, w.new_, w.t, k, w.from, s);
    assert s'.j == s.j + 1 && Front(w, body', s') && Pairs(w.ops[w.t]) <= k;
    assert Mid(w.ops, w.old_, w.new_, w.t, k + 1, w.from, s');
    hide AfterInsert, Front;
    StepsGrow(w.ops, w.old_, w.new_, w.t, k, w.stock);
    StepSees(w.ops, w.old_, w.new_, w.t, k, w.stock, anchor.Some?);
    hide Anchored, Pairs;
  }

  /** ... one that inserts after the anchor ... */
  method InsertStep(doc: Document, items: seq<Block>, styles: map<string, Block>, anchor: Option<Block>, nb: NewBlock,
                    stock: Stock,
                    ghost w: Job, ghost k: nat, ghost s: Pos)
    returns (el: Option<Block>, ghost s': Pos)
    requires InOp(w, doc.body, anchor, k, s) && items == w.items && stock == w.stock && Templates(styles, items, w.old_)
    requires w.ops[w.t].i2 - w.ops[w.t].i1 <= k < w.ops[w.t].j2 - w.ops[w.t].j1 && nb == w.new_[w.ops[w.t].j1 + k]
    modifies doc
    ensures el.Some? ==> InOp(w, doc.body, el, k + 1, s')
    ensures el.None? ==> !StepsOk(w.ops, w.old_, w.new_, w.t, w.stock)
  {
    hide *;
    BeforeInsert(w, doc.body, anchor, k, s);
    ghost var body := doc.body;
    s' := s;
    el := InsertAt(doc, items, styles, anchor, nb, stock, w.old_, w.new_, w.ops, s);
    if el.Some? {
      s' := AfterInsert(w.old_, s, nb);
      AfterInsertStep(w, body, doc.body, anchor, el.value, k, s, s');
    }
  }

  lemma BeforeDelete(w: Job, body: seq<Block>, anchor: Option<Block>, k: nat, s: Pos)
    requires InOp(w, body, anchor, k, s) && w.ops[w.t].j2 - w.ops[w.t].j1 <= k < w.ops[w.t].i2 - w.ops[w.t].i1
    ensures w.ops[w.t].i1 + k == s.i < |w.items| && s.j <= |body|
    ensures At(body, w.items, w.old_, s) && MidJob(w, body, anchor, k, s)
    ensures Wrote(body, w.items, w.new_, w.ops, s.j, w.stock.kinds)
  {
  }

  lemma AfterDeleteStep(w: Job, body: seq<Block>, body': seq<Block>, anchor: Option<Block>, k: nat, s: Pos, s': Pos)
    requires MidJob(w, body, anchor, k, s) && w.ops[w.t].j2 - w.ops[w.t].j1 <= k < w.ops[w.t].i2 - w.ops[w.t].i1
    requires s' == Pos(s.i + 1, s.j, s.done, s.cur) && At(body', w.items, w.old_, s')
    requires s.j <= |body| && s.j <= |body'| && forall m :: 0 <= m < s.j ==> body'[m] == body[m]
    requires Wrote(body, w.items, w.new_, w.ops, s.j, w.stock.kinds)
    ensures InOp(w, body', anchor, k + 1, s')
  {
    hide Aligns, At, Mid, PairOk, InsertOk, StepsOk, StepsBelow, StepOk, FirstOfStyle, ZipRows, Joined, Wrote;
    OpBounds(w.ops, w.old_, w.new_, w.t);
    MidDelete(w.ops, w.old_, w.new_, w.t, k, w.from, s);
    WroteSame(body, body', w.items, w.new_, w.ops, s.j, w.stock.kinds);
    StepsGrow(w.ops, w.old_, w.new_, w.t, k, w.stock);
    StepSees(w.ops, w.old_, w.new_, w.t, k, w.stock, anchor.Some?);
  }

  /** ... and one that deletes an old node. */
  method DeleteStep(doc: Document, items: seq<Block>, i: nat, ghost w: Job, ghost anchor: Option<Block>, ghost k: nat,
                    ghost s: Pos)
    returns (ghost s': Pos)
    requires InOp(w, doc.body, anchor, k, s) && items == w.items && i < |items|
    requires w.ops[w.t].j2 - w.ops[w.t].j1 <= k < w.ops[w.t].i2 - w.ops[w.t].i1 && i == w.ops[w.t].i1 + k
    modifies doc
    ensures InOp(w, doc.body, anchor, k + 1, s')
  {
    hide *;
    BeforeDelete(w, doc.body, anchor, k, s);
    ghost var body := doc.body;
    DeleteAt(doc, items, i, w.old_, s);
    s' := Pos(s.i + 1, s.j, s.done, s.cur);
    AfterDeleteStep(w, body, doc.body, anchor, k, s, s');
  }

  lemma JobBounds(w: Job, body: seq<Block>, anchor: Option<Block>, k: nat, s: Pos)
    requires InOp(w, body, anchor, k, s)
    ensures w.t < |w.ops|
    ensures var op := w.ops[w.t];
            op.i1 <= op.i2 <= |w.items| && op.j1 <= op.j2 <= |w.new_|
                && (k < Steps(op) <==> k < op.i2 - op.i1 || k < op.j2 - op.j1)
    ensures forall h, h' :: 0 <= h < h' < |w.items| ==> w.items[h] != w.items[h']
  {
  }

  /** The body of the loop over k. */
  method StepK(doc: Document, items: seq<Block>, new_: seq<NewBlock>, op: Opcode, styles: map<string, Block>,
               stock: Stock,
               anchor: Option<Block>, k: nat, ghost w: Job, ghost s: Pos)
    returns (ok: bool, anchor': Option<Block>, ghost s': Pos)
    requires InOp(w, doc.body, anchor, k, s) && items == w.items && new_ == w.new_ && stock == w.stock
    requires op == w.ops[w.t] && Templates(styles, items, w.old_) && k < Steps(op)
    modifies doc, items
    ensures ok ==> InOp(w, doc.body, anchor', k + 1, s')
    ensures !ok ==> !StepsOk(w.ops, w.old_, w.new_, w.t, w.stock)
    ensures forall h :: 0 <= h < |items| && !(op.i1 <= h < op.i2) ==> Untouched(items[h])
  {
    hide InOp, MidJob, At, Mid, Templates, StepsOk, Aligns, Steps, Fixed, Wrote;
    JobBounds(w, doc.body, anchor, k, s);
    if k < op.i2 - op.i1 && k < op.j2 - op.j1 {
      ok, s' := SetStep(doc, items, op.i1 + k, new_[op.j1 + k], stock, w, anchor, k, s);
      anchor' := Some(items[op.i1 + k]);
    } else if k < op.j2 - op.j1 {
      anchor', s' := InsertStep(doc, items, styles, anchor, new_[op.j1 + k], stock, w, k, s);
      ok := anchor'.Some?;
    } else {
      s' := DeleteStep(doc, items, op.i1 + k, w, anchor, k, s);
      ok, anchor' := true, anchor;
    }
  }

  /** The loop over k for one opcode. */
  method ApplyOpcode(doc: Document, items: seq<Block>, new_: seq<NewBlock>, op: Opcode, styles: map<string, Block>,
                     stock: Stock,
                     ghost w: Job, ghost s0: Pos)
    returns (ok: bool, ghost s: Pos)
    requires Aligns(w.ops, w.old_, w.new_) && w.t < |w.ops| && w.ops[w.t] == op && !op.equal
        && Templates(styles, items, w.old_)
    requires items == w.items && new_ == w.new_ && stock == w.stock && doc.body == w.body0
    requires At(doc.body, items, w.old_, s0) && Mid(w.ops, w.old_, w.new_, w.t, 0, w.from, s0)
    requires Wrote(doc.body, items, new_, w.ops, s0.j, stock.kinds)
    requires op.j1 <= |doc.body| && (0 < op.i1 ==> 0 < op.j1 && doc.body[op.j1 - 1] == items[op.i1 - 1])
    modifies doc, items
    ensures ok <==> StepsOk(w.ops, w.old_, w.new_, w.t, stock)
    ensures ok ==> At(doc.body, items, w.old_, s) && Mid(w.ops, w.old_, w.new_, w.t, Steps(op), w.from, s)
    ensures ok ==> Wrote(doc.body, items, new_, w.ops, s.j, stock.kinds)
    ensures ok ==> op.j1 <= |doc.body| && forall m :: 0 <= m < op.j1 ==> doc.body[m] == w.body0[m]
    ensures forall h :: 0 <= h < |items| && !(op.i1 <= h < op.i2) ==> Untouched(items[h])
  {
    var n := Steps(op);
    var anchor: Option<Block> := if op.i1 != 0 then Some(items[op.i1 - 1]) else None;
    s := s0;
    assert 0 <= n;
    hide InOp, At, Mid, Templates, StepsOk, Aligns, Wrote;
    for k := 0 to n
      invariant InOp(w, doc.body, anchor, k, s)
      invariant forall h :: 0 <= h < |items| && !(op.i1 <= h < op.i2) ==> Untouched(items[h])
    {
      ok, anchor, s := StepK(doc, items, new_, op, styles, stock, anchor, k, w, s);
      if !ok {
        return;
      }
    }
    ok := true;
  }

  ghost function AllKinds(items: seq<Block>): set<string>
    reads items
  {
    set b, r | b in items && !b.isTable && r in b.runs :: r.kind
  }

  function KindsIn(x: Block): set<string>
    reads x
  {
    if x.isTable then {} else Kinds(x.runs)
  }

  /** The kinds of run that `Runs.__init__` finds in the body's paragraphs. */
  method KindsOf(items: seq<Block>) returns (kinds: set<string>)
    ensures kinds == AllKinds(items)
  {
    kinds := {};
    for k := 0 to |items|
      invariant kinds == AllKinds(items[..k])
    {
      assert items[..k + 1] == items[..k] + [items[k]];
      kinds := kinds + KindsIn(items[k]);
    }
    assert items[..|items|] == items;
  }

  lemma TemplatesNext(styles: map<string, Block>, items: seq<Block>, old_: seq<BlockText>, k: nat)
    requires k < |items| == |old_| && Templates(styles, items[..k], old_[..k])
    ensures Templates(if old_[k].ParaText? && old_[k].style !in styles then styles[old_[k].style := items[k]]
                      else styles,
                      items[..k + 1], old_[..k + 1])
  {
    forall s ensures FirstOfStyle(old_[..k + 1], s)
        == if FirstOfStyle(old_[..k], s) >= 0 then FirstOfStyle(old_[..k], s)
                                                       else if old_[k].ParaText? && old_[k].style == s then k else -1
    {
      assert old_[..k + 1][..k] == old_[..k];
    }
    hide FirstOfStyle;
  }

  /** Per style, the first paragraph (`setdefault` in document order). */
  method TemplatesOf(items: seq<Block>, ghost old_: seq<BlockText>) returns (styles: map<string, Block>)
    requires |items| == |old_| && forall h :: 0 <= h < |items| ==> items[h].Text() == old_[h]
    ensures Templates(styles, items, old_)
  {
    styles := map[];
    for k := 0 to |items|
      invariant Templates(styles, items[..k], old_[..k])
    {
      hide Templates;
      TemplatesNext(styles, items, old_, k);
      assert items[k].Text() == old_[k];
      if !items[k].isTable && items[k].style !in styles {
        styles := styles[items[k].style := items[k]];
      }
    }
    assert old_[..|items|] == old_ && items[..|items|] == items;
  }

  /** The finished blocks' texts are the first n opcodes' outcomes. */
  ghost predicate DoneBy(ops: seq<Opcode>, old_: seq<BlockText>, new_: seq<NewBlock>, n: nat, done: seq<BlockText>)
    requires Aligns(ops, old_, new_) && n <= |ops|
  {
    forall t, j :: 0 <= t < n && ops[t].j1 <= j < ops[t].j2 ==> DoneAt(ops, old_, new_, t, j, done)
  }

  ghost predicate DoneAt(ops: seq<Opcode>, old_: seq<BlockText>, new_: seq<NewBlock>, t: nat, j: nat,
                         done: seq<BlockText>)
    requires Aligns(ops, old_, new_) && t < |ops| && ops[t].j1 <= j < ops[t].j2
  {
    j < |done| && done[j] == Outcome(ops, old_, new_, t, j)
  }

  ghost predicate CurBy(ops: seq<Opcode>, old_: seq<BlockText>, new_: seq<NewBlock>, n: nat, cur: seq<string>)
    requires Aligns(ops, old_, new_) && n <= |ops|
  {
    && |cur| == |old_|
    && forall f :: 0 <= f < |old_| && old_[f].ParaText? ==> cur[f] == StyleAfter(ops, old_, new_, n, f)
  }

  /** The state between opcodes. */
  ghost predicate Between(ops: seq<Opcode>, old_: seq<BlockText>, new_: seq<NewBlock>, t: nat, s: Pos)
    requires Aligns(ops, old_, new_) && t <= |ops|
  {
    && s.i == EndOld(ops[..t]) && s.j == EndNew(ops[..t]) == |s.done|
    && DoneBy(ops, old_, new_, t, s.done) && CurBy(ops, old_, new_, t, s.cur)
  }

  lemma BetweenToMid(ops: seq<Opcode>, old_: seq<BlockText>, new_: seq<NewBlock>, t: nat, s: Pos)
    requires Aligns(ops, old_, new_) && t < |ops| && Between(ops, old_, new_, t, s)
    ensures s.i == ops[t].i1 && s.j == ops[t].j1 && Mid(ops, old_, new_, t, 0, s.done, s)
  {
  }

  lemma DoneNext(ops: seq<Opcode>, old_: seq<BlockText>, new_: seq<NewBlock>, t: nat, from: seq<BlockText>,
                 done: seq<BlockText>)
    requires Aligns(ops, old_, new_) && t < |ops| && DoneBy(ops, old_, new_, t, from)
    requires |from| == ops[t].j1 && |done| == ops[t].j2 && forall j :: 0 <= j < |from| ==> done[j] == from[j]
    requires forall j :: ops[t].j1 <= j < ops[t].j2 ==> done[j] == Outcome(ops, old_, new_, t, j)
    ensures DoneBy(ops, old_, new_, t + 1, done)
  {
    hide Outcome, Aligns;
    OpBounds(ops, old_, new_, t);
    forall t', j | 0 <= t' < t + 1 && ops[t'].j1 <= j < ops[t'].j2
      ensures DoneAt(ops, old_, new_, t', j, done)
    {
      if t' < t {
        OpsAscend(ops, old_, new_, t', t);
        assert DoneAt(ops, old_, new_, t', j, from);
      }
    }
  }

  lemma MidToBetween(ops: seq<Opcode>, old_: seq<BlockText>, new_: seq<NewBlock>, t: nat, from: seq<BlockText>, b: Pos,
                     s: Pos)
    requires Aligns(ops, old_, new_) && t < |ops| && !ops[t].equal
    requires Between(ops, old_, new_, t, b) && from == b.done && Mid(ops, old_, new_, t, Steps(ops[t]), from, s)
    ensures Between(ops, old_, new_, t + 1, s)
  {
    hide Outcome, FirstOfStyle, ZipRows, Joined;
    var op := ops[t];
    assert Min(Steps(op), Pairs(op)) == Pairs(op) && s.i == op.i2 && s.j == op.j2;
    forall j | 0 <= j < |from| ensures s.done[j] == from[j] {
      assert s.done[..op.j1][j] == from[j];
    }
    DoneNext(ops, old_, new_, t, from, s.done);
  }

  lemma BetweenKeep(ops: seq<Opcode>, old_: seq<BlockText>, new_: seq<NewBlock>, t: nat, s: Pos, next: Pos)
    requires Aligns(ops, old_, new_) && t < |ops| && ops[t].equal && Between(ops, old_, new_, t, s)
    requires next == Pos(ops[t].i2, ops[t].j2, s.done + old_[ops[t].i1..ops[t].i2], s.cur)
    ensures s.i == ops[t].i1 && s.j == ops[t].j1 && Between(ops, old_, new_, t + 1, next)
  {
    DoneNext(ops, old_, new_, t, s.done, next.done);
  }

  method TextsOf(body: seq<Block>) returns (texts: seq<BlockText>)
    ensures |texts| == |body| && forall m :: 0 <= m < |body| ==> texts[m] == body[m].Text()
  {
    texts := [];
    for m := 0 to |body|
      invariant |texts| == m && forall h :: 0 <= h < m ==> texts[h] == body[h].Text()
    {
      texts := texts + [body[m].Text()];
    }
  }

  /** Where op puts old block i is that very node. */
  ghost predicate KeptNode(body: seq<Block>, items: seq<Block>, op: Opcode, i: int) {
    0 <= i < |items| && 0 <= op.j1 + i - op.i1 < |body| && body[op.j1 + i - op.i1] == items[i]
  }

  /** Every block the alignment keeps is the old node. */
  ghost predicate KeptNodes(body: seq<Block>, items: seq<Block>, ops: seq<Opcode>, n: nat)
    requires n <= |ops|
  {
    forall t, i :: 0 <= t < n && Keeps(ops[t], i) ==> KeptNode(body, items, ops[t], i)
  }

  /** The loop over opcodes, before opcode t. */
  ghost predicate OpsDone(body: seq<Block>, items: seq<Block>, old_: seq<BlockText>, new_: seq<NewBlock>,
                          ops: seq<Opcode>,
                          t: nat, stock: Stock, s: Pos)
    requires Aligns(ops, old_, new_) && t <= |ops| && |items| == |old_|
    reads body, items
  {
    && At(body, items, old_, s) && Between(ops, old_, new_, t, s) && KeptNodes(body, items, ops, t)
    && Wrote(body, items, new_, ops, s.j, stock.kinds)
    && forall h :: 0 <= h < t ==> StepsOk(ops, old_, new_, h, stock)
  }

  /** Blocks that are kept are not written. */
  lemma WroteKept(body: seq<Block>, items: seq<Block>, old_: seq<BlockText>, new_: seq<NewBlock>, ops: seq<Opcode>,
                  t: nat, kinds: set<string>)
    requires Aligns(ops, old_, new_) && t < |ops| && ops[t].equal && ops[t].j2 <= |body|
    requires Wrote(body, items, new_, ops, ops[t].j1, kinds)
    ensures Wrote(body, items, new_, ops, ops[t].j2, kinds)
  {
    hide RunsAre, Kinds;
    OpBounds(ops, old_, new_, t);
    forall m, h | ops[t].j1 <= m < ops[t].j2 && 0 <= h < |ops| ensures !Covers(ops[h], m) {
      if h < t { OpsAscend(ops, old_, new_, h, t); }
      if t < h { OpsAscend(ops, old_, new_, t, h); }
    }
    hide Aligns;
  }

  lemma EqualStep(body: seq<Block>, items: seq<Block>, old_: seq<BlockText>, new_: seq<NewBlock>, ops: seq<Opcode>,
                  t: nat, stock: Stock, s: Pos, next: Pos)
    requires Aligns(ops, old_, new_) && t < |ops| && |items| == |old_| && ops[t].equal
    requires OpsDone(body, items, old_, new_, ops, t, stock, s)
    requires next == Pos(ops[t].i2, ops[t].j2, s.done + old_[ops[t].i1..ops[t].i2], s.cur)
    ensures OpsDone(body, items, old_, new_, ops, t + 1, stock, next)
  {
    hide At, Between, StepsOk, Wrote;
    BetweenKeep(ops, old_, new_, t, s, next);
    KeepRange(body, items, old_, s, ops[t].i2);
    var last := ops[t].i2 - 1;
    var x := items[last];
    assert s.j + last - s.i < |body| && body[s.j + last - s.i] == x;
    WroteKept(body, items, old_, new_, ops, t, stock.kinds);
    EqualIsOk(ops, old_, new_, t, stock);
    forall h, i | 0 <= h < t + 1 && Keeps(ops[h], i) ensures KeptNode(body, items, ops[h], i) {
      if h == t {
        var x := items[i];
        assert s.j + i - s.i < |body| && body[s.j + i - s.i] == x;
      }
    }
  }

  /** One opcode of the loop. */
  method OpcodeStep(doc: Document, items: seq<Block>, new_: seq<NewBlock>, op: Opcode, styles: map<string, Block>,
                    stock: Stock,
                    ghost old_: seq<BlockText>, ghost ops: seq<Opcode>, ghost t: nat, ghost b: Pos)
    returns (ok: bool, ghost s: Pos)
    requires Aligns(ops, old_, new_) && t < |ops| && |items| == |old_| && ops[t] == op && Templates(styles, items, old_)
    requires OpsDone(doc.body, items, old_, new_, ops, t, stock, b)
    modifies doc, items
    ensures ok ==> OpsDone(doc.body, items, old_, new_, ops, t + 1, stock, s)
    ensures !ok ==> !StepsOk(ops, old_, new_, t, stock)
    ensures forall i :: KeptOld(ops, i) && 0 <= i < |items| ==> Untouched(items[i])
  {
    hide At, Between, Templates, StepsOk, Mid, KeptNodes, KeptOld, Wrote;
    if op.equal {
      s := Pos(op.i2, op.j2, b.done + old_[op.i1..op.i2], b.cur);
      EqualStep(doc.body, items, old_, new_, ops, t, stock, b, s);
      return true, s;
    }
    BetweenToMid(ops, old_, new_, t, b);
    AnchorKept(doc.body, items, old_, new_, ops, t, b);
    OutsideOpcode(old_, new_, ops, t);
    ghost var body0 := doc.body;
    ok, s := ApplyOpcode(doc, items, new_, op, styles, stock,
                         Job(items, old_, new_, ops, t, stock, b.done, body0), b);
    if ok {
      KeptStable(body0, doc.body, items, old_, new_, ops, t);
      MidToBetween(ops, old_, new_, t, b.done, b, s);
    }
  }

  /** Every paragraph that is written has its spans as runs. */
  ghost predicate SpansWritten(body: seq<Block>, new_: seq<NewBlock>, ops: seq<Opcode>, kinds: set<string>)
    reads body
  {
    && |body| == |new_|
    && forall j :: 0 <= j < |new_| && Written(ops, j) && new_[j].NewPara? ==>
         RunsAre(body[j].runs, new_[j].spans, kinds)
  }

  /** The loop over opcodes. */
  method ApplyAll(doc: Document, old_: seq<BlockText>, new_: seq<NewBlock>, ops: seq<Opcode>,
                  styles: map<string, Block>, stock: Stock)
    returns (ok: bool, ghost s: Pos)
    requires Aligns(ops, old_, new_) && TextsAre(doc.body, old_) && Templates(styles, doc.body, old_)
    requires forall m, m' :: 0 <= m < m' < |doc.body| ==> doc.body[m] != doc.body[m']
    requires stock.kinds == AllKinds(doc.body)
    modifies doc, doc.body
    ensures ok ==> SpansWritten(doc.body, new_, ops, stock.kinds)
    ensures ok <==> Applicable(ops, old_, new_, stock)
    ensures ok ==> IsResult(ops, old_, new_, s.done) && TextsAre(doc.body, s.done)
    ensures ok ==> KeptNodes(doc.body, old(doc.body), ops, |ops|)
    ensures forall i :: KeptOld(ops, i) && 0 <= i < |old(doc.body)| ==> Untouched(old(doc.body)[i])
  {
    hide OpsDone, Templates, StepsOk, KeptNodes, KeptOld, TextsAre, IsResult, Aligns, AllKinds, SpansWritten;
    var items := doc.body;
    s := Pos(0, 0, [], seq(|old_|, f requires 0 <= f < |old_| => if old_[f].ParaText? then old_[f].style else ""));
    OpsStart(doc.body, items, old_, new_, ops, stock, s);
    for t := 0 to |ops|
      invariant OpsDone(doc.body, items, old_, new_, ops, t, stock, s)
      invariant forall i :: KeptOld(ops, i) && 0 <= i < |items| ==> Untouched(items[i])
    {
      ok, s := OpcodeStep(doc, items, new_, ops[t], styles, stock, old_, ops, t, s);
      if !ok {
        return;
      }
    }
    AtEnd(doc.body, items, old_, new_, ops, stock, s);
    ok := true;
  }

  lemma OpsStart(body: seq<Block>, items: seq<Block>, old_: seq<BlockText>, new_: seq<NewBlock>, ops: seq<Opcode>,
                 stock: Stock, s: Pos)
    requires Aligns(ops, old_, new_) && items == body && TextsAre(body, old_)
    requires forall m, m' :: 0 <= m < m' < |body| ==> body[m] != body[m']
    requires s.i == s.j == 0 && s.done == [] && |s.cur| == |old_|
    requires forall f :: 0 <= f < |old_| && old_[f].ParaText? ==> s.cur[f] == old_[f].style
    requires stock.kinds == AllKinds(items)
    ensures |items| == |old_| && OpsDone(body, items, old_, new_, ops, 0, stock, s)
  {
    assert ops[..0] == [];
  }

  lemma AtEnd(body: seq<Block>, items: seq<Block>, old_: seq<BlockText>, new_: seq<NewBlock>, ops: seq<Opcode>,
              stock: Stock, s: Pos)
    requires Aligns(ops, old_, new_) && |items| == |old_| && OpsDone(body, items, old_, new_, ops, |ops|, stock, s)
    ensures IsResult(ops, old_, new_, s.done) && TextsAre(body, s.done) && KeptNodes(body, items, ops, |ops|)
    ensures Applicable(ops, old_, new_, stock) && SpansWritten(body, new_, ops, stock.kinds)
  {
    hide Outcome;
    assert ops[..|ops|] == ops;
    forall t, j | 0 <= t < |ops| && ops[t].j1 <= j < ops[t].j2 ensures s.done[j] == Outcome(ops, old_, new_, t, j) {
      assert DoneAt(ops, old_, new_, t, j, s.done);
    }
  }

  /** The whole edit, with the check at its end. It succeeds exactly when the document is the
      old revision, every step can be done, templates keep their style and tables their shape;
      the document's blocks then are the new revision's. Whenever the steps can be done, the
      blocks the alignment keeps are the old nodes, untouched, and the paragraphs that are set
      or inserted have one run per span, of its kind if the document had a run of that kind, and
      plain otherwise. */
  method Update(doc: Document, old_: seq<BlockText>, new_: seq<NewBlock>, ops: seq<Opcode>)
    returns (r: Result<()>, ghost stock: Stock)
    requires Aligns(ops, old_, new_)
    requires forall m, m' :: 0 <= m < m' < |doc.body| ==> doc.body[m] != doc.body[m']
    modifies doc, doc.body
    ensures stock == Stock(old(AllKinds(doc.body)), doc.styles)
    ensures r.Ok? <==> old(TextsAre(doc.body, old_)) && Applicable(ops, old_, new_, stock) && Faithful(ops, old_, new_)
    ensures r.Ok? ==> TextsAre(doc.body, BTexts(new_))
    ensures old(TextsAre(doc.body, old_)) && Applicable(ops, old_, new_, stock) ==>
              && KeptNodes(doc.body, old(doc.body), ops, |ops|)
              && SpansWritten(doc.body, new_, ops, old(AllKinds(doc.body)))
    ensures forall i :: KeptOld(ops, i) && 0 <= i < |old(doc.body)| ==> Untouched(old(doc.body)[i])
  {
    hide StepsOk, KeptNodes, KeptOld, IsResult, Faithful, BText, AllKinds, SpansWritten;
    var items := doc.body;
    var kinds := KindsOf(items);
    var had := Stock(kinds, doc.styles);
    stock := had;
    var got := TextsOf(items);
    if got != old_ {
      return Err("old md does not reproduce the docx"), stock;
    }
    var styles := TemplatesOf(items, old_);
    var ok, s := ApplyAll(doc, old_, new_, ops, styles, had);
    if !ok {
      return Err("a step cannot be done"), stock;
    }
    var check := TextsOf(doc.body);
    assert check == s.done;
    ResultIsNew(ops, old_, new_, s.done);
    if check != BTexts(new_) {
      return Err("result differs from the new md"), stock;
    }
    r := Ok(());
  }

  ghost predicate Applicable(ops: seq<Opcode>, old_: seq<BlockText>, new_: seq<NewBlock>, stock: Stock)
    requires Aligns(ops, old_, new_)
  {
    forall t :: 0 <= t < |ops| ==> StepsOk(ops, old_, new_, t, stock)
  }

  ghost predicate TextsAre(body: seq<Block>, texts: seq<BlockText>)
    reads body
  {
    |texts| == |body| && forall m :: 0 <= m < |body| ==> body[m].Text() == texts[m]
  }

  predicate Keeps(op: Opcode, i: int) {
    op.equal && op.i1 <= i < op.i2
  }

  /** Old block i is kept by the alignment. */
  ghost predicate KeptOld(ops: seq<Opcode>, i: int) {
    exists t :: 0 <= t < |ops| && Keeps(ops[t], i)
  }

  lemma EqualIsOk(ops: seq<Opcode>, old_: seq<BlockText>, new_: seq<NewBlock>, t: nat, stock: Stock)
    requires Aligns(ops, old_, new_) && t < |ops| && ops[t].equal
    ensures StepsOk(ops, old_, new_, t, stock)
  {
  }

  /** The node before an edited range is the last finished block: an insert's anchor is
      still in the document. */
  lemma AnchorKept(body: seq<Block>, items: seq<Block>, old_: seq<BlockText>, new_: seq<NewBlock>, ops: seq<Opcode>,
                   t: nat, s: Pos)
    requires Aligns(ops, old_, new_) && t < |ops| && !ops[t].equal
    requires At(body, items, old_, s) && s.j == ops[t].j1 && |items| == |old_| && KeptNodes(body, items, ops, t)
    ensures ops[t].j1 <= |body|
    ensures 0 < ops[t].i1 ==> 0 < ops[t].j1 && body[ops[t].j1 - 1] == items[ops[t].i1 - 1]
  {
    if 0 < ops[t].i1 {
      hide Aligns, At;
      assert Keeps(ops[t - 1], ops[t].i1 - 1) && KeptNode(body, items, ops[t - 1], ops[t].i1 - 1);
    }
  }

  lemma KeptStable(body: seq<Block>, body': seq<Block>, items: seq<Block>, old_: seq<BlockText>, new_: seq<NewBlock>,
                   ops: seq<Opcode>, t: nat)
    requires Aligns(ops, old_, new_) && t < |ops| && !ops[t].equal && |items| == |old_|
        && KeptNodes(body, items, ops, t)
    requires ops[t].j1 <= |body| && ops[t].j1 <= |body'| && forall m :: 0 <= m < ops[t].j1 ==> body'[m] == body[m]
    ensures KeptNodes(body', items, ops, t + 1)
  {
    forall h, i | 0 <= h < t + 1 && Keeps(ops[h], i) ensures KeptNode(body', items, ops[h], i) {
      assert KeptNode(body, items, ops[h], i);
      OpsAscend(ops, old_, new_, h, t);
    }
  }

  lemma OutsideOpcode(old_: seq<BlockText>, new_: seq<NewBlock>, ops: seq<Opcode>, t: nat)
    requires Aligns(ops, old_, new_) && t < |ops| && !ops[t].equal
    ensures forall i :: KeptOld(ops, i) ==> !(ops[t].i1 <= i < ops[t].i2)
  {
    forall h | 0 <= h < |ops| && ops[h].equal ensures ops[h].i2 <= ops[t].i1 || ops[t].i2 <= ops[h].i1 {
      if h < t { OpsAscend(ops, old_, new_, h, t); } else { OpsAscend(ops, old_, new_, t, h); }
    }
  }

  const OLD_HEADED := [ParaText("Heading 2", "A"), ParaText("Normal", "x")]

  const NEW_HEADED := [NewPara("Normal", [Span("B", "plain")], false), NewPara("Normal", [Span("x", "plain")], false),
                       NewPara("Heading 2", [Span("C", "plain")], false)]

  const HEADED_OPS := [Opcode(false, 0, 1, 0, 1), Opcode(true, 1, 2, 1, 2), Opcode(false, 2, 2, 2, 3)]

  lemma HeadedAligns()
    ensures Aligns(HEADED_OPS, OLD_HEADED, NEW_HEADED)
  {
    assert NEW_HEADED[1].spans[..0] == [];
    assert BText(NEW_HEADED[1]) == OLD_HEADED[1];
    hide Joined;
    assert Matches(HEADED_OPS[1], OLD_HEADED, NEW_HEADED);
    hide Matches;
  }

  /** Where a restyled template makes the loop's result differ from the new revision:
      the only heading becomes a paragraph, and a heading is inserted after that. */
  lemma RestyledTemplate()
    ensures Aligns(HEADED_OPS, OLD_HEADED, NEW_HEADED)
    ensures Outcome(HEADED_OPS, OLD_HEADED, NEW_HEADED, 2, 2) == ParaText("Normal", "C")
    ensures !Faithful(HEADED_OPS, OLD_HEADED, NEW_HEADED)
  {
    HeadedAligns();
    hide Aligns;
    assert NEW_HEADED[2].spans[..0] == [];
    assert FirstOfStyle(OLD_HEADED[..1], "Heading 2") == 0;
    assert StyleAfter(HEADED_OPS, OLD_HEADED, NEW_HEADED, 1, 0) == "Normal";
    assert StyleAfter(HEADED_OPS, OLD_HEADED, NEW_HEADED, 2, 0) == "Normal";
    OutcomeIsNew(HEADED_OPS, OLD_HEADED, NEW_HEADED, 2, 2);
    assert Inserts(HEADED_OPS[2], 2);
  }
}
