/** Text replacement over a paragraph whose text is split into runs
    (scripts/deck_edit.py, replace_in_paragraph). */
module Replacement {
  import opened TextTree

  // ------------------------------------------------------------ the flat edit

  /** Leftmost non-overlapping replacement on a plain string. */
  ghost function ReplaceAll(s: string, find: string, repl: string): string
    requires find != ""
    decreases |s|
  {
    if |s| < |find| then s
    else if s[..|find|] == find then repl + ReplaceAll(s[|find|..], find, repl)
    else [s[0]] + ReplaceAll(s[1..], find, repl)
  }

  /** How many matches `ReplaceAll` replaces. */
  ghost function CountAll(s: string, find: string): nat
    requires find != ""
    decreases |s|
  {
    if |s| < |find| then 0
    else if s[..|find|] == find then 1 + CountAll(s[|find|..], find)
    else CountAll(s[1..], find)
  }

  predicate OccursAt(s: string, find: string, i: int) {
    0 <= i && i + |find| <= |s| && s[i..i + |find|] == find
  }

  /** `str.find`: the first occurrence at or after `pos`, or -1. */
  function Find(s: string, find: string, pos: nat): (i: int)
    requires pos <= |s|
    ensures i == -1 || pos <= i
    ensures i >= 0 ==> OccursAt(s, find, i)
    ensures forall j :: pos <= j && (i < 0 || j < i) ==> !OccursAt(s, find, j)
    decreases |s| - pos
  {
    if OccursAt(s, find, pos) then pos
    else if pos == |s| then -1
    else Find(s, find, pos + 1)
  }

  /** The starts of the matches the scan finds from `pos` on. */
  ghost function Matches(s: string, find: string, pos: nat): seq<nat>
    requires find != "" && pos <= |s|
    decreases |s| - pos
  {
    var i := Find(s, find, pos);
    if i < 0 then [] else [i] + Matches(s, find, i + |find|)
  }

  /** Ascending starts, room for `n` characters each, no overlap. */
  ghost predicate Spaced(starts: seq<nat>, n: nat, lo: nat, hi: nat) {
    && (forall m :: 0 <= m < |starts| ==> lo <= starts[m] && starts[m] + n <= hi)
    && (forall m, m' :: 0 <= m < m' < |starts| ==> starts[m] + n <= starts[m'])
  }

  lemma {:induction false} MatchesSpaced(s: string, find: string, pos: nat)
    requires find != "" && pos <= |s|
    ensures Spaced(Matches(s, find, pos), |find|, pos, |s|)
    decreases |s| - pos
  {
    hide Find;
    var i := Find(s, find, pos);
    if i >= 0 {
      MatchesSpaced(s, find, i + |find|);
    }
  }

  // ------------------------------------------- what each character turns into

  ghost predicate Inside(starts: seq<nat>, n: nat, x: int) {
    exists m :: 0 <= m < |starts| && starts[m] <= x < starts[m] + n
  }

  /** The output of the characters in [lo, hi): a match start yields the whole
      replacement, the rest of a match yields nothing, any other character
      yields itself. */
  ghost function Emit(s: string, starts: seq<nat>, n: nat, repl: string, lo: nat, hi: nat): string
    requires lo <= hi <= |s|
    decreases hi - lo
  {
    if lo == hi then ""
    else (if lo in starts then repl else if Inside(starts, n, lo) then "" else [s[lo]])
         + Emit(s, starts, n, repl, lo + 1, hi)
  }

  lemma {:induction false} EmitSplit(s: string, starts: seq<nat>, n: nat, repl: string, lo: nat, mid: nat, hi: nat)
    requires lo <= mid <= hi <= |s|
    ensures Emit(s, starts, n, repl, lo, hi) == Emit(s, starts, n, repl, lo, mid) + Emit(s, starts, n, repl, mid, hi)
    decreases mid - lo
  {
    if lo < mid { EmitSplit(s, starts, n, repl, lo + 1, mid, hi); }
  }

  lemma {:induction false} EmitPlain(s: string, starts: seq<nat>, n: nat, repl: string, lo: nat, hi: nat)
    requires lo <= hi <= |s| && 0 < n
    requires forall x :: lo <= x < hi ==> !Inside(starts, n, x)
    ensures Emit(s, starts, n, repl, lo, hi) == s[lo..hi]
    decreases hi - lo
  {
    if lo < hi {
      assert !Inside(starts, n, lo);
      assert lo !in starts;
      EmitPlain(s, starts, n, repl, lo + 1, hi);
    }
  }

  lemma {:induction false} EmitInside(s: string, starts: seq<nat>, n: nat, repl: string, lo: nat, hi: nat)
    requires lo <= hi <= |s|
    requires forall x :: lo <= x < hi ==> x !in starts && Inside(starts, n, x)
    ensures Emit(s, starts, n, repl, lo, hi) == ""
    decreases hi - lo
  {
    if lo < hi {
      assert Inside(starts, n, lo);
      EmitInside(s, starts, n, repl, lo + 1, hi);
    }
  }

  lemma {:induction false} EmitAgree(s: string, a: seq<nat>, b: seq<nat>, n: nat, repl: string, lo: nat, hi: nat)
    requires lo <= hi <= |s|
    requires forall x :: lo <= x < hi ==> (x in a <==> x in b) && (Inside(a, n, x) <==> Inside(b, n, x))
    ensures Emit(s, a, n, repl, lo, hi) == Emit(s, b, n, repl, lo, hi)
    decreases hi - lo
  {
    if lo < hi {
      assert Inside(a, n, lo) <==> Inside(b, n, lo);
      EmitAgree(s, a, b, n, repl, lo + 1, hi);
    }
  }

  /** What putting one more match in front changes, position by position. */
  lemma HeadMatch(starts: seq<nat>, n: nat, hi: nat, x: nat)
    requires 0 < |starts| && 0 < n && Spaced(starts, n, 0, hi)
    ensures x in starts <==> x == starts[0] || x in starts[1..]
    ensures Inside(starts, n, x) <==> starts[0] <= x < starts[0] + n || Inside(starts[1..], n, x)
    ensures x < starts[0] + n ==> x !in starts[1..] && !Inside(starts[1..], n, x)
  {
  }

  /** A run that overlaps the first match: its text before that match is replaced ... */
  lemma AroundBefore(s: string, starts: seq<nat>, n: nat, repl: string, b: nat, hi: nat, e: nat)
    requires 0 < |starts| && 0 < n && Spaced(starts, n, 0, |s|) && b <= hi <= e <= |s| && hi <= starts[0] + n
    ensures Emit(s, starts[1..], n, repl, b, e) == s[b..hi] + Emit(s, starts[1..], n, repl, hi, e)
  {
    forall x: nat | x < hi ensures !Inside(starts[1..], n, x) { HeadMatch(starts, n, |s|, x); }
    EmitSplit(s, starts[1..], n, repl, b, hi, e);
    EmitPlain(s, starts[1..], n, repl, b, hi);
  }

  /** ... and after it is. */
  lemma AroundAfter(s: string, starts: seq<nat>, n: nat, repl: string, b: nat, lo: nat, hi: nat, e: nat)
    requires 0 < |starts| && 0 < n && Spaced(starts, n, 0, |s|) && b <= lo < hi <= e <= |s|
    requires lo == if b <= starts[0] then starts[0] else b
    requires hi == if e <= starts[0] + n then e else starts[0] + n
    ensures Emit(s, starts, n, repl, b, e)
         == s[b..lo] + (if b <= starts[0] then repl else "") + Emit(s, starts[1..], n, repl, hi, e)
  {
    hide Emit, Inside;
    var s0, rest := starts[0], starts[1..];
    forall x: nat | x < |s|
      ensures x in starts <==> x == s0 || x in rest
      ensures Inside(starts, n, x) <==> s0 <= x < s0 + n || Inside(rest, n, x)
      ensures x < s0 + n ==> x !in rest && !Inside(rest, n, x)
    { HeadMatch(starts, n, |s|, x); }
    EmitSplit(s, starts, n, repl, b, lo, e);
    EmitPlain(s, starts, n, repl, b, lo);
    EmitSplit(s, starts, n, repl, lo, hi, e);
    EmitAgree(s, starts, rest, n, repl, hi, e);
    var next := if b <= s0 then lo + 1 else lo;
    EmitInside(s, starts, n, repl, next, hi);
    MatchOutput(s, starts, n, repl, lo, hi);
  }

  /** The part of the first match from `lo` on. */
  lemma MatchOutput(s: string, starts: seq<nat>, n: nat, repl: string, lo: nat, hi: nat)
    requires 0 < |starts| && starts[0] <= lo < hi <= |s|
    requires lo in starts <==> lo == starts[0]
    requires Inside(starts, n, lo)
    requires Emit(s, starts, n, repl, if lo == starts[0] then lo + 1 else lo, hi) == ""
    ensures Emit(s, starts, n, repl, lo, hi) == if lo == starts[0] then repl else ""
  {
  }

  /** The right-to-left splice against the original bounds: cutting the match
      that starts first out of a run whose later matches are already replaced. */
  lemma SpliceOne(s: string, starts: seq<nat>, n: nat, repl: string, b: nat, e: nat)
    requires 0 < |starts| && 0 < n && Spaced(starts, n, 0, |s|) && b <= e <= |s|
    ensures var s0, e0 := starts[0], starts[0] + n;
            var before, after := Emit(s, starts[1..], n, repl, b, e), Emit(s, starts, n, repl, b, e);
            && (e <= s0 || e0 <= b ==> after == before)
            && (b <= s0 < e ==> s0 - b <= |before|)
            && (b < e0 <= e ==> e0 - b <= |before|)
            && (b <= s0 && e0 <= e ==> after == before[..s0 - b] + repl + before[e0 - b..])
            && (b <= s0 < e <= e0 ==> after == before[..s0 - b] + repl)
            && (s0 < b && e <= e0 ==> after == "")
            && (s0 < b < e0 <= e ==> after == before[e0 - b..])
  {
    hide Emit, Inside;
    var s0, e0, rest := starts[0], starts[0] + n, starts[1..];
    if b == e {
      EmitPlain(s, rest, n, repl, b, e);
      EmitPlain(s, starts, n, repl, b, e);
    } else if e <= s0 || e0 <= b {
      forall x: nat | x < |s|
        ensures x in starts <==> x == s0 || x in rest
        ensures Inside(starts, n, x) <==> s0 <= x < e0 || Inside(rest, n, x)
      { HeadMatch(starts, n, |s|, x); }
      EmitAgree(s, starts, rest, n, repl, b, e);
    } else {
      var lo := if b <= s0 then s0 else b;
      var hi := if e <= e0 then e else e0;
      AroundBefore(s, starts, n, repl, b, hi, e);
      AroundAfter(s, starts, n, repl, b, lo, hi, e);
      var left, tail := s[b..hi], Emit(s, rest, n, repl, hi, e);
      assert left[..lo - b] == s[b..lo];
      assert (left + tail)[..lo - b] == s[b..lo];
      assert (left + tail)[hi - b..] == tail;
      if hi == e { EmitPlain(s, rest, n, repl, e, e); }
    }
  }

  lemma MatchesStep(s: string, find: string, pos: nat)
    requires find != "" && pos < |s|
    ensures OccursAt(s, find, pos) ==> Matches(s, find, pos) == [pos] + Matches(s, find, pos + |find|)
    ensures !OccursAt(s, find, pos) ==> Matches(s, find, pos) == Matches(s, find, pos + 1)
  {
  }

  lemma ReplaceStep(s: string, find: string, repl: string, pos: nat)
    requires find != "" && pos + |find| <= |s|
    ensures OccursAt(s, find, pos) ==>
              && ReplaceAll(s[pos..], find, repl) == repl + ReplaceAll(s[pos + |find|..], find, repl)
              && CountAll(s[pos..], find) == 1 + CountAll(s[pos + |find|..], find)
    ensures !OccursAt(s, find, pos) ==>
              && ReplaceAll(s[pos..], find, repl) == [s[pos]] + ReplaceAll(s[pos + 1..], find, repl)
              && CountAll(s[pos..], find) == CountAll(s[pos + 1..], find)
  {
  }

  /** A match at the head of what is left. */
  lemma EmitHead(s: string, rest: seq<nat>, n: nat, repl: string, pos: nat)
    requires 0 < n && pos + n <= |s| && Spaced(rest, n, pos + n, |s|)
    ensures Emit(s, [pos] + rest, n, repl, pos, |s|) == repl + Emit(s, rest, n, repl, pos + n, |s|)
  {
    hide Emit, Inside;
    var starts := [pos] + rest;
    assert starts[1..] == rest;
    AroundAfter(s, starts, n, repl, pos, pos, pos + n, |s|);
    assert s[pos..pos] == "";
  }

  lemma EmitSkip(s: string, starts: seq<nat>, n: nat, repl: string, pos: nat)
    requires 0 < n && pos < |s| && Spaced(starts, n, pos + 1, |s|)
    ensures Emit(s, starts, n, repl, pos, |s|) == [s[pos]] + Emit(s, starts, n, repl, pos + 1, |s|)
  {
  }

  lemma TooShort(s: string, find: string, repl: string, pos: nat)
    requires find != "" && pos <= |s| && |s| - pos < |find|
    ensures Matches(s, find, pos) == []
    ensures Emit(s, [], |find|, repl, pos, |s|) == ReplaceAll(s[pos..], find, repl)
    ensures CountAll(s[pos..], find) == 0
  {
    EmitPlain(s, [], |find|, repl, pos, |s|);
  }

  /** Emitting every character of a string in order is the flat edit. */
  lemma {:induction false} EmitIsReplaceAll(s: string, find: string, repl: string, pos: nat)
    requires find != "" && pos <= |s|
    ensures Emit(s, Matches(s, find, pos), |find|, repl, pos, |s|) == ReplaceAll(s[pos..], find, repl)
    ensures |Matches(s, find, pos)| == CountAll(s[pos..], find)
    decreases |s| - pos
  {
    hide *;
    var n := |find|;
    if |s| - pos < n {
      TooShort(s, find, repl, pos);
    } else {
      MatchesStep(s, find, pos);
      ReplaceStep(s, find, repl, pos);
      if OccursAt(s, find, pos) {
        EmitIsReplaceAll(s, find, repl, pos + n);
        MatchesSpaced(s, find, pos + n);
        EmitHead(s, Matches(s, find, pos + n), n, repl, pos);
      } else {
        EmitIsReplaceAll(s, find, repl, pos + 1);
        MatchesSpaced(s, find, pos + 1);
        EmitSkip(s, Matches(s, find, pos + 1), n, repl, pos);
      }
    }
  }

  // --------------------------------------------------- the run-by-run algorithm

  /** Concatenation of the run texts. */
  ghost function JoinAll(texts: seq<string>): string {
    if texts == [] then "" else texts[0] + JoinAll(texts[1..])
  }

  ghost function Offset(texts: seq<string>, k: nat): nat
    requires k <= |texts|
  {
    |JoinAll(texts[..k])|
  }

  /** Where run k's text begins and ends in the joined text. */
  ghost function Extent(texts: seq<string>, k: nat): (nat, nat)
    requires k < |texts|
  {
    (Offset(texts, k), Offset(texts, k + 1))
  }

  lemma {:induction false} FlatAppend(a: seq<string>, b: seq<string>)
    ensures JoinAll(a + b) == JoinAll(a) + JoinAll(b)
  {
    if a == [] {
      assert a + b == b;
    } else {
      assert (a + b)[1..] == a[1..] + b;
      FlatAppend(a[1..], b);
    }
  }

  lemma OffsetStep(texts: seq<string>, k: nat)
    requires k < |texts|
    ensures Offset(texts, k + 1) == Offset(texts, k) + |texts[k]|
    ensures Offset(texts, k + 1) <= |JoinAll(texts)|
    ensures JoinAll(texts)[Offset(texts, k)..Offset(texts, k + 1)] == texts[k]
  {
    assert texts[..k + 1] == texts[..k] + [texts[k]];
    FlatAppend(texts[..k], [texts[k]]);
    assert texts == texts[..k + 1] + texts[k + 1..];
    FlatAppend(texts[..k + 1], texts[k + 1..]);
  }

  /** bounds[k] is where run k's text begins and ends in the segment's text. */
  ghost predicate IsBounds(bounds: seq<(nat, nat)>, total: nat) {
    && 0 < |bounds| && bounds[0].0 == 0 && bounds[|bounds| - 1].1 == total
    && (forall k :: 0 <= k < |bounds| ==> bounds[k].0 <= bounds[k].1)
    && (forall k :: 0 < k < |bounds| ==> bounds[k].0 == bounds[k - 1].1)
  }

  lemma {:induction false} BoundsAscend(bounds: seq<(nat, nat)>, total: nat, k: nat, k': nat)
    requires IsBounds(bounds, total) && k < k' < |bounds|
    ensures bounds[k].1 <= bounds[k'].0
    decreases k'
  {
    if k + 1 < k' { BoundsAscend(bounds, total, k, k' - 1); }
  }

  /** The run that holds the character at `x`. */
  lemma {:induction false} OwnerExists(bounds: seq<(nat, nat)>, total: nat, x: nat, k: nat)
    requires IsBounds(bounds, total) && k < |bounds| && x < bounds[k].1
    ensures exists i :: 0 <= i <= k && bounds[i].0 <= x < bounds[i].1
    decreases k
  {
    if bounds[k].0 <= x {
    } else {
      OwnerExists(bounds, total, x, k - 1);
    }
  }

  /** The inner `run_at`: the first run with `off` in [s, e), or in (s, e] when `end`. */
  method RunAt(bounds: seq<(nat, nat)>, total: nat, off: nat, end: bool) returns (k: nat)
    requires IsBounds(bounds, total)
    requires if end then 0 < off <= total else off < total
    ensures k < |bounds|
    ensures if end then bounds[k].0 < off <= bounds[k].1 else bounds[k].0 <= off < bounds[k].1
  {
    k := 0;
    while k < |bounds|
      invariant k <= |bounds|
      invariant forall i :: 0 <= i < k ==>
                  !(if end then bounds[i].0 < off <= bounds[i].1 else bounds[i].0 <= off < bounds[i].1)
    {
      if if end then bounds[k].0 < off <= bounds[k].1 else bounds[k].0 <= off < bounds[k].1 {
        return;
      }
      k := k + 1;
    }
    OwnerExists(bounds, total, if end then off - 1 else off, |bounds| - 1);
    assert false;
  }

  /** Every run's text is what its own characters turn into. */
  ghost predicate RunsEmit(texts: seq<string>, full: string, bounds: seq<(nat, nat)>, starts: seq<nat>, n: nat,
                           repl: string)
    requires IsBounds(bounds, |full|)
  {
    && |texts| == |bounds|
    && (forall k :: 0 <= k < |bounds| ==> bounds[k].1 <= |full|)
    && (forall k :: 0 <= k < |bounds| ==> texts[k] == Emit(full, starts, n, repl, bounds[k].0, bounds[k].1))
  }

  lemma BoundsInside(bounds: seq<(nat, nat)>, total: nat)
    requires IsBounds(bounds, total)
    ensures forall k :: 0 <= k < |bounds| ==> bounds[k].1 <= total
  {
    forall k | 0 <= k < |bounds| ensures bounds[k].1 <= total {
      if k < |bounds| - 1 { BoundsAscend(bounds, total, k, |bounds| - 1); }
    }
  }

  /** `texts` with [s, e) replaced: cut from the run i that holds s to the run j
      that holds e - 1, at offsets into the original bounds. */
  ghost predicate SplicedAt(before: seq<string>, after: seq<string>, bounds: seq<(nat, nat)>,
                            i: nat, j: nat, s: nat, e: nat, repl: string)
  {
    && |before| == |after| == |bounds| && i <= j < |bounds|
    && bounds[i].0 <= s && s - bounds[i].0 <= |before[i]| && 0 <= e - bounds[j].0 <= |before[j]|
    && (i == j ==> after[i] == before[i][..s - bounds[i].0] + repl + before[i][e - bounds[i].0..])
    && (i < j ==> after[i] == before[i][..s - bounds[i].0] + repl && after[j] == before[j][e - bounds[j].0..])
    && (forall k :: i < k < j ==> after[k] == "")
    && (forall k :: 0 <= k < |bounds| && !(i <= k <= j) ==> after[k] == before[k])
  }

  lemma SpliceKeepsEmit(before: seq<string>, after: seq<string>, full: string, bounds: seq<(nat, nat)>,
                        starts: seq<nat>, n: nat, repl: string, i: nat, j: nat)
    requires IsBounds(bounds, |full|) && 0 < |starts| && 0 < n && Spaced(starts, n, 0, |full|)
    requires RunsEmit(before, full, bounds, starts[1..], n, repl)
    requires SplicedAt(before, after, bounds, i, j, starts[0], starts[0] + n, repl)
    requires starts[0] < bounds[i].1 && bounds[j].0 < starts[0] + n <= bounds[j].1
    ensures RunsEmit(after, full, bounds, starts, n, repl)
  {
    hide Emit, Inside;
    BoundsInside(bounds, |full|);
    forall k | 0 <= k < |bounds|
      ensures after[k] == Emit(full, starts, n, repl, bounds[k].0, bounds[k].1)
    {
      SpliceOne(full, starts, n, repl, bounds[k].0, bounds[k].1);
      if k < i { BoundsAscend(bounds, |full|, k, i); }
      if i < k { BoundsAscend(bounds, |full|, i, k); }
      if k < j { BoundsAscend(bounds, |full|, k, j); }
      if j < k { BoundsAscend(bounds, |full|, j, k); }
    }
  }

  /** One right-to-left step over all runs: replaces the first of `starts` in
      texts where the later ones are already replaced. */
  method SpliceSpan(texts0: seq<string>, full: string, bounds: seq<(nat, nat)>, starts: seq<nat>, n: nat, repl: string)
    returns (texts: seq<string>)
    requires IsBounds(bounds, |full|) && 0 < |starts| && 0 < n && Spaced(starts, n, 0, |full|)
    requires RunsEmit(texts0, full, bounds, starts[1..], n, repl)
    ensures RunsEmit(texts, full, bounds, starts, n, repl)
  {
    hide Emit, Inside;
    texts := texts0;
    var s, e := starts[0], starts[0] + n;
    var i := RunAt(bounds, |full|, s, false);
    var j := RunAt(bounds, |full|, e, true);
    if j < i { BoundsAscend(bounds, |full|, j, i); }
    SpliceOne(full, starts, n, repl, bounds[i].0, bounds[i].1);
    SpliceOne(full, starts, n, repl, bounds[j].0, bounds[j].1);
    var bsI, bsJ := bounds[i].0, bounds[j].0;
    if i == j {
      texts := texts[i := texts[i][..s - bsI] + repl + texts[i][e - bsI..]];
    } else {
      texts := texts[i := texts[i][..s - bsI] + repl];
      for k := i + 1 to j
        invariant |texts| == |bounds|
        invariant forall h :: 0 <= h < |bounds| && h != i && !(i < h < k) ==> texts[h] == texts0[h]
        invariant texts[i] == texts0[i][..s - bsI] + repl
        invariant forall h :: i < h < k ==> texts[h] == ""
      {
        texts := texts[k := ""];
      }
      texts := texts[j := texts[j][e - bsJ..]];
    }
    SpliceKeepsEmit(texts0, texts, full, bounds, starts, n, repl, i, j);
  }

  /** The first k of the texts: how far they reach and where each lies. */
  ghost predicate BoundsUpTo(texts: seq<string>, k: nat, full: string, bounds: seq<(nat, nat)>) {
    && k <= |texts| && full == JoinAll(texts[..k]) && |bounds| == k
    && (0 < k ==> IsBounds(bounds, |full|))
    && (forall h :: 0 <= h < k ==> bounds[h] == Extent(texts, h))
  }

  lemma BoundsGrow(texts: seq<string>, k: nat, full: string, bounds: seq<(nat, nat)>)
    requires k < |texts| && BoundsUpTo(texts, k, full, bounds)
    ensures BoundsUpTo(texts, k + 1, full + texts[k], bounds + [(|full|, |full| + |texts[k]|)])
  {
    OffsetStep(texts, k);
    assert texts[..k + 1] == texts[..k] + [texts[k]];
    FlatAppend(texts[..k], [texts[k]]);
    hide JoinAll;
  }

  method BoundsOf(texts: seq<string>) returns (full: string, bounds: seq<(nat, nat)>)
    requires texts != []
    ensures full == JoinAll(texts) && BoundsUpTo(texts, |texts|, full, bounds)
  {
    full, bounds := "", [];
    for k := 0 to |texts|
      invariant BoundsUpTo(texts, k, full, bounds)
    {
      BoundsGrow(texts, k, full, bounds);
      bounds := bounds + [(|full|, |full| + |texts[k]|)];
      full := full + texts[k];
    }
    assert texts[..|texts|] == texts;
  }

  lemma ScanStep(spans: seq<nat>, full: string, find: string, pos: nat, i: int)
    requires find != "" && pos <= |full| && i == Find(full, find, pos)
    ensures i < 0 ==> spans + Matches(full, find, pos) == spans
    ensures i >= 0 ==> spans + Matches(full, find, pos) == (spans + [i]) + Matches(full, find, i + |find|)
  {
  }

  method FindSpans(full: string, find: string) returns (spans: seq<nat>)
    requires find != ""
    ensures spans == Matches(full, find, 0)
  {
    hide Matches, Find;
    spans := [];
    var pos := 0;
    while true
      invariant pos <= |full|
      invariant spans + Matches(full, find, pos) == Matches(full, find, 0)
      decreases |full| - pos
    {
      var i := Find(full, find, pos);
      ScanStep(spans, full, find, pos, i);
      if i < 0 { break; }
      spans := spans + [i];
      pos := i + |find|;
    }
  }

  /** The texts of one segment's runs after the edit, and the number of matches. */
  method ReplaceTexts(texts0: seq<string>, find: string, repl: string)
    returns (texts: seq<string>, count: nat)
    requires find != "" && texts0 != []
    ensures count == CountAll(JoinAll(texts0), find)
    ensures Edited(texts0, texts, find, repl)
    ensures count == 0 ==> texts == texts0
  {
    hide Spaced, RunsEmit, Emit, Matches, JoinAll, ReplaceAll, CountAll, Edited, BoundsUpTo, IsBounds, Extent;
    var full, bounds := BoundsOf(texts0);
    BoundsWhole(texts0, full, bounds);
    var spans := FindSpans(full, find);
    MatchesSpaced(full, find, 0);
    EmitIsReplaceAll(full, find, repl, 0);
    assert full[0..] == full;
    texts, count := texts0, |spans|;
    Untouched(texts0, bounds, |find|, repl);
    var m := |spans|;
    assert spans[m..] == [];
    while 0 < m
      invariant m <= |spans| && (m == |spans| ==> texts == texts0)
      invariant RunsEmit(texts, full, bounds, spans[m..], |find|, repl)
    {
      assert spans[m - 1..][1..] == spans[m..];
      SpacedTail(spans, |find|, |full|, m - 1);
      texts := SpliceSpan(texts, full, bounds, spans[m - 1..], |find|, repl);
      m := m - 1;
    }
    assert spans[0..] == spans;
    EmittedIsEdited(texts0, texts, bounds, find, repl);
  }

  lemma BoundsWhole(texts: seq<string>, full: string, bounds: seq<(nat, nat)>)
    requires texts != [] && BoundsUpTo(texts, |texts|, full, bounds)
    ensures full == JoinAll(texts) && IsBounds(bounds, |full|) && |bounds| == |texts|
    ensures forall k :: 0 <= k < |texts| ==> bounds[k] == Extent(texts, k)
  {
    hide JoinAll, Extent, IsBounds;
    assert texts[..|texts|] == texts;
  }

  lemma SpacedTail(starts: seq<nat>, n: nat, hi: nat, m: nat)
    requires m <= |starts| && Spaced(starts, n, 0, hi)
    ensures Spaced(starts[m..], n, 0, hi)
  {
    var t := starts[m..];
    forall a, b | 0 <= a < b < |t| ensures t[a] + n <= t[b] {
      assert t[a] == starts[m + a] && t[b] == starts[m + b];
    }
  }

  /** Runs that hold their parts of the edit are edited. */
  lemma EmittedIsEdited(old_: seq<string>, new_: seq<string>, bounds: seq<(nat, nat)>, find: string, repl: string)
    requires find != "" && IsBounds(bounds, |JoinAll(old_)|) && |bounds| == |old_|
    requires forall k :: 0 <= k < |old_| ==> bounds[k] == Extent(old_, k)
    requires RunsEmit(new_, JoinAll(old_), bounds, Matches(JoinAll(old_), find, 0), |find|, repl)
    ensures Edited(old_, new_, find, repl)
  {
    hide Emit, Matches, JoinAll, Extent;
  }

  lemma Untouched(texts: seq<string>, bounds: seq<(nat, nat)>, n: nat, repl: string)
    requires 0 < n && IsBounds(bounds, |JoinAll(texts)|) && |bounds| == |texts|
    requires forall k :: 0 <= k < |texts| ==> bounds[k] == Extent(texts, k)
    ensures RunsEmit(texts, JoinAll(texts), bounds, [], n, repl)
  {
    BoundsInside(bounds, |JoinAll(texts)|);
    forall k | 0 <= k < |bounds|
      ensures texts[k] == Emit(JoinAll(texts), [], n, repl, bounds[k].0, bounds[k].1)
    {
      OffsetStep(texts, k);
      EmitPlain(JoinAll(texts), [], n, repl, bounds[k].0, bounds[k].1);
    }
  }

  /** Run k ends up with what the characters it held turn into: unmatched
      characters stay in their run, a replacement goes to the run its match
      began in. */
  ghost predicate Edited(old_: seq<string>, new_: seq<string>, find: string, repl: string)
    requires find != ""
  {
    var full := JoinAll(old_);
    && |new_| == |old_|
    && (forall k :: 0 <= k < |old_| ==> Extent(old_, k).0 <= Extent(old_, k).1 <= |full|)
    && (forall k :: 0 <= k < |old_| ==>
          new_[k] == Emit(full, Matches(full, find, 0), |find|, repl, Extent(old_, k).0, Extent(old_, k).1))
  }

  /** The runs' new texts join up to the flat edit of the joined old texts. */
  lemma ReplacedJoins(old_: seq<string>, new_: seq<string>, find: string, repl: string)
    requires find != "" && Edited(old_, new_, find, repl)
    ensures JoinAll(new_) == ReplaceAll(JoinAll(old_), find, repl)
  {
    var full := JoinAll(old_);
    assert old_[..|old_|] == old_ && new_[..|old_|] == new_;
    JoinPrefix(old_, new_, find, repl, |old_|);
    EmitIsReplaceAll(full, find, repl, 0);
    assert full[0..] == full;
  }

  lemma {:induction false} JoinPrefix(old_: seq<string>, new_: seq<string>, find: string, repl: string, k: nat)
    requires find != "" && Edited(old_, new_, find, repl) && k <= |old_|
    ensures Offset(old_, k) <= |JoinAll(old_)|
    ensures JoinAll(new_[..k]) == Emit(JoinAll(old_), Matches(JoinAll(old_), find, 0), |find|, repl, 0, Offset(old_, k))
    decreases k
  {
    if 0 < k {
      JoinPrefix(old_, new_, find, repl, k - 1);
      assert new_[..k] == new_[..k - 1] + [new_[k - 1]];
      FlatAppend(new_[..k - 1], [new_[k - 1]]);
      assert Extent(old_, k - 1) == (Offset(old_, k - 1), Offset(old_, k));
      EmitSplit(JoinAll(old_), Matches(JoinAll(old_), find, 0), |find|, repl, 0, Offset(old_, k - 1), Offset(old_, k));
    }
  }

  // ---------------------------------------------------- the paragraph, in place

  /** The runs between breaks, in order. */
  ghost function Segments(c: seq<Child>): (segs: seq<seq<Run>>)
    ensures segs != []
  {
    if c == [] then [[]]
    else
      var rest := Segments(c[1..]);
      match c[0]
      case RunChild(r) => [[r] + rest[0]] + rest[1..]
      case Break(_) => [[]] + rest
      case Field(_) => rest
  }

  /** Each run element has one place in the tree. */
  ghost predicate RunsDistinct(segs: seq<seq<Run>>) {
    forall m, k, m', k' ::
      0 <= m < |segs| && 0 <= k < |segs[m]| && 0 <= m' < |segs| && 0 <= k' < |segs[m']| && segs[m][k] == segs[m'][k']
      ==> m == m' && k == k'
  }

  ghost function RunSet(segs: seq<seq<Run>>): set<Run> {
    set m, k | 0 <= m < |segs| && 0 <= k < |segs[m]| :: segs[m][k]
  }

  function Texts(runs: seq<Run>): (t: seq<string>)
    reads runs
  {
    seq(|runs|, k requires 0 <= k < |runs| reads runs => runs[k].text)
  }

  ghost function SegmentTexts(segs: seq<seq<Run>>): seq<seq<string>>
    reads RunSet(segs)
  {
    seq(|segs|, m requires 0 <= m < |segs| reads RunSet(segs) => Texts(segs[m]))
  }

  ghost function KeepRuns(runs: seq<Run>, gone: set<Run>): seq<Run> {
    if runs == [] then [] else (if runs[0] in gone then [] else [runs[0]]) + KeepRuns(runs[1..], gone)
  }

  /** `children` without the runs in `gone` (`p.remove(r)`, once per run). */
  function Keep(c: seq<Child>, gone: set<Run>): seq<Child> {
    if c == [] then []
    else (if c[0].RunChild? && c[0].run in gone then [] else [c[0]]) + Keep(c[1..], gone)
  }

  lemma {:induction false} SegmentsKeep(c: seq<Child>, gone: set<Run>)
    ensures |Segments(Keep(c, gone))| == |Segments(c)|
    ensures forall m :: 0 <= m < |Segments(c)| ==> Segments(Keep(c, gone))[m] == KeepRuns(Segments(c)[m], gone)
  {
    hide Segments, Keep, KeepRuns;
    if c == [] {
      NothingKept(gone);
    } else {
      SegmentsKeep(c[1..], gone);
      var x, tail := c[0], Keep(c[1..], gone);
      assert c == [x] + c[1..];
      SegmentsHead(x, c[1..]);
      KeepHead(c, gone);
      if x.RunChild? { KeepRunsHead(x.run, Segments(c[1..])[0], gone); }
      if x.RunChild? && x.run in gone {
        assert [] + KeepRuns(Segments(c[1..])[0], gone) == KeepRuns(Segments(c[1..])[0], gone);
      } else {
        SegmentsHead(x, tail);
        NothingKept(gone);
      }
    }
  }

  lemma SegmentsHead(x: Child, tail: seq<Child>)
    ensures Segments([x] + tail) ==
      var rest := Segments(tail);
      match x
      case RunChild(r) => [[r] + rest[0]] + rest[1..]
      case Break(_) => [[]] + rest
      case Field(_) => rest
  {
    assert ([x] + tail)[1..] == tail;
  }

  lemma KeepHead(c: seq<Child>, gone: set<Run>)
    requires c != []
    ensures Keep(c, gone) == if c[0].RunChild?
        && c[0].run in gone then Keep(c[1..], gone) else [c[0]] + Keep(c[1..], gone)
  {
  }

  lemma NothingKept(gone: set<Run>)
    ensures Segments([]) == [[]] && Keep([], gone) == [] && KeepRuns([], gone) == []
  {
  
  }

  lemma KeepRunsHead(r: Run, runs: seq<Run>, gone: set<Run>)
    ensures KeepRuns([r] + runs, gone) == (if r in gone then [] else [r]) + KeepRuns(runs, gone)
  {
  }

  lemma {:induction false} KeepTwice(c: seq<Child>, a: set<Run>, b: set<Run>)
    ensures Keep(Keep(c, a), b) == Keep(c, a + b)
  {
    if c != [] {
      KeepTwice(c[1..], a, b);
      if c[0].RunChild? && c[0].run in a {
        assert Keep(c, a) == Keep(c[1..], a);
      } else {
        assert Keep(c, a) == [c[0]] + Keep(c[1..], a);
        assert Keep(c, a)[1..] == Keep(c[1..], a);
      }
    }
  }

  lemma {:induction false} KeepNothingGone(c: seq<Child>)
    ensures Keep(c, {}) == c
  {
    if c != [] { KeepNothingGone(c[1..]); }
  }

  lemma {:induction false} KeepRunsText(runs: seq<Run>, gone: set<Run>)
    requires forall r :: r in runs && r in gone ==> r.text == ""
    ensures JoinAll(Texts(KeepRuns(runs, gone))) == JoinAll(Texts(runs))
  {
    if runs != [] {
      KeepRunsText(runs[1..], gone);
      assert Texts(runs)[1..] == Texts(runs[1..]);
      if runs[0] in gone {
        assert KeepRuns(runs, gone) == KeepRuns(runs[1..], gone);
      } else {
        var kept := KeepRuns(runs, gone);
        assert kept[1..] == KeepRuns(runs[1..], gone);
        assert Texts(kept)[1..] == Texts(kept[1..]);
      }
    }
  }

  /** The runs the edit removes from a segment: not the first, had text, have none now. */
  ghost function EmptiedIn(runs: seq<Run>, before: seq<string>, after: seq<string>): set<Run>
    requires |runs| == |before| == |after|
  {
    set k | 0 < k < |runs| && after[k] == "" && before[k] != "" :: runs[k]
  }

  method SegmentsOf(children: seq<Child>) returns (segs: seq<seq<Run>>)
    ensures segs == Segments(children)
  {
    hide Segments, Pending;
    segs := [];
    var cur: seq<Run> := [];
    assert children[0..] == children;
    NothingPending(Segments(children));
    for i := 0 to |children|
      invariant Pending(segs, cur, Segments(children[i..])) == Segments(children)
    {
      SegmentsNext(children, i);
      ghost var rest := Segments(children[i + 1..]);
      match children[i]
      case RunChild(r) =>
        PendingRun(segs, cur, r, rest);
        cur := cur + [r];
      case Break(_) =>
        PendingBreak(segs, cur, rest);
        segs := segs + [cur];
        cur := [];
      case Field(_) =>
    }
    assert children[|children|..] == [];
    LastPending(segs, cur);
    segs := segs + [cur];
  }

  /** The segments found, the one being collected joined to the first of what is left. */
  ghost function Pending(segs: seq<seq<Run>>, cur: seq<Run>, rest: seq<seq<Run>>): seq<seq<Run>>
    requires rest != []
  {
    segs + [cur + rest[0]] + rest[1..]
  }

  lemma SegmentsNext(children: seq<Child>, i: nat)
    requires i < |children|
    ensures Segments(children[i..]) ==
      var rest := Segments(children[i + 1..]);
      match children[i]
      case RunChild(r) => [[r] + rest[0]] + rest[1..]
      case Break(_) => [[]] + rest
      case Field(_) => rest
  {
    assert children[i..][0] == children[i] && children[i..][1..] == children[i + 1..];
  }

  lemma NothingPending(rest: seq<seq<Run>>)
    requires rest != []
    ensures Pending([], [], rest) == rest
  {
    assert [] + rest[0] == rest[0];
  }

  lemma PendingRun(segs: seq<seq<Run>>, cur: seq<Run>, r: Run, rest: seq<seq<Run>>)
    requires rest != []
    ensures Pending(segs, cur, [[r] + rest[0]] + rest[1..]) == Pending(segs, cur + [r], rest)
  {
    assert cur + ([r] + rest[0]) == (cur + [r]) + rest[0];
  }

  lemma PendingBreak(segs: seq<seq<Run>>, cur: seq<Run>, rest: seq<seq<Run>>)
    requires rest != []
    ensures Pending(segs, cur, [[]] + rest) == Pending(segs + [cur], [], rest)
  {
    assert cur + [] == cur && [] + rest[0] == rest[0];
  }

  lemma LastPending(segs: seq<seq<Run>>, cur: seq<Run>)
    ensures Pending(segs, cur, Segments([])) == segs + [cur]
  {
    assert cur + [] == cur;
  
  }

  method WriteTexts(runs: seq<Run>, texts: seq<string>)
    requires |texts| == |runs|
    requires forall k, k' :: 0 <= k < k' < |runs| ==> runs[k] != runs[k']
    modifies runs
    ensures Texts(runs) == texts
  {
    for k := 0 to |runs|
      invariant forall h :: 0 <= h < k ==> runs[h].text == texts[h]
    {
      runs[k].text := texts[k];
    }
  }

  /** Drop the runs the replacement emptied, keeping the segment's first run. */
  method DropEmptied(p: Paragraph, runs: seq<Run>, texts0: seq<string>)
    requires |texts0| == |runs|
    modifies p
    ensures p.children == Keep(old(p.children), EmptiedIn(runs, texts0, Texts(runs)))
  {
    ghost var c0 := p.children;
    ghost var gone: set<Run> := {};
    KeepNothingGone(c0);
    for k := 0 to |runs|
      invariant gone == set h | 0 < h < k && runs[h].text == "" && texts0[h] != "" :: runs[h]
      invariant p.children == Keep(c0, gone)
    {
      if k > 0 && runs[k].text == "" && |texts0[k]| > 0 {
        KeepTwice(c0, gone, {runs[k]});
        p.children := Keep(p.children, {runs[k]});
        gone := gone + {runs[k]};
      }
    }
    assert gone == EmptiedIn(runs, texts0, Texts(runs));
  }

  method EditSegment(p: Paragraph, runs: seq<Run>, find: string, repl: string) returns (count: nat)
    requires find != ""
    requires forall k, k' :: 0 <= k < k' < |runs| ==> runs[k] != runs[k']
    modifies p, runs
    ensures count == CountAll(JoinAll(old(Texts(runs))), find)
    ensures Edited(old(Texts(runs)), Texts(runs), find, repl)
    ensures p.children == Keep(old(p.children), EmptiedIn(runs, old(Texts(runs)), Texts(runs)))
  {
    ghost var c0 := p.children;
    var texts0 := Texts(runs);
    if runs == [] {
      KeepNothingGone(c0);
      assert EmptiedIn(runs, texts0, texts0) == {};
      return 0;
    }
    var texts;
    texts, count := ReplaceTexts(texts0, find, repl);
    if count == 0 {
      KeepNothingGone(c0);
      assert EmptiedIn(runs, texts0, texts0) == {};
      return;
    }
    WriteTexts(runs, texts);
    DropEmptied(p, runs, texts0);
  }

  ghost function TotalCount(before: seq<seq<string>>, find: string): nat
    requires find != ""
  {
    if before == [] then 0 else TotalCount(before[..|before| - 1], find) + CountAll(JoinAll(before[|before| - 1]), find)
  }

  ghost predicate SameShape(segs: seq<seq<Run>>, texts: seq<seq<string>>) {
    |texts| == |segs| && forall m :: 0 <= m < |segs| ==> |texts[m]| == |segs[m]|
  }

  ghost function Emptied(segs: seq<seq<Run>>, before: seq<seq<string>>, after: seq<seq<string>>): set<Run>
    requires SameShape(segs, before) && SameShape(segs, after)
  {
    set m, k | 0 <= m < |segs| && 0 < k < |segs[m]| && after[m][k] == "" && before[m][k] != "" :: segs[m][k]
  }

  lemma EmptiedStep(segs: seq<seq<Run>>, before: seq<seq<string>>, now: seq<seq<string>>, m: nat, texts: seq<string>)
    requires SameShape(segs, before) && SameShape(segs, now) && m < |segs| && |texts| == |segs[m]|
    requires now[m] == before[m]
    ensures Emptied(segs, before, now[m := texts]) == Emptied(segs, before, now) + EmptiedIn(segs[m], before[m], texts)
  {
  }

  /** What dropping the emptied runs leaves: the same segments, the same text in each. */
  lemma DroppedSegments(c0: seq<Child>, c: seq<Child>, segs: seq<seq<Run>>, before: seq<seq<string>>, find: string,
                        repl: string)
    requires find != "" && segs == Segments(c0) && RunsDistinct(segs) && SameShape(segs, before)
    requires forall m :: 0 <= m < |segs| ==> Edited(before[m], Texts(segs[m]), find, repl)
    requires c == Keep(c0, Emptied(segs, before, SegmentTexts(segs)))
    ensures |Segments(c)| == |segs|
    ensures forall m :: 0 <= m < |segs| ==> JoinAll(Texts(Segments(c)[m])) == ReplaceAll(JoinAll(before[m]), find, repl)
  {
    var gone := Emptied(segs, before, SegmentTexts(segs));
    SegmentsKeep(c0, gone);
    forall m | 0 <= m < |segs|
      ensures JoinAll(Texts(Segments(c)[m])) == ReplaceAll(JoinAll(before[m]), find, repl)
    {
      forall r | r in segs[m] && r in gone ensures r.text == "" {
        var h, k :| 0 <= h < |segs| && 0 < k < |segs[h]| && SegmentTexts(segs)[h][k] == "" && r == segs[h][k];
        assert SegmentTexts(segs)[h] == Texts(segs[h]);
      }
      KeepRunsText(segs[m], gone);
      ReplacedJoins(before[m], Texts(segs[m]), find, repl);
    }
  }

  /** One segment of the loop over segments; the other segments' runs are not touched. */
  method EditOne(p: Paragraph, segs: seq<seq<Run>>, m: nat, find: string, repl: string, ghost now: seq<seq<string>>)
    returns (count: nat)
    requires find != "" && RunsDistinct(segs) && m < |segs|
    requires SameShape(segs, now) && forall h :: 0 <= h < |segs| ==> Texts(segs[h]) == now[h]
    modifies p, segs[m]
    ensures count == CountAll(JoinAll(now[m]), find)
    ensures Edited(now[m], Texts(segs[m]), find, repl)
    ensures forall h :: 0 <= h < |segs| && h != m ==> Texts(segs[h]) == now[h]
    ensures p.children == Keep(old(p.children), EmptiedIn(segs[m], now[m], Texts(segs[m])))
  {
    count := EditSegment(p, segs[m], find, repl);
    forall h | 0 <= h < |segs| && h != m ensures Texts(segs[h]) == now[h] {
      forall k | 0 <= k < |segs[h]| ensures segs[h][k].text == now[h][k] {
        assert old(Texts(segs[h]))[k] == now[h][k];
        assert segs[h][k] !in segs[m];
      }
    }
  }

  /** The loop after m segments: `now` are the runs' texts, `c` the paragraph's children. */
  ghost predicate Progress(c0: seq<Child>, c: seq<Child>, before: seq<seq<string>>, now: seq<seq<string>>,
                           m: nat, count: nat, find: string, repl: string)
    requires find != ""
  {
    var segs := Segments(c0);
    && SameShape(segs, before) && SameShape(segs, now) && m <= |segs|
    && count == TotalCount(before[..m], find)
    && (forall h :: m <= h < |segs| ==> now[h] == before[h])
    && (forall h :: 0 <= h < m ==> Edited(before[h], now[h], find, repl))
    && c == Keep(c0, Emptied(segs, before, now))
  }

  lemma ProgressStart(c0: seq<Child>, before: seq<seq<string>>, find: string, repl: string)
    requires find != "" && SameShape(Segments(c0), before)
    ensures Progress(c0, c0, before, before, 0, 0, find, repl)
  {
    KeepNothingGone(c0);
    assert Emptied(Segments(c0), before, before) == {};
  }

  lemma CountStep(before: seq<seq<string>>, find: string, m: nat)
    requires find != "" && m < |before|
    ensures TotalCount(before[..m + 1], find) == TotalCount(before[..m], find) + CountAll(JoinAll(before[m]), find)
  {
    assert before[..m + 1][..m] == before[..m];
  }

  lemma ProgressStep(c0: seq<Child>, c: seq<Child>, c': seq<Child>, before: seq<seq<string>>, now: seq<seq<string>>,
                     texts: seq<string>, m: nat, count: nat, find: string, repl: string)
    requires find != "" && Progress(c0, c, before, now, m, count, find, repl)
    requires m < |Segments(c0)| && |texts| == |Segments(c0)[m]|
    requires Edited(now[m], texts, find, repl)
    requires c' == Keep(c, EmptiedIn(Segments(c0)[m], now[m], texts))
    ensures Progress(c0, c', before, now[m := texts], m + 1, count + CountAll(JoinAll(now[m]), find), find, repl)
  {
    hide Edited, TotalCount, Keep, Emptied, EmptiedIn, Segments, CountAll, JoinAll;
    var segs := Segments(c0);
    CountStep(before, find, m);
    EmptiedStep(segs, before, now, m, texts);
    KeepTwice(c0, Emptied(segs, before, now), EmptiedIn(segs[m], before[m], texts));
  }

  lemma ProgressDone(c0: seq<Child>, c: seq<Child>, before: seq<seq<string>>, now: seq<seq<string>>,
                     count: nat, find: string, repl: string)
    requires find != "" && Progress(c0, c, before, now, |Segments(c0)|, count, find, repl)
    ensures SameShape(Segments(c0), before) && SameShape(Segments(c0), now)
    ensures count == TotalCount(before, find)
    ensures forall m :: 0 <= m < |now| ==> Edited(before[m], now[m], find, repl)
    ensures c == Keep(c0, Emptied(Segments(c0), before, now))
  {
    hide Edited, TotalCount, Keep, Emptied, Segments;
    assert before[..|Segments(c0)|] == before;
  }

  /** Replace in one paragraph, in place.

      Run by run: every run of the paragraph as it was ends up with what its own
      characters turn into. Segment by segment: the text between two breaks is the
      flat edit of the text that was there. */
  method ReplaceInParagraph(p: Paragraph, find: string, repl: string) returns (count: nat)
    requires find != "" && RunsDistinct(Segments(p.children))
    modifies p, RunSet(Segments(p.children))
    ensures var segs, before := old(Segments(p.children)), old(SegmentTexts(Segments(p.children)));
            && count == TotalCount(before, find)
            && (forall m :: 0 <= m < |segs| ==> Edited(before[m], Texts(segs[m]), find, repl))
            && p.children == Keep(old(p.children), Emptied(segs, before, SegmentTexts(segs)))
            && |Segments(p.children)| == |segs|
            && (forall m :: 0 <= m < |segs| ==>
                  JoinAll(Texts(Segments(p.children)[m])) == ReplaceAll(JoinAll(before[m]), find, repl))
  {
    hide Segments, Progress, Edited, TotalCount, Keep, Emptied, EmptiedIn, ReplaceAll, CountAll, JoinAll;
    ghost var c0, before := p.children, SegmentTexts(Segments(p.children));
    ghost var now := before;
    ProgressStart(c0, before, find, repl);
    count := 0;
    var segs := SegmentsOf(p.children);
    for m := 0 to |segs|
      invariant SameShape(segs, now)
      invariant Progress(c0, p.children, before, now, m, count, find, repl)
      invariant forall h :: 0 <= h < |segs| ==> Texts(segs[h]) == now[h]
    {
      ghost var c := p.children;
      var n := EditOne(p, segs, m, find, repl, now);
      ProgressStep(c0, c, p.children, before, now, Texts(segs[m]), m, count, find, repl);
      now := now[m := Texts(segs[m])];
      count := count + n;
    }
    ProgressDone(c0, p.children, before, now, count, find, repl);
    assert now == SegmentTexts(segs);
    DroppedSegments(c0, p.children, segs, before, find, repl);
  }
}
