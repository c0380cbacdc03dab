/** `mask_raw` and `line_of` of the site validator (scripts/validate_site.py): blanking what
    raw blocks hold, in a buffer, by the tags found in the text. */
module MaskRaw {
  import opened Text

  /** A match of the tag pattern; `opens` tells raw from endraw. */
  datatype Tag = Tag(start: nat, end: nat, opens: bool)

  /** What `finditer` yields: matches in order, none over another. */
  ghost predicate Found(tags: seq<Tag>, n: nat) {
    && (forall i :: 0 <= i < |tags| ==> tags[i].start < tags[i].end <= n)
    && (forall i, j :: 0 <= i < j < |tags| ==> tags[i].end <= tags[j].start)
  }

  datatype Problem = Nested(line: nat, previous: nat) | Unmatched(line: nat) | Unclosed(line: nat)

  /** `text.count("\n", 0, pos) + 1` */
  function LineOf(text: string, pos: nat): (line: nat)
    ensures line >= 1
  {
    1 + Newlines(text[..if pos <= |text| then pos else |text|])
  }

  function Newlines(s: string): nat {
    if s == "" then 0 else Newlines(s[..|s| - 1]) + if s[|s| - 1] == '\n' then 1 else 0
  }

  // ----------------------------------------------------------------- the tags as a machine

  /** Where the open raw block starts after the tags, if one is open. */
  function OpenAfter(tags: seq<Tag>): Option<nat> {
    if tags == [] then None
    else
      var before, t := OpenAfter(tags[..|tags| - 1]), tags[|tags| - 1];
      if t.opens then (if before.Some? then before else Some(t.start)) else None
  }

  /** The stretches blanked by the tags: from an opening tag to the end of its closing one. */
  function Closed(tags: seq<Tag>): seq<(nat, nat)> {
    if tags == [] then []
    else
      var init, t := tags[..|tags| - 1], tags[|tags| - 1];
      Closed(init) + if !t.opens && OpenAfter(init).Some? then [(OpenAfter(init).value, t.end)] else []
  }

  function Reported(tags: seq<Tag>, text: string): seq<Problem> {
    if tags == [] then []
    else
      var init, t := tags[..|tags| - 1], tags[|tags| - 1];
      var since := OpenAfter(init);
      Reported(init, text) +
      if t.opens && since.Some? then [Nested(LineOf(text, t.start), LineOf(text, since.value))]
      else if !t.opens && since.None? then [Unmatched(LineOf(text, t.start))]
      else []
  }

  function Stretches(tags: seq<Tag>, n: nat): seq<(nat, nat)> {
    var since := OpenAfter(tags);
    Closed(tags) + if since.Some? then [(since.value, n)] else []
  }

  function Problems(tags: seq<Tag>, text: string): seq<Problem> {
    var since := OpenAfter(tags);
    Reported(tags, text) + if since.Some? then [Unclosed(LineOf(text, since.value))] else []
  }

  predicate Within(stretches: seq<(nat, nat)>, i: nat) {
    exists k :: 0 <= k < |stretches| && stretches[k].0 <= i < stretches[k].1
  }

  /** The character at i after the stretches were blanked. */
  function Masked(c: char, i: nat, stretches: seq<(nat, nat)>): char {
    if c != '\n' && Within(stretches, i) then ' ' else c
  }

  lemma TagStep(tags: seq<Tag>, k: nat, text: string)
    requires k < |tags|
    ensures var init, t := tags[..k], tags[k];
            var since := OpenAfter(init);
            && OpenAfter(tags[..k + 1]) == (if t.opens then (if since.Some? then since else Some(t.start)) else None)
            && Closed(tags[..k + 1])
                == (if !t.opens && since.Some? then Closed(init) + [(since.value, t.end)] else Closed(init))
            && Reported(tags[..k + 1], text) ==
                 if t.opens && since.Some?
                     then Reported(init, text) + [Nested(LineOf(text, t.start), LineOf(text, since.value))]
                 else if !t.opens && since.None? then Reported(init, text) + [Unmatched(LineOf(text, t.start))]
                 else Reported(init, text)
  {
    assert tags[..k + 1][..k] == tags[..k];
  }

  lemma WithinMore(stretches: seq<(nat, nat)>, s: (nat, nat), i: nat)
    ensures Within(stretches + [s], i) <==> Within(stretches, i) || s.0 <= i < s.1
  {
    if Within(stretches, i) {
      var k :| 0 <= k < |stretches| && stretches[k].0 <= i < stretches[k].1;
      assert (stretches + [s])[k] == stretches[k];
    }
    if s.0 <= i < s.1 { assert (stretches + [s])[|stretches|] == s; }
  }

  // ------------------------------------------------------------------------- the buffer

  /** Blanks the buffer from one index to another, newlines apart. */
  method Blank(out: array<char>, from: nat, to: nat, ghost text: string, ghost stretches: seq<(nat, nat)>)
    requires from <= to <= out.Length == |text|
    requires forall i :: 0 <= i < |text| ==> out[i] == Masked(text[i], i, stretches)
    modifies out
    ensures forall i :: 0 <= i < |text| ==> out[i] == Masked(text[i], i, stretches + [(from, to)])
  {
    hide Within;
    for i := from to to
      invariant forall j :: from <= j < i ==> out[j] == if text[j] != '\n' then ' ' else text[j]
      invariant forall j :: 0 <= j < |text| && !(from <= j < i) ==> out[j] == Masked(text[j], j, stretches)
    {
      if out[i] != '\n' { out[i] := ' '; }
    }
    forall i | 0 <= i < |text| ensures out[i] == Masked(text[i], i, stretches + [(from, to)]) {
      WithinMore(stretches, (from, to), i);
    }
  }

  /** `mask_raw` */
  method MaskRaw(text: string, tags: seq<Tag>) returns (out: array<char>, problems: seq<Problem>)
    requires Found(tags, |text|)
    ensures fresh(out) && out.Length == |text|
    ensures forall i :: 0 <= i < |text| ==> out[i] == Masked(text[i], i, Stretches(tags, |text|))
    ensures problems == Problems(tags, text)
  {
    hide Within, LineOf, Masked, OpenAfter, Closed, Reported;
    out := new char[|text|](i requires 0 <= i < |text| => text[i]);
    problems := [];
    var depthStart: Option<nat> := None;
    NoTags(text);
    for k := 0 to |tags|
      invariant depthStart == OpenAfter(tags[..k]) && problems == Reported(tags[..k], text)
      invariant forall i :: 0 <= i < |text| ==> out[i] == Masked(text[i], i, Closed(tags[..k]))
      invariant depthStart.Some? ==> k > 0 && depthStart.value <= tags[k - 1].start
    {
      TagStep(tags, k, text);
      var t := tags[k];
      assert k > 0 ==> tags[k - 1].end <= t.start;
      if t.opens {
        if depthStart.Some? {
          problems := problems + [Nested(LineOf(text, t.start), LineOf(text, depthStart.value))];
          continue;
        }
        depthStart := Some(t.start);
      } else {
        if depthStart.None? {
          problems := problems + [Unmatched(LineOf(text, t.start))];
          continue;
        }
        Blank(out, depthStart.value, t.end, text, Closed(tags[..k]));
        depthStart := None;
      }
    }
    assert tags[..|tags|] == tags;
    assert Closed(tags) + [] == Closed(tags) && Reported(tags, text) + [] == Reported(tags, text);
    if depthStart.Some? {
      problems := problems + [Unclosed(LineOf(text, depthStart.value))];
      Blank(out, depthStart.value, |text|, text, Closed(tags));
    }
  }

  lemma NoTags(text: string)
    ensures OpenAfter([]) == None && Closed([]) == [] && Reported([], text) == []
    ensures forall i :: 0 <= i < |text| ==> text[i] == Masked(text[i], i, [])
  {
  }

  // ------------------------------------------------------------------------ what it means

  lemma {:induction false} SameNewlines(s: string, t: string)
    requires |s| == |t| && forall i :: 0 <= i < |s| ==> (s[i] == '\n' <==> t[i] == '\n')
    ensures Newlines(s) == Newlines(t)
  {
    if s != "" { SameNewlines(s[..|s| - 1], t[..|t| - 1]); }
  }

  /** Masking keeps the length and every newline, so a position has the same line number
      before and after. */
  lemma SameLines(text: string, masked: string, stretches: seq<(nat, nat)>, pos: nat)
    requires |masked| == |text| && forall i :: 0 <= i < |text| ==> masked[i] == Masked(text[i], i, stretches)
    ensures LineOf(masked, pos) == LineOf(text, pos)
  {
    var n := if pos <= |text| then pos else |text|;
    SameNewlines(masked[..n], text[..n]);
  }

  /** The tags alternate raw and endraw, beginning with raw. */
  ghost predicate Alternates(tags: seq<Tag>) {
    forall i :: 0 <= i < |tags| ==> (tags[i].opens <==> i % 2 == 0)
  }

  lemma {:induction false} NothingReported(tags: seq<Tag>, text: string)
    ensures Reported(tags, text) == [] <==> Alternates(tags)
  {
    if tags != [] {
      var init := tags[..|tags| - 1];
      NothingReported(init, text);
      if Alternates(init) {
        assert Alternates(tags) <==> (tags[|tags| - 1].opens <==> |init| % 2 == 0);
      }
      assert Alternates(tags) ==> Alternates(init);
    }
  }

  /** No problem is reported exactly when the tags alternate and the last block is closed. */
  lemma NoProblems(tags: seq<Tag>, text: string)
    ensures Problems(tags, text) == [] <==> Alternates(tags) && |tags| % 2 == 0
  {
    NothingReported(tags, text);
  }

  lemma {:induction false} AlternatingClosed(tags: seq<Tag>)
    requires Alternates(tags)
    ensures |Closed(tags)| == |tags| / 2
    ensures forall k :: 0 <= k < |tags| / 2 ==> Closed(tags)[k] == (tags[2 * k].start, tags[2 * k + 1].end)
  {
    if tags != [] {
      var n := |tags| - 1;
      AlternatingClosed(tags[..n]);
      TagStep(tags, n, "");
      assert tags[..n + 1] == tags;
      hide Closed, OpenAfter, Reported;
    }
  }

  /** And then a character is blanked exactly when it is no newline and lies between a raw
      tag and the endraw tag that follows it, tags included. */
  lemma BlankedInBlocks(tags: seq<Tag>, text: string, i: nat)
    requires Problems(tags, text) == [] && i < |text|
    ensures Masked(text[i], i, Stretches(tags, |text|)) ==
      if text[i] != '\n' && exists k :: 0 <= k < |tags| / 2 && InBlock(tags, k, i) then ' ' else text[i]
  {
    NoProblems(tags, text);
    AlternatingClosed(tags);
    var s := Stretches(tags, |text|);
    assert s == Closed(tags);
    if exists k :: 0 <= k < |tags| / 2 && InBlock(tags, k, i) {
      var k :| 0 <= k < |tags| / 2 && InBlock(tags, k, i);
      assert s[k].0 <= i < s[k].1;
    }
    if Within(s, i) {
      var k :| 0 <= k < |s| && s[k].0 <= i < s[k].1;
      assert InBlock(tags, k, i);
    }
  }

  predicate InBlock(tags: seq<Tag>, k: nat, i: nat)
    requires k < |tags| / 2
  {
    tags[2 * k].start <= i < tags[2 * k + 1].end
  }
}
