/** Code fences printed and parsed: `fence` and `lang_of` (scripts/deck_text.py) against
    `fenced_regions` (scripts/validate_site.py); compare CommonMark 0.31.2, section 4.5. */
module Fences {
  import opened Text
  import opened CodeText

  // ------------------------------------------------------------------------- the printer

  function Repeat(c: char, n: nat): (s: string)
    ensures |s| == n && forall i :: 0 <= i < n ==> s[i] == c
  {
    seq(n, (i: nat) => c)
  }

  /** `t in s` */
  predicate Contains(s: string, t: string) {
    exists i :: 0 <= i <= |s| && At(s, t, i)
  }

  predicate At(s: string, t: string, i: nat) {
    i + |t| <= |s| && s[i..i + |t|] == t
  }

  predicate HasTicks(code: string, n: nat) {
    Contains(code, Repeat('`', n))
  }

  /** The length of the fence: the first from n on that the code does not contain. */
  function Ticks(code: string, n: nat): (r: nat)
    ensures n <= r && !HasTicks(code, r) && forall m :: n <= m < r ==> HasTicks(code, m)
    decreases |code| + 1 - n
  {
    if HasTicks(code, n) then
      Ticks(code, n + 1)
    else n
  }

  predicate Guarded(code: string) {
    Contains(code, "{{") || Contains(code, "{%")
  }

  const RAW := "{% raw %}"
  const ENDRAW := "{% endraw %}"

  /** The lines are the code between a fence of n ticks that names the language and one of n ticks,
      n being the fewest, three at least, that the code does not contain; if the code holds a Liquid
      delimiter, that is between raw and endraw. */
  ghost predicate IsFence(out: seq<string>, code: string, lang: string, n: nat) {
    var ticks, lines := Repeat('`', n), SplitLines(code);
    && 3 <= n && !HasTicks(code, n) && (forall m :: 3 <= m < n ==> HasTicks(code, m))
    && out == if Contains(code, "{{") || Contains(code, "{%") then
                ["{% raw %}", ticks + lang] + lines + [ticks, "{% endraw %}"]
              else [ticks + lang] + lines + [ticks]
  }

  /** `fence`: the loop ends, and its ticks are the fewest, three at least, that the code
      does not contain. */
  method Fence(code: string, lang: string) returns (out: seq<string>)
    ensures out == FenceLines(code, lang)
    ensures exists n :: IsFence(out, code, lang, n)
  {
    var ticks := "```";
    while Contains(code, ticks)
      invariant |ticks| >= 3 && ticks == Repeat('`', |ticks|)
      invariant Ticks(code, |ticks|) == Ticks(code, 3)
      decreases |code| + 1 - |ticks|
    {
      ticks := ticks + "`";
    }
    out := [ticks + lang] + SplitLines(code) + [ticks];
    if Guarded(code) {
      out := [RAW] + out + [ENDRAW];
    }
    assert IsFence(out, code, lang, |ticks|) by {
      assert forall m :: 3 <= m < |ticks| ==> HasTicks(code, m);
    }
  }

  function Body(code: string, lang: string): seq<string> {
    var ticks := Repeat('`', Ticks(code, 3));
    [ticks + lang] + SplitLines(code) + [ticks]
  }

  function FenceLines(code: string, lang: string): seq<string> {
    if Guarded(code) then [RAW] + Body(code, lang) + [ENDRAW] else Body(code, lang)
  }

  predicate LangChar(c: char) {
    'a' <= c <= 'z' || '0' <= c <= '9' || c in "+#.-"
  }

  predicate IsLang(s: string) {
    forall i :: 0 <= i < |s| ==> LangChar(s[i])
  }

  function Before(s: string, c: char): string {
    if s == "" || s[0] == c then "" else [s[0]] + Before(s[1..], c)
  }

  function KeepLang(s: string): (r: string)
    ensures IsLang(r)
  {
    if s == "" then "" else (if LangChar(s[0]) then [s[0]] else "") + KeepLang(s[1..])
  }

  /** Of a text, the language characters are kept, in order, and no others. */
  lemma {:induction false} KeepLangParts(a: string, b: string)
    ensures KeepLang(a + b) == KeepLang(a) + KeepLang(b)
    ensures |a| == 1 ==> KeepLang(a) == if LangChar(a[0]) then a else ""
  {
    if |a| == 1 { assert a[1..] == "" && KeepLang("") == ""; }
    if a == "" {
      assert a + b == b && KeepLang(a) == "";
    } else {
      KeepLangFirst(a);
      KeepLangFirst(a + b);
      hide KeepLang, LangChar;
      KeepLangParts(a[1..], b);
      assert (a + b)[1..] == a[1..] + b;
      PlusAssoc(if LangChar(a[0]) then [a[0]] else "", KeepLang(a[1..]), KeepLang(b));
    }
  }

  lemma KeepLangFirst(s: string)
    requires s != ""
    ensures KeepLang(s) == (if LangChar(s[0]) then [s[0]] else "") + KeepLang(s[1..])
  {
  }

  /** The part before a middle dot, all of a text without one. */
  lemma {:induction false} BeforeDot(head: string, c: char, rest: string)
    requires c !in head
    ensures Before(head, c) == head && Before(head + [c] + rest, c) == head
  {
    var s := head + [c] + rest;
    if head != "" {
      BeforeDot(head[1..], c, rest);
      assert s[1..] == head[1..] + [c] + rest && s[0] == head[0] && c !in head[1..];
    } else {
      assert s[0] == c;
    }
  }

  /** A language is what the part before a middle dot keeps once it is in lower case. */
  lemma LangMeans(head: string, rest: string, lower: string -> string)
    requires '\U{B7}' !in head
    ensures LangOf(head, lower) == LangOf(head + "\U{B7}" + rest, lower) == KeepLang(lower(head))
  {
    BeforeDot(head, '\U{B7}', rest);
  }

  /** `lang_of`; blanks at the ends fall to the filter like any other character. */
  function LangOf(chip: string, lower: string -> string): (r: string)
    ensures IsLang(r)
  {
    KeepLang(lower(Before(chip, '\U{B7}')))
  }

  // -------------------------------------------------------------------------- the parser

  /** The first character from i on that is not white space. */
  function Skip(line: string, i: nat): (r: nat)
    requires i <= |line|
    ensures i <= r <= |line| && (forall k :: i <= k < r ==> IsSpace(line[k]))
    ensures r < |line| ==> !IsSpace(line[r])
    decreases |line| - i
  {
    if i < |line| && IsSpace(line[i]) then Skip(line, i + 1) else i
  }

  /** Where the run of c from i on ends. */
  function RunEnd(line: string, i: nat, c: char): (r: nat)
    requires i <= |line|
    ensures i <= r <= |line| && (forall k :: i <= k < r ==> line[k] == c)
    ensures r < |line| ==> line[r] != c
    decreases |line| - i
  {
    if i < |line| && line[i] == c then RunEnd(line, i + 1, c) else i
  }

  datatype Marker = Marker(c: char, len: nat)

  /** The match of `^(\s*)(`{3,}|~{3,})`. */
  function Mark(line: string): Option<Marker> {
    var i := Skip(line, 0);
    if i == |line| || line[i] !in "`~" then None
    else
      var n := RunEnd(line, i, line[i]) - i;
      if n < 3 then None else Some(Marker(line[i], n))
  }

  /** The line is a closing fence for the marker: at least as long and nothing after it. */
  predicate Closes(line: string, m: Marker) {
    var c := Mark(line);
    && c.Some? && c.value.c == m.c && m.len <= c.value.len
    && Skip(line, Skip(line, 0) + (RunEnd(line, Skip(line, 0), m.c) - Skip(line, 0))) == |line|
  }

  /** How many lines come before the first that closes. */
  function Inside(lines: seq<string>, m: Marker): (k: nat)
    ensures k <= |lines| && (k < |lines| ==> Closes(lines[k], m))
    ensures forall h :: 0 <= h < k ==> !Closes(lines[h], m)
  {
    if lines == [] || Closes(lines[0], m) then 0 else 1 + Inside(lines[1..], m)
  }

  /** The fenced blocks of the lines, the first of which has index `base`. */
  function Regions(lines: seq<string>, base: nat): seq<(nat, nat)> {
    if lines == [] then []
    else if Mark(lines[0]).None? then Regions(lines[1..], base + 1)
    else
      var k := Inside(lines[1..], Mark(lines[0]).value);
      if k == |lines| - 1 then [(base, base + k)]
      else [(base, base + k + 1)] + Regions(lines[k + 2..], base + k + 2)
  }

  /** The inner loop: the first line from i on that closes. */
  method FindClose(lines: seq<string>, i: nat, m: Marker) returns (j: nat)
    requires i <= |lines|
    ensures j == i + Inside(lines[i..], m)
  {
    j := i;
    while j < |lines| && !Closes(lines[j], m)
      invariant i <= j <= |lines|
      invariant Inside(lines[i..], m) == j - i + Inside(lines[j..], m)
    {
      assert lines[j..][1..] == lines[j + 1..];
      j := j + 1;
    }
  }

  lemma RegionsStep(lines: seq<string>, i: nat)
    requires i < |lines|
    ensures Regions(lines[i..], i) ==
      if Mark(lines[i]).None? then Regions(lines[i + 1..], i + 1)
      else
        var j := i + 1 + Inside(lines[i + 1..], Mark(lines[i]).value);
        if j == |lines| then [(i, j - 1)] else [(i, j)] + Regions(lines[j + 1..], j + 1)
  {
    hide Mark, Inside;
    assert lines[i..][1..] == lines[i + 1..];
    if Mark(lines[i]).Some? {
      var k := Inside(lines[i + 1..], Mark(lines[i]).value);
      if k < |lines| - i - 1 { assert lines[i..][k + 2..] == lines[i + k + 2..]; }
    }
  }

  /** Up to n characters of c, three at least, stand at the line's start, blanks apart. */
  ghost predicate OpensAt(line: string, c: char, n: nat, i: nat) {
    && 3 <= n && i + n <= |line| && c in "`~" && (forall k :: 0 <= k < i ==> IsSpace(line[k]))
    && (forall k :: i <= k < i + n ==> line[k] == c) && (i + n < |line| ==> line[i + n] != c)
  }

  lemma MarkOpens(line: string, c: char, n: nat)
    requires Mark(line) == Some(Marker(c, n))
    ensures OpensAt(line, c, n, Skip(line, 0)) && RunEnd(line, Skip(line, 0), c) == Skip(line, 0) + n
  {
  }

  lemma OpensMark(line: string, c: char, n: nat, i: nat)
    requires OpensAt(line, c, n, i)
    ensures Mark(line) == Some(Marker(c, n)) && i == Skip(line, 0)
  {
    assert line[i] == c && Skip(line, 0) == i;
    assert RunEnd(line, i, c) == i + n;
  }

  /** What the pattern of fences matches. */
  lemma MarkMeans(line: string, c: char, n: nat)
    ensures Mark(line) == Some(Marker(c, n)) <==> exists i: nat :: OpensAt(line, c, n, i)
  {
    hide Mark, OpensAt;
    if i: nat :| OpensAt(line, c, n, i) { OpensMark(line, c, n, i); }
    if Mark(line) == Some(Marker(c, n)) { MarkOpens(line, c, n); }
  }

  lemma RestBlank(line: string, i: nat)
    requires i <= |line|
    ensures Skip(line, i) == |line| <==> Blank(line[i..])
  {
    var e, rest := Skip(line, i), line[i..];
    if e < |line| {
      assert rest[e - i] == line[e];
    } else {
      forall k | 0 <= k < |rest| ensures IsSpace(rest[k]) { assert rest[k] == line[i + k]; }
    }
  }

  ghost predicate ClosesAt(line: string, m: Marker, n: nat, i: nat) {
    m.len <= n && OpensAt(line, m.c, n, i) && Blank(line[i + n..])
  }

  /** A line closes a fence exactly when it is as many of its characters or more, blanks apart. */
  lemma ClosesMeans(line: string, m: Marker)
    ensures Closes(line, m) <==> exists n: nat, i: nat :: ClosesAt(line, m, n, i)
  {
    hide Mark, Blank, Skip, RunEnd;
    if Mark(line).Some? {
      MarkOpens(line, Mark(line).value.c, Mark(line).value.len);
      RestBlank(line, Skip(line, 0) + Mark(line).value.len);
      if Closes(line, m) { assert ClosesAt(line, m, Mark(line).value.len, Skip(line, 0)); }
    }
    if n: nat, i: nat :| ClosesAt(line, m, n, i) {
      OpensMark(line, m.c, n, i);
      MarkOpens(line, m.c, n);
    }
  }

  /** A region starts at a fence and ends at the first line after it that closes it, or else at the
      last line. */
  ghost predicate IsRegion(lines: seq<string>, r: (nat, nat)) {
    && r.0 <= r.1 < |lines| && Mark(lines[r.0]).Some?
    && (forall h :: r.0 < h < r.1 ==> !Closes(lines[h], Mark(lines[r.0]).value))
    && ((r.0 < r.1 && Closes(lines[r.1], Mark(lines[r.0]).value)) || r.1 == |lines| - 1)
  }

  ghost predicate InRegion(regions: seq<(nat, nat)>, i: int) {
    exists k :: 0 <= k < |regions| && regions[k].0 <= i <= regions[k].1
  }

  /** The regions from line `from` on, in order; no fence starts outside of them. */
  ghost predicate AreRegions(lines: seq<string>, from: nat, regions: seq<(nat, nat)>) {
    && (forall k :: 0 <= k < |regions| ==> from <= regions[k].0 && IsRegion(lines, regions[k]))
    && (forall k :: 0 < k < |regions| ==> regions[k - 1].1 < regions[k].0)
    && forall i :: from <= i < |lines| && !InRegion(regions, i) ==> Mark(lines[i]).None?
  }

  lemma {:induction false} RegionsMean(lines: seq<string>, i: nat)
    requires i <= |lines|
    ensures AreRegions(lines, i, Regions(lines[i..], i))
    decreases |lines| - i
  {
    hide Regions, Mark, Closes, Inside, AreRegions, IsRegion;
    if i == |lines| {
      assert lines[i..] == [];
      NoRegions(i);
      NoneLeft(lines);
    } else {
      RegionsStep(lines, i);
      if Mark(lines[i]).None? {
        RegionsMean(lines, i + 1);
        OutsideRegions(lines, i, Regions(lines[i + 1..], i + 1));
      } else {
        InsideStops(lines, i + 1, Mark(lines[i]).value);
        var j := i + 1 + Inside(lines[i + 1..], Mark(lines[i]).value);
        assert IsRegion(lines, (i, if j < |lines| then j else j - 1)) by { RegionAt(lines, i, j); }
        if j < |lines| {
          RegionsMean(lines, j + 1);
          OneMoreRegion(lines, (i, j), Regions(lines[j + 1..], j + 1));
        } else {
          NoneLeft(lines);
          OneMoreRegion(lines, (i, j - 1), []);
          assert [(i, j - 1)] + [] == [(i, j - 1)];
        }
      }
    }
  }

  lemma NoneLeft(lines: seq<string>)
    ensures AreRegions(lines, |lines|, [])
  {
  }

  lemma OutsideRegions(lines: seq<string>, i: nat, regions: seq<(nat, nat)>)
    requires i < |lines| && Mark(lines[i]).None? && AreRegions(lines, i + 1, regions)
    ensures AreRegions(lines, i, regions)
  {
    hide Mark, IsRegion;
  }

  lemma RegionAt(lines: seq<string>, i: nat, j: nat)
    requires i < j <= |lines| && Mark(lines[i]).Some?
    requires j < |lines| ==> Closes(lines[j], Mark(lines[i]).value)
    requires forall h :: i < h < j ==> !Closes(lines[h], Mark(lines[i]).value)
    ensures IsRegion(lines, (i, if j < |lines| then j else j - 1))
  {
    hide Mark, Closes;
  }

  lemma InsideStops(lines: seq<string>, i: nat, m: Marker)
    requires i <= |lines|
    ensures var j := i + Inside(lines[i..], m);
      && i <= j <= |lines| && (j < |lines| ==> Closes(lines[j], m))
      && forall h :: i <= h < j ==> !Closes(lines[h], m)
  {
    hide Closes;
    var j := i + Inside(lines[i..], m);
    forall h | i <= h < j ensures !Closes(lines[h], m) { assert lines[i..][h - i] == lines[h]; }
  }

  lemma OneMoreRegion(lines: seq<string>, r: (nat, nat), rest: seq<(nat, nat)>)
    requires IsRegion(lines, r) && AreRegions(lines, r.1 + 1, rest)
    ensures AreRegions(lines, r.0, [r] + rest)
  {
    hide Mark, IsRegion;
    var all := [r] + rest;
    assert all[0] == r && forall k :: 0 <= k < |rest| ==> all[k + 1] == rest[k];
    assert forall i :: r.0 <= i <= r.1 ==> InRegion(all, i);
    forall i | InRegion(rest, i) ensures InRegion(all, i) {
      var k :| 0 <= k < |rest| && rest[k].0 <= i <= rest[k].1;
      assert all[k + 1].0 <= i <= all[k + 1].1;
    }
    forall k | 0 <= k < |all| ensures r.0 <= all[k].0 && IsRegion(lines, all[k]) {
      assert r.0 <= r.1 by { RegionOrdered(lines, r); }
    }
  }

  lemma RegionOrdered(lines: seq<string>, r: (nat, nat))
    requires IsRegion(lines, r)
    ensures r.0 <= r.1
  {
  }

  /** `fenced_regions` */
  method FencedRegions(lines: seq<string>) returns (regions: seq<(nat, nat)>)
    ensures regions == Regions(lines, 0) && AreRegions(lines, 0, regions)
  {
    hide Regions, Inside, Mark, RestOf, AreRegions;
    RegionsMean(lines, 0);
    assert lines[0..] == lines;
    regions := [];
    var i := 0;
    StartRest(lines);
    while i < |lines|
      invariant i <= |lines| + 1
      invariant regions + RestOf(lines, i) == Regions(lines, 0)
    {
      RestStep(lines, i, regions);
      var m := Mark(lines[i]);
      if m.Some? {
        var j := FindClose(lines, i + 1, m.value);
        regions := regions + [(i, if j < |lines| - 1 then j else |lines| - 1)];
        i := j + 1;
      } else {
        i := i + 1;
      }
    }
    EndRest(lines, i);
    assert regions + [] == regions;
  }

  /** What is still to be found from line i on. */
  ghost function RestOf(lines: seq<string>, i: nat): seq<(nat, nat)> {
    if i <= |lines| then Regions(lines[i..], i) else []
  }

  lemma StartRest(lines: seq<string>)
    ensures [] + RestOf(lines, 0) == Regions(lines, 0)
  {
    assert lines[0..] == lines;
  }

  lemma EndRest(lines: seq<string>, i: nat)
    requires i >= |lines|
    ensures RestOf(lines, i) == []
  {
    if i == |lines| {
      assert lines[i..] == [];
      NoRegions(i);
    }
  }

  lemma RestStep(lines: seq<string>, i: nat, regions: seq<(nat, nat)>)
    requires i < |lines|
    ensures Mark(lines[i]).None? ==> RestOf(lines, i) == RestOf(lines, i + 1)
    ensures Mark(lines[i]).Some? ==>
      var j := i + 1 + Inside(lines[i + 1..], Mark(lines[i]).value);
      regions + RestOf(lines, i) == regions + [(i, if j < |lines| - 1 then j else |lines| - 1)] + RestOf(lines, j + 1)
  {
    hide Regions, Inside, Mark;
    RegionsStep(lines, i);
  }

  lemma NoRegions(i: nat)
    ensures Regions([], i) == []
  {
  }

  // ---------------------------------------------------------------------- the round trip

  datatype Block = Prose(line: string) | Fenced(code: string, lang: string)

  /** A line of prose opens no fence; a language is what `lang_of` makes. */
  ghost predicate WellFormed(doc: seq<Block>) {
    forall i :: 0 <= i < |doc| ==>
      if doc[i].Prose? then Mark(doc[i].line).None? else IsLang(doc[i].lang)
  }

  function BlockLines(b: Block): seq<string> {
    match b
    case Prose(line) => [line]
    case Fenced(code, lang) => FenceLines(code, lang)
  }

  function Render(doc: seq<Block>): seq<string> {
    if doc == [] then [] else BlockLines(doc[0]) + Render(doc[1..])
  }

  /** Where a block's opening and closing fences are when it starts at `base`. */
  function Span(code: string, base: nat): (nat, nat) {
    var start := if Guarded(code) then base + 1 else base;
    (start, start + |SplitLines(code)| + 1)
  }

  function Spans(doc: seq<Block>, base: nat): seq<(nat, nat)> {
    if doc == [] then []
    else (if doc[0].Fenced? then [Span(doc[0].code, base)] else []) + Spans(doc[1..], base + |BlockLines(doc[0])|)
  }

  /** A fence of n ticks and a language, or nothing, opens with n ticks. */
  lemma FenceOpens(n: nat, lang: string)
    requires 3 <= n && IsLang(lang)
    ensures Mark(Repeat('`', n) + lang) == Some(Marker('`', n))
  {
    var line := Repeat('`', n) + lang;
    assert forall k :: 0 <= k < n ==> line[k] == '`';
    assert lang != "" ==> line[n] == lang[0] && LangChar(lang[0]);
    assert line[0] == '`' && Skip(line, 0) == 0;
    assert RunEnd(line, 0, '`') == n;
  }

  lemma FenceCloses(n: nat)
    requires 3 <= n
    ensures Closes(Repeat('`', n), Marker('`', n))
  {
  }

  /** A line that closes a fence of n ticks contains n ticks. */
  lemma ClosingHasTicks(line: string, n: nat)
    requires Closes(line, Marker('`', n))
    ensures HasTicks(line, n)
  {
    var i := Skip(line, 0);
    assert line[i..i + n] == Repeat('`', n);
    assert At(line, Repeat('`', n), i);
  }

  /** A line of the code lies in the code. */
  lemma {:induction false} LineSpan(code: string, k: nat) returns (at: nat)
    requires k < |SplitLines(code)|
    ensures At(code, SplitLines(code)[k], at)
  {
    hide SplitLines;
    EmptyLines();
    if code == "" {
      return 0;
    }
    var init, c := code[..|code| - 1], code[|code| - 1];
    var l := SplitLines(init);
    SplitMore(code);
    if k < |l| - 1 || (k == |l| - 1 && c == '\n') {
      at := LineSpan(init, k);
      assert code == init + [c] && SplitLines(code)[k] == l[k];
      assert code[at..at + |l[k]|] == init[at..at + |l[k]|];
    } else {
      LastLine(code);
      at := |code| - |SplitLines(code)[k]|;
    }
  }

  lemma LineInCode(code: string, k: nat, t: string)
    requires k < |SplitLines(code)| && Contains(SplitLines(code)[k], t)
    ensures Contains(code, t)
  {
    hide SplitLines;
    var line := SplitLines(code)[k];
    var i :| 0 <= i <= |line| && At(line, t, i);
    var at := LineSpan(code, k);
    AtInside(code, line, t, at, i);
  }

  lemma AtInside(s: string, line: string, t: string, at: nat, i: nat)
    requires At(s, line, at) && At(line, t, i)
    ensures Contains(s, t)
  {
    var here := s[at + i..at + i + |t|];
    forall x | 0 <= x < |t| ensures here[x] == t[x] {
      assert t[x] == line[i..i + |t|][x] == line[i + x] == s[at..at + |line|][i + x];
    }
    assert here == t && At(s, t, at + i);
  }

  lemma {:induction false} LastLine(code: string)
    ensures var l := SplitLines(code); var last := l[|l| - 1]; |last| <= |code| && code[|code| - |last|..] == last
  {
    hide SplitLines;
    if code == "" {
      EmptyLines();
    } else {
      var init, c := code[..|code| - 1], code[|code| - 1];
      LastLine(init);
      SplitMore(code);
      var l := SplitLines(init);
      var last := l[|l| - 1];
      assert code == init + [c];
      assert c != '\n' ==> code[|code| - |last + [c]|..] == init[|init| - |last|..] + [c];
    }
  }

  /** No line of the code closes the fence around it. */
  lemma CodeStaysInside(code: string, k: nat, n: nat)
    requires k < |SplitLines(code)| && !HasTicks(code, n)
    ensures !Closes(SplitLines(code)[k], Marker('`', n))
  {
    if Closes(SplitLines(code)[k], Marker('`', n)) {
      ClosingHasTicks(SplitLines(code)[k], n);
      LineInCode(code, k, Repeat('`', n));
    }
  }

  lemma {:induction false} InsideIs(lines: seq<string>, k: nat, m: Marker)
    requires k < |lines| && Closes(lines[k], m) && forall h :: 0 <= h < k ==> !Closes(lines[h], m)
    ensures Inside(lines, m) == k
  {
  }

  lemma OpenRegion(lines: seq<string>, base: nat, m: Marker, k: nat)
    requires lines != [] && Mark(lines[0]) == Some(m) && k < |lines| - 1 && Inside(lines[1..], m) == k
    ensures Regions(lines, base) == [(base, base + k + 1)] + Regions(lines[k + 2..], base + k + 2)
  {
    hide Mark, Inside;
  }

  /** A printed fence is one region, however the document goes on. */
  lemma BodyRegion(code: string, lang: string, rest: seq<string>, base: nat)
    requires IsLang(lang)
    ensures Regions(Body(code, lang) + rest, base)
         == [(base, base + |SplitLines(code)| + 1)] + Regions(rest, base + |SplitLines(code)| + 2)
  {
    hide Regions, SplitLines, Closes, Mark;
    var n, inner := Ticks(code, 3), SplitLines(code);
    var ticks := Repeat('`', n);
    FenceOpens(n, lang);
    FenceCloses(n);
    forall h | 0 <= h < |inner| ensures !Closes(inner[h], Marker('`', n)) {
      CodeStaysInside(code, h, n);
    }
    hide Ticks;
    var lines := Body(code, lang) + rest;
    InsideIs(lines[1..], |inner|, Marker('`', n));
    OpenRegion(lines, base, Marker('`', n), |inner|);
  }

  lemma ProseRegion(line: string, rest: seq<string>, base: nat)
    requires Mark(line).None?
    ensures Regions([line] + rest, base) == Regions(rest, base + 1)
  {
  }

  lemma FenceRegion(code: string, lang: string, rest: seq<string>, base: nat)
    requires IsLang(lang)
    ensures Regions(FenceLines(code, lang) + rest, base)
         == [Span(code, base)] + Regions(rest, base + |FenceLines(code, lang)|)
  {
    hide Regions, Ticks, SplitLines;
    if Guarded(code) {
      var after := [ENDRAW] + rest;
      assert FenceLines(code, lang) + rest == [RAW] + (Body(code, lang) + after);
      ProseRegion(RAW, Body(code, lang) + after, base);
      BodyRegion(code, lang, after, base + 1);
      ProseRegion(ENDRAW, rest, base + 1 + |SplitLines(code)| + 2);
    } else {
      BodyRegion(code, lang, rest, base);
    }
  }

  /** The round trip: parsing a rendered document finds exactly its blocks, in order. */
  lemma {:induction false} RoundTrip(doc: seq<Block>, base: nat)
    requires WellFormed(doc)
    ensures Regions(Render(doc), base) == Spans(doc, base)
  {
    hide Regions, FenceLines, Mark, Span, IsLang;
    if doc == [] {
      NoRegions(base);
    } else {
      var tail := Spans(doc[1..], base + |BlockLines(doc[0])|);
      assert Spans(doc, base) == if doc[0].Fenced? then [Span(doc[0].code, base)] + tail else tail;
      RoundTrip(doc[1..], base + |BlockLines(doc[0])|);
      match doc[0] {
        case Prose(line) => ProseRegion(line, Render(doc[1..]), base);
        case Fenced(code, lang) => FenceRegion(code, lang, Render(doc[1..]), base);
      }
    }
  }

  /** The lines strictly inside a block's span are its code, which they give back. */
  lemma SpanHoldsCode(code: string, lang: string)
    ensures var (start, end) := Span(code, 0);
            var lines := FenceLines(code, lang);
            start < end < |lines| && lines[start + 1..end] == SplitLines(code)
                && JoinLines(lines[start + 1..end]) == code
  {
    hide SplitLines, Ticks;
    JoinSplit(code);
    var ticks := Repeat('`', Ticks(code, 3));
    var l := SplitLines(code);
    Middle([ticks + lang], l, [ticks]);
    Middle([RAW, ticks + lang], l, [ticks, ENDRAW]);
    assert [RAW] + Body(code, lang) + [ENDRAW] == [RAW, ticks + lang] + l + [ticks, ENDRAW];
  }

  /** The codes of a document's blocks, in order. */
  function Codes(doc: seq<Block>): seq<string> {
    if doc == [] then [] else (if doc[0].Fenced? then [doc[0].code] else []) + Codes(doc[1..])
  }

  /** The lines strictly inside the span are the code, in a text that starts at line `base`. */
  ghost predicate Holds(lines: seq<string>, base: nat, span: (nat, nat), code: string) {
    && base <= span.0 < span.1 < base + |lines|
    && lines[span.0 + 1 - base..span.1 - base] == SplitLines(code)
    && JoinLines(lines[span.0 + 1 - base..span.1 - base]) == code
  }

  /** So in a whole document: the lines strictly inside the k-th span are the k-th code. */
  lemma {:induction false} SpansHoldCodes(doc: seq<Block>, base: nat, k: nat)
    requires k < |Spans(doc, base)|
    ensures |Spans(doc, base)| == |Codes(doc)| && Holds(Render(doc), base, Spans(doc, base)[k], Codes(doc)[k])
  {
    hide Holds, BlockLines, Span;
    var first, rest, next := BlockLines(doc[0]), Render(doc[1..]), base + |BlockLines(doc[0])|;
    SameNumber(doc, base);
    SameNumber(doc[1..], next);
    if doc[0].Fenced? && k == 0 {
      FirstHolds(doc[0].code, doc[0].lang, rest, base);
    } else {
      var own := if doc[0].Fenced? then 1 else 0;
      SpansHoldCodes(doc[1..], next, k - own);
      RestHolds(first, rest, base, Spans(doc[1..], next)[k - own], Codes(doc[1..])[k - own]);
    }
  }

  lemma FirstHolds(code: string, lang: string, rest: seq<string>, base: nat)
    ensures Holds(BlockLines(Fenced(code, lang)) + rest, base, Span(code, base), code)
  {
    hide SplitLines, FenceLines, JoinLines, Span;
    SpanMoves(code, base);
    SpanHoldsCode(code, lang);
    SliceFirst(FenceLines(code, lang), rest, Span(code, 0).0 + 1, Span(code, 0).1);
  }

  lemma RestHolds(first: seq<string>, rest: seq<string>, base: nat, span: (nat, nat), code: string)
    requires Holds(rest, base + |first|, span, code)
    ensures Holds(first + rest, base, span, code)
  {
    hide SplitLines, JoinLines;
    SliceRest(first, rest, span.0 + 1 - base, span.1 - base);
  }

  lemma SliceFirst<T>(a: seq<T>, b: seq<T>, lo: nat, hi: nat)
    requires lo <= hi <= |a|
    ensures (a + b)[lo..hi] == a[lo..hi]
  {
  }

  lemma SliceRest<T>(a: seq<T>, b: seq<T>, lo: nat, hi: nat)
    requires |a| <= lo <= hi <= |a| + |b|
    ensures (a + b)[lo..hi] == b[lo - |a|..hi - |a|]
  {
  }

  lemma {:induction false} SameNumber(doc: seq<Block>, base: nat)
    ensures |Spans(doc, base)| == |Codes(doc)|
  {
    if doc != [] { SameNumber(doc[1..], base + |BlockLines(doc[0])|); }
  }

  lemma SpanMoves(code: string, base: nat)
    ensures Span(code, base) == (Span(code, 0).0 + base, Span(code, 0).1 + base)
  {
  }

  lemma Middle<T>(a: seq<T>, b: seq<T>, c: seq<T>)
    ensures (a + b + c)[|a|..|a| + |b|] == b
  {
  }
}
