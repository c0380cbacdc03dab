/** The part of a DrawingML text body that the deck editors read and write
    (ECMA-376 Part 1, section 21.1.2): paragraphs of runs, fields and breaks. */
module TextTree {
  import opened Text

  /** Colours are canonical upper-case RRGGBB; a run without one inherits it. */
  type Rgb = string

  predicate HexDigit(c: char) {
    '0' <= c <= '9' || 'a' <= c <= 'f' || 'A' <= c <= 'F'
  }

  /** `^[0-9A-Fa-f]{6}$`: the pattern's end is also met before a last newline. */
  predicate IsRgb(s: string) {
    && (|s| == 6 || (|s| == 7 && s[6] == '\n'))
    && forall i :: 0 <= i < 6 ==> HexDigit(s[i])
  }

  /** `check_rgb` passes. */
  predicate RgbOk(s: Option<string>) {
    s.Some? ==> IsRgb(s.value)
  }

  function Upper(s: string): string {
    if s == "" then ""
    else Upper(s[..|s| - 1]) + [if 'a' <= s[|s| - 1] <= 'z' then s[|s| - 1] - 'a' + 'A' else s[|s| - 1]]
  }

  /** `u` is `v` with its hexadecimal digits in upper case. */
  ghost predicate IsUpper(v: string, u: string) {
    |u| == |v| && forall i :: 0 <= i < |v| ==> u[i] == if 'a' <= v[i] <= 'f' then v[i] - 'a' + 'A' else v[i]
  }

  lemma {:induction false} UpperMeans(v: string)
    requires forall i :: 0 <= i < |v| ==> HexDigit(v[i]) || v[i] == '\n'
    ensures IsUpper(v, Upper(v))
  {
    if v != "" {
      UpperMeans(v[..|v| - 1]);
      assert forall i :: 0 <= i < |v| - 1 ==> v[..|v| - 1][i] == v[i];
    }
  }

  /** The colour an op asks for, in upper case, or else the house colour. */
  ghost predicate Asked(given: Option<string>, rgb: Rgb, house: Rgb) {
    if given.Some? then IsUpper(given.value, rgb) else rgb == house
  }

  /** The house colours of code boxes. */
  const CODE_RGB: Rgb := "E6E6E6"
  const COMMENT_RGB: Rgb := "8FB98F"

  /** An `a:r` element. A missing `a:t` reads as the empty text. */
  class Run {
    var text: string
    var rgb: Option<Rgb>
    const format: nat

    constructor (text: string, rgb: Option<Rgb>, format: nat)
      ensures this.text == text && this.rgb == rgb && this.format == format
    {
      this.text, this.rgb, this.format := text, rgb, format;
    }
  }

  /** A child of a paragraph that carries text or ends a line. */
  datatype Child = RunChild(run: Run) | Field(text: string) | Break(style: nat)

  class Paragraph {
    var children: seq<Child>

    constructor (children: seq<Child>)
      ensures this.children == children
    {
      this.children := children;
    }
  }

  class TextBody {
    var paras: seq<Paragraph>

    constructor (paras: seq<Paragraph>)
      ensures this.paras == paras
    {
      this.paras := paras;
    }
  }

  ghost predicate NoBreak(c: seq<Child>) {
    forall i :: 0 <= i < |c| ==> !c[i].Break?
  }

  ghost predicate NoFields(c: seq<Child>) {
    forall i :: 0 <= i < |c| ==> !c[i].Field?
  }

  /** The lines of one paragraph: what lies between its breaks. */
  ghost function LinesOf(c: seq<Child>): (lines: seq<seq<Child>>)
    ensures lines != []
  {
    if c == [] then [[]]
    else
      var rest := LinesOf(c[1..]);
      if c[0].Break? then [[]] + rest else [[c[0]] + rest[0]] + rest[1..]
  }

  ghost function Groups(ps: seq<Paragraph>): seq<seq<seq<Child>>>
    reads ps
  {
    seq(|ps|, k requires 0 <= k < |ps| reads ps => LinesOf(ps[k].children))
  }

  ghost function Concat<T>(groups: seq<seq<T>>): seq<T> {
    if groups == [] then [] else Concat(groups[..|groups| - 1]) + groups[|groups| - 1]
  }

  /** The lines of a box: those of its paragraphs, in order. */
  ghost function BoxLines(ps: seq<Paragraph>): seq<seq<Child>>
    reads ps
  {
    Concat(Groups(ps))
  }

  lemma ConcatStep<T>(groups: seq<seq<T>>, k: nat)
    requires k < |groups|
    ensures Concat(groups[..k + 1]) == Concat(groups[..k]) + groups[k]
  {
    assert groups[..k + 1][..k] == groups[..k];
  }

  ghost function RunsOf(line: seq<Child>): set<Run> {
    set i | 0 <= i < |line| && line[i].RunChild? :: line[i].run
  }

  function ChildText(c: Child): string
    reads if c.RunChild? then {c.run} else {}
  {
    match c
    case RunChild(r) => r.text
    case Field(t) => t
    case Break(_) => ""
  }

  /** The text of a line: its runs' and fields' texts joined. */
  ghost function LineText(line: seq<Child>): string
    reads RunsOf(line)
  {
    if line == [] then "" else LineText(line[..|line| - 1]) + ChildText(line[|line| - 1])
  }

  /** A line whose runs did not change reads the same. */
  twostate lemma {:induction false} LineTextStable(line: seq<Child>)
    requires forall i :: 0 <= i < |line| && line[i].RunChild? ==> line[i].run.text == old(line[i].run.text)
    ensures LineText(line) == old(LineText(line))
  {
    if line != [] {
      LineTextStable(line[..|line| - 1]);
    }
  }

  /** `l` with `x` put after its last line. */
  ghost function ExtendLast(l: seq<seq<Child>>, x: seq<Child>): seq<seq<Child>>
    requires l != []
  {
    l[..|l| - 1] + [l[|l| - 1] + x]
  }

  lemma ExtendLastHead(a: Child, l: seq<seq<Child>>, x: seq<Child>)
    requires l != []
    ensures var e := ExtendLast(l, x);
            ExtendLast([[a] + l[0]] + l[1..], x) == [[a] + e[0]] + e[1..]
  {
    assert ([a] + l[0]) + x == [a] + (l[0] + x);
  }

  /** Appending break-free children extends the last line. */
  lemma {:induction false} LinesExtend(c: seq<Child>, x: seq<Child>)
    requires NoBreak(x)
    ensures LinesOf(c + x) == ExtendLast(LinesOf(c), x)
  {
    if c == [] {
      assert c + x == x;
      LinesOfOne(x);
      assert [] + x == x;
    } else {
      LinesExtend(c[1..], x);
      assert (c + x)[1..] == c[1..] + x;
      ExtendLastHead(c[0], LinesOf(c[1..]), x);
    }
  }

  lemma {:induction false} LinesOfOne(x: seq<Child>)
    requires NoBreak(x)
    ensures LinesOf(x) == [x]
  {
    if x != [] {
      LinesOfOne(x[1..]);
      assert x == [x[0]] + x[1..];
    }
  }

  /** Appending a break opens a new, empty line. */
  lemma {:induction false} LinesBreak(c: seq<Child>, b: Child)
    requires b.Break?
    ensures LinesOf(c + [b]) == LinesOf(c) + [[]]
  {
    if c == [] {
      assert c + [b] == [b];
      assert LinesOf([b][1..]) == [[]];
    } else {
      LinesBreak(c[1..], b);
      assert (c + [b])[1..] == c[1..] + [b];
    }
  }

  /** The first run among the children, if there is one. */
  function FirstRun(c: seq<Child>): Option<Run> {
    if c == [] then None else if c[0].RunChild? then Some(c[0].run) else FirstRun(c[1..])
  }

  lemma {:induction false} FirstRunAt(c: seq<Child>, i: nat)
    requires i <= |c| && forall h :: 0 <= h < i ==> !c[h].RunChild?
    ensures FirstRun(c) == if i == |c| then None else if c[i].RunChild? then Some(c[i].run) else FirstRun(c[i + 1..])
  {
    if 0 < i { FirstRunAt(c[1..], i - 1); }
  }

  function FirstRgb(p: Paragraph): Option<Rgb>
    reads p, RunsOf(p.children)
  {
    FirstRunIn(p.children);
    var first := FirstRun(p.children);
    if first.Some? then first.value.rgb else None
  }

  function FirstFormat(p: Paragraph): nat
    reads p
  {
    var first := FirstRun(p.children);
    if first.Some? then first.value.format else 0
  }

  lemma {:induction false} FirstRunIn(c: seq<Child>)
    ensures var first := FirstRun(c); first.Some? ==> RunChild(first.value) in c && first.value in RunsOf(c)
  {
    if FirstRun(c).Some? && !c[0].RunChild? {
      FirstRunIn(c[1..]);
      var i :| 0 <= i < |c[1..]| && c[1..][i] == RunChild(FirstRun(c).value);
      assert c[i + 1] == c[1..][i];
    }
  }

  /** `set_par_text`: a copy of a paragraph with its first run only, holding `text`. */
  method SetParText(template: Paragraph, text: string) returns (p: Paragraph)
    ensures fresh(p) && |p.children| == 1 && p.children[0].RunChild?
    ensures fresh(p.children[0].run) && p.children[0].run.text == text
    ensures p.children[0].run.rgb == old(FirstRgb(template)) && p.children[0].run.format == FirstFormat(template)
  {
    var first := new Run(text, None, 0);
    for i := 0 to |template.children|
      invariant fresh(first) && first.text == text && first.rgb == None && first.format == 0
      invariant forall h :: 0 <= h < i ==> !template.children[h].RunChild?
    {
      FirstRunAt(template.children, i);
      if template.children[i].RunChild? {
        first := new Run(text, template.children[i].run.rgb, template.children[i].run.format);
        p := new Paragraph([RunChild(first)]);
        return;
      }
    }
    FirstRunAt(template.children, |template.children|);
    p := new Paragraph([RunChild(first)]);
  }
}
