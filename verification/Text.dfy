/** Small string and option vocabulary shared by the models. */
module Text {
  datatype Option<+T> = None | Some(value: T)

  datatype Result<+T> = Ok(value: T) | Err(message: string)

  /** Python's Unicode white space (`str.isspace`, `\s`, what `strip` removes). */
  predicate IsSpace(c: char) {
    || '\t' <= c <= '\r'
    || '\U{1C}' <= c <= ' '
    || c == '\U{85}' || c == '\U{A0}' || c == '\U{1680}'
    || '\U{2000}' <= c <= '\U{200A}'
    || c == '\U{2028}' || c == '\U{2029}' || c == '\U{202F}' || c == '\U{205F}' || c == '\U{3000}'
  }

  /** `not s.strip()` */
  predicate Blank(s: string) {
    forall i :: 0 <= i < |s| ==> IsSpace(s[i])
  }

  ghost predicate HasText(texts: seq<string>) {
    exists k :: 0 <= k < |texts| && !Blank(texts[k])
  }

  /** `s.rstrip()` */
  function Rstrip(s: string): (r: string)
    ensures r <= s
    ensures Blank(s[|r|..])
    ensures r != "" ==> !IsSpace(r[|r| - 1])
  {
    if s != "" && IsSpace(s[|s| - 1]) then
      var r := Rstrip(s[..|s| - 1]);
      assert s[|r|..] == s[..|s| - 1][|r|..] + [s[|s| - 1]];
      r
    else s
  }

  lemma BlankAppend(s: string, t: string)
    ensures Blank(s + t) <==> Blank(s) && Blank(t)
  {
    if Blank(s + t) {
      forall i | 0 <= i < |s| ensures IsSpace(s[i]) { assert (s + t)[i] == s[i]; }
      forall i | 0 <= i < |t| ensures IsSpace(t[i]) { assert (s + t)[|s| + i] == t[i]; }
    }
  }
}
