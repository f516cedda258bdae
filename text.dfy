/** String helpers the certificate scripts rely on: JavaScript's `String.prototype.trim`
    and "this message contains that text". */
module Text {

  /** The code points `trim` strips: WhiteSpace and LineTerminator of ECMA-262
      (sections 12.2 and 12.3 of the 2024 edition), where WhiteSpace includes every
      character of Unicode category Zs. */
  predicate IsJsWhitespace(c: char)
  {
    c == '\t' || c == '\n' || c == '\U{B}' || c == '\U{C}' || c == '\r' ||
    c == ' ' || c == '\U{A0}' || c == '\U{1680}' ||
    ('\U{2000}' <= c <= '\U{200A}') ||
    c == '\U{2028}' || c == '\U{2029}' || c == '\U{202F}' || c == '\U{205F}' ||
    c == '\U{3000}' || c == '\U{FEFF}'
  }

  /** The number of whitespace characters `s` starts with. */
  function LeadingWhitespace(s: string): (k: nat)
    ensures k <= |s|
    ensures forall i :: 0 <= i < k ==> IsJsWhitespace(s[i])
    ensures k < |s| ==> !IsJsWhitespace(s[k])
  {
    if s == [] || !IsJsWhitespace(s[0]) then 0 else 1 + LeadingWhitespace(s[1..])
  }

  /** The number of whitespace characters `s` ends with. */
  function TrailingWhitespace(s: string): (k: nat)
    ensures k <= |s|
    ensures forall i :: |s| - k <= i < |s| ==> IsJsWhitespace(s[i])
    ensures k < |s| ==> !IsJsWhitespace(s[|s| - 1 - k])
  {
    if s == [] || !IsJsWhitespace(s[|s| - 1]) then 0 else 1 + TrailingWhitespace(s[..|s| - 1])
  }

  /** `s.trim()`: the longest infix of `s` that neither starts nor ends with whitespace. */
  function Trim(s: string): (r: string)
    ensures |r| <= |s|
    ensures r == [] <==> forall i :: 0 <= i < |s| ==> IsJsWhitespace(s[i])
    ensures r != [] ==> !IsJsWhitespace(r[0]) && !IsJsWhitespace(r[|r| - 1])
  {
    var t := s[LeadingWhitespace(s)..];
    t[..|t| - TrailingWhitespace(t)]
  }

  /** What `trim` keeps is exactly the part of `s` between its leading whitespace and
      a run of whitespace that ends the string. */
  lemma TrimIsInfix(s: string)
    ensures LeadingWhitespace(s) + |Trim(s)| <= |s|
    ensures Trim(s) == s[LeadingWhitespace(s)..LeadingWhitespace(s) + |Trim(s)|]
    ensures forall i :: LeadingWhitespace(s) + |Trim(s)| <= i < |s| ==> IsJsWhitespace(s[i])
  {
    var l := LeadingWhitespace(s);
    var t := s[l..];
    forall i | l + |Trim(s)| <= i < |s|
      ensures IsJsWhitespace(s[i])
    {
      assert s[i] == t[i - l];
    }
  }

  /** `!s.trim()`: the string is empty or whitespace only. */
  predicate IsBlank(s: string)
  {
    Trim(s) == []
  }

  /** A string that neither starts nor ends with whitespace is its own trim. */
  lemma TrimOfTrimmed(s: string)
    requires s != [] ==> !IsJsWhitespace(s[0]) && !IsJsWhitespace(s[|s| - 1])
    ensures Trim(s) == s
  {
  }

  /** Trimming twice is trimming once. */
  lemma TrimIdempotent(s: string)
    ensures Trim(Trim(s)) == Trim(s)
  {
  }

  /** Whitespace appended to text that neither starts nor ends with whitespace is
      trimmed off again. */
  lemma TrimDropsPadding(s: string, padding: string)
    requires s != [] && !IsJsWhitespace(s[0]) && !IsJsWhitespace(s[|s| - 1])
    requires forall i :: 0 <= i < |padding| ==> IsJsWhitespace(padding[i])
    ensures Trim(s + padding) == s
  {
    var t := s + padding;
    assert t[0] == s[0];
    assert LeadingWhitespace(t) == 0;
    assert t[..|s|] == s;
  }

  /** `sub` occurs in `s` starting at position `k`. */
  predicate OccursAt(s: string, sub: string, k: nat)
  {
    k + |sub| <= |s| && s[k..k + |sub|] == sub
  }

  /** `s` contains `sub` (`s.includes(sub)`). */
  predicate Mentions(s: string, sub: string)
  {
    exists k: nat | k <= |s| :: OccursAt(s, sub, k)
  }

  /** Whatever is spliced into a message is mentioned by it. */
  lemma MentionsSpliced(prefix: string, sub: string, suffix: string)
    ensures Mentions(prefix + sub + suffix, sub)
  {
    var s := prefix + sub + suffix;
    assert s[|prefix|..|prefix| + |sub|] == sub;
    assert OccursAt(s, sub, |prefix|);
  }
}
