/** The part of JavaScript's string library the component relies on: `String.prototype.trim`. */
module JsStrings {

  /** The code points `trim` strips: ECMAScript's WhiteSpace (tab, vertical tab, form feed,
      the byte order mark and every space separator) and LineTerminator (LF, CR, LS, PS). */
  predicate IsTrimmable(c: char) {
    c == '\t' || c == '\n' || c == '\U{000B}' || c == '\U{000C}' || c == '\r'
    || c == ' ' || c == '\U{00A0}' || c == '\U{1680}'
    || ('\U{2000}' <= c <= '\U{200A}')
    || c == '\U{2028}' || c == '\U{2029}' || c == '\U{202F}' || c == '\U{205F}'
    || c == '\U{3000}' || c == '\U{FEFF}'
  }

  /** The number of trimmable characters at the start of s. */
  function LeadingLength(s: string): (n: nat)
    ensures n <= |s|
    ensures forall k :: 0 <= k < n ==> IsTrimmable(s[k])
    ensures n < |s| ==> !IsTrimmable(s[n])
  {
    if |s| > 0 && IsTrimmable(s[0]) then 1 + LeadingLength(s[1..]) else 0
  }

  /** The number of trimmable characters at the end of s. */
  function TrailingLength(s: string): (n: nat)
    ensures n <= |s|
    ensures forall k :: |s| - n <= k < |s| ==> IsTrimmable(s[k])
    ensures n < |s| ==> !IsTrimmable(s[|s| - 1 - n])
  {
    if |s| > 0 && IsTrimmable(s[|s| - 1]) then 1 + TrailingLength(s[..|s| - 1]) else 0
  }

  /** r is s with the first a characters and everything after the next |r| removed,
      and every removed character is trimmable. */
  predicate StripsTo(s: string, a: nat, r: string) {
    a + |r| <= |s| && r == s[a..a + |r|]
    && (forall k :: 0 <= k < a ==> IsTrimmable(s[k]))
    && (forall k :: a + |r| <= k < |s| ==> IsTrimmable(s[k]))
  }

  /** `s.trim()`: s without its leading and trailing whitespace and line terminators. */
  function Trim(s: string): (r: string)
    ensures exists a :: StripsTo(s, a, r)
    ensures r == [] || (!IsTrimmable(r[0]) && !IsTrimmable(r[|r| - 1]))
  {
    var a := LeadingLength(s);
    var rest := s[a..];
    var r := rest[..|rest| - TrailingLength(rest)];
    assert StripsTo(s, a, r);
    r
  }

  /** Trimming a trimmed string changes nothing. */
  lemma TrimIdempotent(s: string)
    ensures Trim(Trim(s)) == Trim(s)
  {
    var r := Trim(s);
    assert LeadingLength(r) == 0;
    assert TrailingLength(r) == 0;
  }
}
