/** Character classes, case folding and the one-or-more character-class
    regular expressions the query checks use. Case folding covers ASCII
    letters only: every other character is left as it is. */
module Text {

  /** `\d` in a JavaScript regular expression: ASCII digits only. */
  predicate IsDigit(c: char) {
    '0' <= c <= '9'
  }

  predicate IsAsciiLetter(c: char) {
    'a' <= c <= 'z' || 'A' <= c <= 'Z'
  }

  /** The class `[a-zA-Z0-9]`. */
  predicate IsAlphanumeric(c: char) {
    IsAsciiLetter(c) || IsDigit(c)
  }

  /** The class `[^a-zA-Z0-9]`. */
  predicate IsSpecial(c: char) {
    !IsAlphanumeric(c)
  }

  predicate IsAscii(s: string) {
    forall i :: 0 <= i < |s| ==> s[i] as int < 128
  }

  function UpperChar(c: char): char {
    if 'a' <= c <= 'z' then (c as int - 32) as char else c
  }

  function LowerChar(c: char): char {
    if 'A' <= c <= 'Z' then (c as int + 32) as char else c
  }

  /** `s.toUpperCase()`, restricted to ASCII letters. */
  function Upper(s: string): (u: string)
    ensures |u| == |s|
    ensures forall i :: 0 <= i < |s| ==> u[i] == UpperChar(s[i])
    ensures forall i :: 0 <= i < |u| ==> !('a' <= u[i] <= 'z')
  {
    if s == [] then [] else [UpperChar(s[0])] + Upper(s[1..])
  }

  /** `s.toLowerCase()`, restricted to ASCII letters. */
  function Lower(s: string): (l: string)
    ensures |l| == |s|
    ensures forall i :: 0 <= i < |s| ==> l[i] == LowerChar(s[i])
    ensures forall i :: 0 <= i < |l| ==> !('A' <= l[i] <= 'Z')
  {
    if s == [] then [] else [LowerChar(s[0])] + Lower(s[1..])
  }

  /** On ASCII strings, comparing upper-cased forms (as the exact-match check
      does) and comparing lower-cased forms (as the city-name check does)
      decide the same thing. Outside ASCII, JavaScript's full Unicode case
      mapping can make the two differ, so nothing is claimed there. */
  lemma FoldAgree(a: string, b: string)
    requires IsAscii(a) && IsAscii(b)
    ensures Upper(a) == Upper(b) <==> Lower(a) == Lower(b)
  {
  }

  /** The anchored regular expression `^[cls]+$` run against `s`: one
      character of the class, then either the end of the input or another
      match of the same expression on the rest. JavaScript's `$` without the
      `m` flag matches only at the very end. */
  function MatchesOneOrMore(cls: char -> bool, s: string): (m: bool)
    ensures m <==> |s| > 0 && forall i :: 0 <= i < |s| ==> cls(s[i])
  {
    |s| > 0 && cls(s[0]) && (|s| == 1 || MatchesOneOrMore(cls, s[1..]))
  }
}
