/**
 * String helpers standing for the Python string operations the parser and
 * the validator use: `str.strip`, `str.lower`/`str.upper` (ASCII letters
 * only), substring search with `in`, `', '.join` and integer formatting.
 */
module Text {

  /** The characters `str.strip()` removes: those for which `str.isspace()` holds. */
  predicate IsPythonSpace(c: char) {
    || ('\t' <= c <= '\r')
    || ('\U{1C}' <= c <= '\U{1F}')
    || c == ' '
    || c == '\U{85}'
    || c == '\U{A0}'
    || c == '\U{1680}'
    || ('\U{2000}' <= c <= '\U{200A}')
    || c == '\U{2028}'
    || c == '\U{2029}'
    || c == '\U{202F}'
    || c == '\U{205F}'
    || c == '\U{3000}'
  }

  /** `not s or not s.strip()`: the string is empty or holds only whitespace. */
  predicate IsBlank(s: string) {
    forall i :: 0 <= i < |s| ==> IsPythonSpace(s[i])
  }

  function LowerChar(c: char): char {
    if 'A' <= c <= 'Z' then (c as int + 32) as char else c
  }

  function UpperChar(c: char): char {
    if 'a' <= c <= 'z' then (c as int - 32) as char else c
  }

  /** `s.lower()` under ASCII case mapping. */
  function Lower(s: string): (r: string)
    ensures |r| == |s|
  {
    seq(|s|, i requires 0 <= i < |s| => LowerChar(s[i]))
  }

  /** `s.upper()` under ASCII case mapping. */
  function Upper(s: string): (r: string)
    ensures |r| == |s|
  {
    seq(|s|, i requires 0 <= i < |s| => UpperChar(s[i]))
  }

  predicate IsUpperAscii(s: string) {
    forall i :: 0 <= i < |s| ==> 'A' <= s[i] <= 'Z'
  }

  predicate OccursAt(s: string, sub: string, i: nat) {
    i + |sub| <= |s| && s[i..i + |sub|] == sub
  }

  /** Python's `sub in s` on strings. */
  predicate Contains(s: string, sub: string) {
    exists i: nat | i <= |s| :: OccursAt(s, sub, i)
  }

  /**
   * Upper-casing undoes lower-casing: whenever the lower-cased form of an
   * upper-case word occurs in the lower-cased text, the word itself occurs
   * in the upper-cased text, at the same position.
   */
  lemma LowerOccurrenceGivesUpperOccurrence(s: string, word: string)
    requires IsUpperAscii(word)
    requires Contains(Lower(s), Lower(word))
    ensures Contains(Upper(s), word)
  {
    var i: nat :| i <= |Lower(s)| && OccursAt(Lower(s), Lower(word), i);
    forall j | 0 <= j < |word|
      ensures Upper(s)[i + j] == word[j]
    {
      assert Lower(s)[i..i + |word|][j] == Lower(word)[j];
    }
    assert Upper(s)[i..i + |word|] == word;
    assert OccursAt(Upper(s), word, i);
  }

  function Digit(d: nat): char
    requires d < 10
  {
    "0123456789"[d]
  }

  /** `str(n)` for a natural number: its decimal digits, most significant first. */
  function NatToString(n: nat): (r: string)
    ensures |r| >= 1
    ensures forall i :: 0 <= i < |r| ==> '0' <= r[i] <= '9'
  {
    if n < 10 then [Digit(n)] else NatToString(n / 10) + [Digit(n % 10)]
  }

  /** `sep.join(parts)`. */
  function Join(sep: string, parts: seq<string>): string {
    if parts == [] then ""
    else if |parts| == 1 then parts[0]
    else parts[0] + sep + Join(sep, parts[1..])
  }
}
