/**
 * The character classes that the two deadline patterns use, as Python's `re`
 * module reads them in a `str` pattern: `\s` is Unicode whitespace and `\d` is
 * a Unicode decimal digit, which `int()` then turns into its value.
 */
module CharClasses {

  /** `\s`: exactly the code points for which Python's `str.isspace()` holds. */
  predicate IsSpace(c: char) {
    || ('\t' <= c <= '\r')
    || ('\U{1C}' <= c <= ' ')
    || c == '\U{85}' || c == '\U{A0}' || c == '\U{1680}'
    || ('\U{2000}' <= c <= '\U{200A}')
    || c == '\U{2028}' || c == '\U{2029}' || c == '\U{202F}' || c == '\U{205F}'
    || c == '\U{3000}'
  }

  /** `\d`, restricted to the ASCII digits and the two Arabic-script digit blocks
      (Arabic-Indic U+0660..U+0669 and Extended Arabic-Indic U+06F0..U+06F9). */
  predicate IsDigit(c: char) {
    || ('0' <= c <= '9')
    || ('\U{0660}' <= c <= '\U{0669}')
    || ('\U{06F0}' <= c <= '\U{06F9}')
  }

  /** The numeric value `int()` gives a single digit: its distance from the zero of its block. */
  function DigitValue(c: char): (v: nat)
    requires IsDigit(c)
    ensures v < 10
    ensures c as int - v == '0' as int || c as int - v == '\U{0660}' as int || c as int - v == '\U{06F0}' as int
  {
    if c <= '9' then c as int - '0' as int
    else if c <= '\U{0669}' then c as int - '\U{0660}' as int
    else c as int - '\U{06F0}' as int
  }

  lemma SpaceIsNotDigit(c: char)
    requires IsSpace(c)
    ensures !IsDigit(c)
  {
  }

  predicate AllSpaces(s: seq<char>) {
    forall k | 0 <= k < |s| :: IsSpace(s[k])
  }

  predicate AllDigits(s: seq<char>) {
    forall k | 0 <= k < |s| :: IsDigit(s[k])
  }

  function Pow10(n: nat): (p: nat)
    ensures p >= 1
  {
    if n == 0 then 1 else 10 * Pow10(n - 1)
  }

  /** `int(s)` for a run of digits: the digits read most significant first. */
  function DecimalValue(s: seq<char>): (v: nat)
    requires AllDigits(s)
    ensures v < Pow10(|s|)
  {
    if s == [] then 0 else DecimalValue(s[..|s| - 1]) * 10 + DigitValue(s[|s| - 1])
  }

  /** Appending one digit shifts the value by one decimal place. */
  lemma DecimalValueSnoc(s: seq<char>, c: char)
    requires AllDigits(s) && IsDigit(c)
    ensures AllDigits(s + [c])
    ensures DecimalValue(s + [c]) == DecimalValue(s) * 10 + DigitValue(c)
  {
    assert (s + [c])[..|s|] == s;
  }
}
