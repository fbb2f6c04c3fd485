/**
 * Python's `str(n)` for an integer, as the f-string at main.py:65 uses it to
 * put the message id into the deep link, and its inverse on the digits
 * `str` produces.
 */
module Decimal {
  import opened Wrappers
  import opened CharClasses

  predicate IsAsciiDigit(c: char) {
    '0' <= c <= '9'
  }

  function AsciiDigit(d: nat): (c: char)
    requires d < 10
    ensures IsAsciiDigit(c) && IsDigit(c) && DigitValue(c) == d
  {
    ('0' as int + d) as char
  }

  /** `str(n)` for n >= 0: ASCII digits, most significant first, without leading zeros. */
  function NatToDecimal(n: nat): (s: string)
    ensures |s| >= 1
    ensures forall k | 0 <= k < |s| :: IsAsciiDigit(s[k])
    ensures |s| > 1 ==> s[0] != '0'
    ensures AllDigits(s)
  {
    if n < 10 then [AsciiDigit(n)] else NatToDecimal(n / 10) + [AsciiDigit(n % 10)]
  }

  /** `str(n)` for any integer: a minus sign in front of negative values. */
  function IntToDecimal(n: int): (s: string)
    ensures |s| >= 1
    ensures s[0] == '-' <==> n < 0
    ensures forall k | (if n < 0 then 1 else 0) <= k < |s| :: IsAsciiDigit(s[k])
    ensures n < 0 ==> |s| > 1
  {
    if n < 0 then "-" + NatToDecimal(-n) else NatToDecimal(n)
  }

  /** Reads back what `IntToDecimal` writes: an optional minus sign, then a nonempty digit run. */
  function ParseInt(s: string): (r: Option<int>)
    ensures r.Some? && s != [] && s[0] != '-' ==> r.value >= 0
  {
    if s != [] && s[0] == '-' then
      (if |s| > 1 && AllDigits(s[1..]) then var v: int := DecimalValue(s[1..]); Some(-v) else None)
    else if s != [] && AllDigits(s) then Some(DecimalValue(s))
    else None
  }

  /** `int(str(n)) == n` for natural numbers. */
  lemma {:induction false} NatToDecimalValue(n: nat)
    ensures DecimalValue(NatToDecimal(n)) == n
  {
    if n >= 10 {
      NatToDecimalValue(n / 10);
      DecimalValueSnoc(NatToDecimal(n / 10), AsciiDigit(n % 10));
    }
  }

  /** Every integer survives the trip through its decimal text. */
  lemma IntToDecimalRoundTrip(n: int)
    ensures ParseInt(IntToDecimal(n)) == Some(n)
  {
    if n < 0 {
      var t := NatToDecimal(-n);
      NatToDecimalValue(-n);
      assert ("-" + t)[1..] == t;
    } else {
      NatToDecimalValue(n);
    }
  }

  /** Hence distinct ids never share a decimal text. */
  lemma IntToDecimalInjective(m: int, n: int)
    requires IntToDecimal(m) == IntToDecimal(n)
    ensures m == n
  {
    IntToDecimalRoundTrip(m);
    IntToDecimalRoundTrip(n);
  }
}
