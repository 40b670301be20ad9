/** Decimal text for the integers a list holds: the formatting that the list's
    `Display` implementation asks of each `i32` (an optional minus sign, then the
    decimal digits without leading zeros), and a reader that undoes it. */
module Decimal {

  /** The character for one decimal digit. */
  function DigitChar(d: nat): (c: char)
    requires d < 10
    ensures '0' <= c <= '9'
    ensures c as int - '0' as int == d
  {
    ('0' as int + d) as char
  }

  /** The numeric value of a string of digits, most significant first.
      Characters that are not digits still receive a value, so the function is total. */
  function DigitsValue(s: string): (v: int)
  {
    if s == [] then 0
    else DigitsValue(s[..|s| - 1]) * 10 + (s[|s| - 1] as int - '0' as int)
  }

  /** Reads an optionally negative decimal integer. */
  function ParseInt(s: string): (v: int)
  {
    if |s| > 0 && s[0] == '-' then -DigitsValue(s[1..]) else DigitsValue(s)
  }

  /** Canonical decimal digits: at least one digit, only digits, and no leading
      zero unless the text is `0` itself. */
  predicate Canonical(t: string)
  {
    |t| >= 1 &&
    (forall i :: 0 <= i < |t| ==> '0' <= t[i] <= '9') &&
    (t[0] == '0' ==> |t| == 1)
  }

  /** The decimal digits of `n`, with no leading zero (except for `0` itself). */
  function NatToDecimal(n: nat): (s: string)
    ensures Canonical(s)
    ensures DigitsValue(s) == n
  {
    if n < 10 then [DigitChar(n)]
    else
      var s := NatToDecimal(n / 10) + [DigitChar(n % 10)];
      assert s[..|s| - 1] == NatToDecimal(n / 10);
      s
  }

  /** Decimal rendering of a signed integer, as Rust's `{}` formats an `i32`:
      a minus sign exactly for negative values, then canonical digits; the text
      reads back as the same number and never contains a comma. */
  function IntToDecimal(x: int): (s: string)
    ensures |s| >= 1
    ensures x < 0 ==> Canonical(s[1..])
    ensures x >= 0 ==> Canonical(s)
    ensures ',' !in s
    ensures (s[0] == '-') == (x < 0)
    ensures ParseInt(s) == x
  {
    if x < 0 then
      var s := "-" + NatToDecimal(-x);
      assert s[1..] == NatToDecimal(-x);
      s
    else NatToDecimal(x)
  }
}
