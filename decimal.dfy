/**
 * Decimal rendering of integers, as Swift's string interpolation `"\(n)"` writes an `Int`:
 * the digits without leading zeros, preceded by `-` when the number is negative.
 */
module Decimal {
  import opened Wrappers

  predicate IsDigit(c: char)
  {
    '0' <= c <= '9'
  }

  predicate AllDigits(s: string)
  {
    forall i :: 0 <= i < |s| ==> IsDigit(s[i])
  }

  function DigitValue(c: char): (d: nat)
    requires IsDigit(c)
    ensures d < 10
  {
    c as int - '0' as int
  }

  function DigitChar(d: nat): (c: char)
    requires d < 10
    ensures IsDigit(c) && DigitValue(c) == d
  {
    ('0' as int + d) as char
  }

  /** Reference reading of a digit string, most significant digit first. */
  function DecimalValue(s: string): nat
    requires AllDigits(s)
  {
    if s == [] then 0 else DecimalValue(s[..|s| - 1]) * 10 + DigitValue(s[|s| - 1])
  }

  /** Reference reading of an optionally signed decimal, the inverse of `IntToDecimal`. */
  function ParseInt(s: string): Option<int>
  {
    if |s| >= 2 && s[0] == '-' && AllDigits(s[1..]) then Option<int>.Some(-(DecimalValue(s[1..]) as int))
    else if |s| >= 1 && AllDigits(s) then Option<int>.Some(DecimalValue(s))
    else None
  }

  /** The digits of `n`: at least one, no leading zero, and they read back as `n`. */
  function NatToDecimal(n: nat): (s: string)
    ensures |s| >= 1 && AllDigits(s)
    ensures DecimalValue(s) == n
    ensures s[0] == '0' ==> s == "0"
  {
    if n < 10 then [DigitChar(n)] else NatToDecimal(n / 10) + [DigitChar(n % 10)]
  }

  /** `"\(n)"` for a Swift `Int`: digits, with a leading `-` only for negative numbers; it parses back to `n`. */
  function IntToDecimal(n: int): (s: string)
    ensures |s| >= 1
    ensures forall i :: 0 <= i < |s| ==> IsDigit(s[i]) || (i == 0 && n < 0 && s[i] == '-')
    ensures ParseInt(s) == Some(n)
  {
    if n < 0 then "-" + NatToDecimal(-n) else NatToDecimal(n)
  }

  /** The two numbers the search request carries render as "0" and "30". */
  lemma SmallNumbersRendered()
    ensures IntToDecimal(0) == "0" && IntToDecimal(30) == "30"
  {
    assert NatToDecimal(3) == ['3'];
    assert NatToDecimal(30) == NatToDecimal(3) + [DigitChar(0)];
  }
}
