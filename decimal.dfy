/**
  Decimal notation of integers, as a template literal (`${n}`) writes an
  integral number: no leading zeros, a leading '-' only for negatives.
  The footer uses it for the copyright year and for the list index in
  each item's key.
 */
module Decimal {

  predicate IsDigit(c: char) {
    '0' <= c <= '9'
  }

  predicate AllDigits(s: string) {
    forall i :: 0 <= i < |s| ==> IsDigit(s[i])
  }

  function DigitChar(d: nat): (c: char)
    requires d < 10
    ensures IsDigit(c)
  {
    ('0' as int + d) as char
  }

  function DigitValue(c: char): (d: nat)
    requires IsDigit(c)
    ensures d < 10 && DigitChar(d) == c
  {
    c as int - '0' as int
  }

  /** The digits of `n`, most significant first. */
  function NatToDecimal(n: nat): (s: string)
    ensures 1 <= |s|
    ensures AllDigits(s)
    ensures '-' !in s
    ensures s[0] == '0' ==> n == 0
    ensures |s| > 1 ==> s[0] != '0'
  {
    if n < 10 then [DigitChar(n)] else NatToDecimal(n / 10) + [DigitChar(n % 10)]
  }

  /** The number a string of digits denotes (the inverse of `NatToDecimal`). */
  function DecimalValue(s: string): nat
    requires AllDigits(s)
  {
    if |s| == 0 then 0 else DecimalValue(s[..|s| - 1]) * 10 + DigitValue(s[|s| - 1])
  }

  /** Reading back the notation of `n` gives `n`. */
  lemma {:induction false} DecimalRoundTrip(n: nat)
    ensures DecimalValue(NatToDecimal(n)) == n
  {
    if n >= 10 {
      var prefix := NatToDecimal(n / 10);
      var s := NatToDecimal(n);
      assert s[..|s| - 1] == prefix;
      DecimalRoundTrip(n / 10);
    }
  }

  /** Distinct numbers have distinct notations. */
  lemma NatToDecimalInjective(a: nat, b: nat)
    requires NatToDecimal(a) == NatToDecimal(b)
    ensures a == b
  {
    DecimalRoundTrip(a);
    DecimalRoundTrip(b);
  }

  /** Notation of any integer: a leading '-' exactly for negatives, then the digits of its magnitude. */
  function IntToDecimal(i: int): (s: string)
    ensures 1 <= |s|
    ensures (s[0] == '-') <==> i < 0
    ensures i < 0 ==> AllDigits(s[1..]) && DecimalValue(s[1..]) == -i
    ensures i >= 0 ==> AllDigits(s) && DecimalValue(s) == i
    ensures i < 0 ==> |s| >= 2 && s[1] != '0'
    ensures i >= 0 && s[0] == '0' ==> i == 0
    ensures i >= 0 && |s| > 1 ==> s[0] != '0'
  {
    var magnitude := if i < 0 then -i else i;
    assert DecimalValue(NatToDecimal(magnitude)) == magnitude by { DecimalRoundTrip(magnitude); }
    if i < 0 then
      var s := "-" + NatToDecimal(magnitude);
      assert s[1..] == NatToDecimal(magnitude);
      s
    else NatToDecimal(magnitude)
  }
}
