/**
 * Decimal rendering of integers, as `Number.prototype.toString()` produces it for
 * safe integers (magnitude below 2^53, where a double is exact and is printed as
 * plain digits), together with an independent parser used to prove that the
 * rendering loses no information.
 */
module Decimal {
  import opened Wrappers

  predicate IsDigit(c: char) {
    '0' <= c <= '9'
  }

  predicate AllDigits(s: string) {
    forall i :: 0 <= i < |s| ==> IsDigit(s[i])
  }

  function DigitChar(d: nat): (c: char)
    requires d < 10
    ensures IsDigit(c)
    ensures c as int - '0' as int == d
  {
    ('0' as int + d) as char
  }

  function DigitValue(c: char): (d: nat)
    requires IsDigit(c)
    ensures d < 10
  {
    c as int - '0' as int
  }

  /** The decimal digits of `n`, most significant first, without leading zeros. */
  function NatToDecimal(n: nat): (s: string)
    ensures |s| >= 1
    ensures AllDigits(s)
    ensures |s| > 1 ==> s[0] != '0'
    decreases n
  {
    if n < 10 then [DigitChar(n)] else NatToDecimal(n / 10) + [DigitChar(n % 10)]
  }

  /** `n.toString()` for a safe integer `n` (plain digits, no exponent form). */
  function IntToDecimal(n: int): (s: string)
    ensures |s| >= 1
    ensures n >= 0 <==> s[0] != '-'
  {
    if n < 0 then "-" + NatToDecimal(-n) else NatToDecimal(n)
  }

  /** The value of a string of decimal digits (most significant first). */
  function DigitsValue(s: string): nat
    requires AllDigits(s)
    decreases |s|
  {
    if s == [] then 0 else DigitsValue(s[..|s| - 1]) * 10 + DigitValue(s[|s| - 1])
  }

  /** Reads an optionally signed, non-empty run of decimal digits; anything else is rejected. */
  function ParseDecimal(s: string): (r: Option<int>)
    ensures r.Some? ==> |s| >= 1
  {
    if |s| >= 2 && s[0] == '-' && AllDigits(s[1..]) then Some(0 - DigitsValue(s[1..]) as int)
    else if |s| >= 1 && AllDigits(s) then Some(DigitsValue(s))
    else None
  }

  lemma {:induction false} NatRoundTrip(n: nat)
    ensures DigitsValue(NatToDecimal(n)) == n
    decreases n
  {
    if n >= 10 {
      var p := NatToDecimal(n / 10);
      var s := NatToDecimal(n);
      assert s == p + [DigitChar(n % 10)];
      assert s[..|s| - 1] == p;
      NatRoundTrip(n / 10);
    }
  }

  /** Parsing the rendering of any integer gives the integer back. */
  lemma RoundTrip(n: int)
    ensures ParseDecimal(IntToDecimal(n)) == Some(n)
  {
    if n < 0 {
      var s := IntToDecimal(n);
      assert s[1..] == NatToDecimal(-n);
      NatRoundTrip(-n);
    } else {
      NatRoundTrip(n);
    }
  }

  /** Distinct integers render as distinct strings. */
  lemma Injective(a: int, b: int)
    requires IntToDecimal(a) == IntToDecimal(b)
    ensures a == b
  {
    RoundTrip(a);
    RoundTrip(b);
  }

  lemma NatInjective(a: nat, b: nat)
    requires NatToDecimal(a) == NatToDecimal(b)
    ensures a == b
  {
    Injective(a, b);
  }
}
