/**
 Rate-limit counters are stored as strings: `String(n)` writes them and
 `Number(s)` reads them back. This module models both for the values a
 counter can hold.
 */
module Decimal {

  /** A JavaScript number as a counter can hold it: a natural, or NaN. */
  datatype Num = Finite(n: nat) | NaN

  predicate IsDigit(c: char)
  {
    '0' <= c <= '9'
  }

  predicate AllDigits(s: string)
  {
    forall i :: 0 <= i < |s| ==> IsDigit(s[i])
  }

  function DigitChar(d: nat): (c: char)
    requires d < 10
    ensures IsDigit(c)
  {
    ('0' as int + d) as char
  }

  /** `String(n)`: the decimal digits of n, without leading zeros. */
  function NatToString(n: nat): (r: string)
    ensures |r| > 0 && AllDigits(r)
    ensures |r| > 1 ==> r[0] != '0'
    decreases n
  {
    if n < 10 then [DigitChar(n)] else NatToString(n / 10) + [DigitChar(n % 10)]
  }

  /** The number a string of decimal digits denotes. */
  function DigitsValue(s: string): nat
    requires AllDigits(s)
  {
    if |s| == 0 then 0 else 10 * DigitsValue(s[..|s| - 1]) + (s[|s| - 1] as int - '0' as int)
  }

  /**
   `Number(s)` on the strings a counter can meet: the empty string is 0, a
   string of decimal digits is its value, and anything else is NaN.
   */
  function ToNumber(s: string): (r: Num)
    ensures r.NaN? <==> !AllDigits(s)
  {
    if AllDigits(s) then Finite(DigitsValue(s)) else NaN
  }

  /** `String(x)`. */
  function NumToString(x: Num): (r: string)
    ensures r != ""
  {
    match x
    case Finite(n) => NatToString(n)
    case NaN => "NaN"
  }

  /** `x + 1`; NaN stays NaN. */
  function Increment(x: Num): (r: Num)
    ensures r.Finite? <==> x.Finite?
    ensures x.Finite? ==> r.n == x.n + 1
  {
    match x
    case Finite(n) => Finite(n + 1)
    case NaN => NaN
  }

  /** `Number(String(n)) === n`. */
  lemma {:induction false} NatToStringRoundTrip(n: nat)
    ensures DigitsValue(NatToString(n)) == n
    decreases n
  {
    if n >= 10 {
      var s := NatToString(n);
      assert s[..|s| - 1] == NatToString(n / 10);
      NatToStringRoundTrip(n / 10);
    }
  }

  /** Reading back a written counter gives the same number, NaN included. */
  lemma NumberRoundTrip(x: Num)
    ensures ToNumber(NumToString(x)) == x
  {
    match x
    case Finite(n) =>
      NatToStringRoundTrip(n);
    case NaN =>
      assert !IsDigit("NaN"[0]);
  }

  /** Distinct naturals have distinct decimal forms. */
  lemma NatToStringInjective(a: nat, b: nat)
    ensures NatToString(a) == NatToString(b) ==> a == b
  {
    NatToStringRoundTrip(a);
    NatToStringRoundTrip(b);
  }
}
