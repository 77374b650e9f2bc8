/** Decimal digits of natural numbers, as `to_string` prints them and `parse` reads them. */
module Decimals {
  predicate IsDigit(c: char) { '0' <= c <= '9' }

  function DigitChar(d: nat): (c: char)
    requires d < 10
    ensures IsDigit(c) && DigitValue(c) == d
  {
    '0' + d as char
  }

  function DigitValue(c: char): nat
    requires IsDigit(c)
  {
    (c - '0') as nat
  }

  predicate AllDigits(s: string) { forall i :: 0 <= i < |s| ==> IsDigit(s[i]) }

  function ToDecimal(n: nat): (s: string)
    ensures s != [] && AllDigits(s)
  {
    if n < 10 then [DigitChar(n)] else ToDecimal(n / 10) + [DigitChar(n % 10)]
  }

  /** The number a string of digits denotes; the empty string denotes 0. */
  function Value(s: string): nat
    requires AllDigits(s)
  {
    if s == [] then 0 else 10 * Value(s[..|s| - 1]) + DigitValue(s[|s| - 1])
  }

  function Pow10(n: nat): (p: nat)
    ensures p > 0
  {
    if n == 0 then 1 else 10 * Pow10(n - 1)
  }

  lemma {:induction false} ValueBelowPow(s: string)
    requires AllDigits(s)
    ensures Value(s) < Pow10(|s|)
  {
    if s != [] {
      ValueBelowPow(s[..|s| - 1]);
    }
  }

  lemma {:induction false} ValueAppend(a: string, b: string)
    requires AllDigits(a) && AllDigits(b)
    ensures AllDigits(a + b) && Value(a + b) == Value(a) * Pow10(|b|) + Value(b)
  {
    if b == [] {
      assert a + b == a;
    } else {
      var n, d := |b| - 1, DigitValue(b[|b| - 1]);
      ValueAppend(a, b[..n]);
      assert (a + b)[..|a + b| - 1] == a + b[..n];
      Shift(Value(a), Pow10(n), Value(b[..n]), d);
    }
  }

  lemma {:induction false} Shift(v: nat, p: nat, w: nat, d: nat)
    ensures 10 * (v * p + w) + d == v * (10 * p) + (10 * w + d)
  {
    assert v * (10 * p) == 10 * (v * p);
  }

  /** Printing and reading back gives the number; a positive number prints without leading zero. */
  lemma {:induction false} DecimalRoundTrip(n: nat)
    ensures Value(ToDecimal(n)) == n
    ensures n > 0 ==> ToDecimal(n)[0] != '0'
  {
    if n < 10 {
      assert [DigitChar(n)][..0] == "";
    } else {
      DecimalRoundTrip(n / 10);
      var front := ToDecimal(n / 10);
      assert ToDecimal(n)[..|front|] == front;
    }
  }

  /** The number of digits is the order of magnitude. */
  lemma {:induction false} DigitCount(n: nat)
    requires n > 0
    ensures Pow10(|ToDecimal(n)| - 1) <= n < Pow10(|ToDecimal(n)|)
  {
    DecimalRoundTrip(n);
    ValueBelowPow(ToDecimal(n));
    LeadingDigitWeighs(ToDecimal(n));
  }

  lemma {:induction false} LeadingDigitWeighs(s: string)
    requires AllDigits(s) && s != [] && s[0] != '0'
    ensures Pow10(|s| - 1) <= Value(s)
  {
    if |s| == 1 {
      assert s[..0] == "";
    } else {
      LeadingDigitWeighs(s[..|s| - 1]);
    }
  }
}
