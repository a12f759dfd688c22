/** Python's `str()` on the natural numbers the grid prints: column and row
    indices and 0/1 cell values. */
module Decimal {

  predicate IsDigit(c: char) {
    '0' <= c <= '9'
  }

  predicate AllDigits(s: string) {
    forall i :: 0 <= i < |s| ==> IsDigit(s[i])
  }

  function DigitChar(d: nat): (c: char)
    requires d < 10
    ensures IsDigit(c) && (c as int) - ('0' as int) == d
  {
    (('0' as int) + d) as char
  }

  /** The decimal text of `n`, most significant digit first. */
  function NatToString(n: nat): string {
    if n < 10 then [DigitChar(n)] else NatToString(n / 10) + [DigitChar(n % 10)]
  }

  /** The text is a non-empty run of digits, one digit exactly for the
      numbers below 10, and without a leading zero. */
  lemma {:induction false} NatToStringDigits(n: nat)
    ensures var s := NatToString(n);
      |s| >= 1 && AllDigits(s) && (n >= 10 ==> s[0] != '0') && (n < 10 <==> |s| == 1)
  {
    if n >= 10 {
      NatToStringDigits(n / 10);
    }
  }

  /** The number a string of decimal digits denotes (the reading direction of `int()`). */
  function DigitsValue(s: string): nat
    requires AllDigits(s)
  {
    if s == [] then 0
    else DigitsValue(s[..|s| - 1]) * 10 + ((s[|s| - 1] as int) - ('0' as int))
  }

  /** Reading back the text of `n` gives `n`: the rendering of indices is unambiguous. */
  lemma {:induction false} DecimalRoundTrip(n: nat)
    ensures AllDigits(NatToString(n)) && DigitsValue(NatToString(n)) == n
  {
    NatToStringDigits(n);
    if n >= 10 {
      var s := NatToString(n);
      assert s[..|s| - 1] == NatToString(n / 10);
      DecimalRoundTrip(n / 10);
    }
  }

  /** Distinct numbers print differently. */
  lemma NatToStringInjective(m: nat, n: nat)
    requires NatToString(m) == NatToString(n)
    ensures m == n
  {
    DecimalRoundTrip(m);
    DecimalRoundTrip(n);
  }
}
