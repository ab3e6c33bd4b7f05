/**
 * Decimal digit strings: the zero-padded fixed-width numbers of the timestamp
 * layout and the plain decimal rendering of issue numbers.
 */
module Digits {

  function Pow10(n: nat): (r: nat)
    ensures r >= 1
  {
    if n == 0 then 1 else 10 * Pow10(n - 1)
  }

  predicate IsDigit(c: char) {
    '0' <= c <= '9'
  }

  predicate AllDigits(s: string) {
    forall i :: 0 <= i < |s| ==> IsDigit(s[i])
  }

  function DigitChar(d: nat): (c: char)
    requires d < 10
    ensures IsDigit(c)
  {
    ('0' as int + d) as char
  }

  function DigitValue(c: char): (d: nat)
    requires IsDigit(c)
    ensures d < 10 && DigitChar(d) == c
  {
    c as int - '0' as int
  }

  /** The number a string of decimal digits denotes (the empty string denotes 0). */
  function Value(s: string): (n: nat)
    requires AllDigits(s)
    ensures n < Pow10(|s|)
  {
    if s == [] then 0
    else
      var p := Value(s[..|s| - 1]);
      var d := DigitValue(s[|s| - 1]);
      assert p * 10 <= (Pow10(|s| - 1) - 1) * 10;
      p * 10 + d
  }

  /** `n` written in exactly `w` decimal digits, with leading zeros. */
  function Pad(n: nat, w: nat): (s: string)
    requires n < Pow10(w)
    ensures |s| == w && AllDigits(s)
  {
    if w == 0 then ""
    else
      assert n / 10 < Pow10(w - 1);
      Pad(n / 10, w - 1) + [DigitChar(n % 10)]
  }

  /** `n` in decimal without leading zeros, as Go's `%.0f` prints an integral value. */
  function Decimal(n: nat): (s: string)
    ensures |s| >= 1 && AllDigits(s) && Value(s) == n
    ensures |s| > 1 ==> s[0] != '0'
  {
    if n < 10 then [DigitChar(n)]
    else
      var s := Decimal(n / 10) + [DigitChar(n % 10)];
      assert s[..|s| - 1] == Decimal(n / 10);
      s
  }

  lemma {:induction false} ValueOfPad(n: nat, w: nat)
    requires n < Pow10(w)
    ensures Value(Pad(n, w)) == n
  {
    if w > 0 {
      assert n / 10 < Pow10(w - 1);
      ValueOfPad(n / 10, w - 1);
      var s := Pad(n, w);
      assert s[..|s| - 1] == Pad(n / 10, w - 1);
    }
  }

  lemma {:induction false} PadOfValue(s: string)
    requires AllDigits(s)
    ensures Pad(Value(s), |s|) == s
  {
    if s != [] {
      var p := s[..|s| - 1];
      PadOfValue(p);
      LastDigit(Value(p), DigitValue(s[|s| - 1]));
      assert s == p + [s[|s| - 1]];
    }
  }

  /** Appending the digit `d` to `p` gives a number whose quotient by ten is `p` and whose remainder is `d`. */
  lemma LastDigit(p: nat, d: nat)
    requires d < 10
    ensures (p * 10 + d) / 10 == p && (p * 10 + d) % 10 == d
  {
  }
}
