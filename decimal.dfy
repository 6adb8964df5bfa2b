/**
 * Decimal formatting as done by `sprintf(buf, "%0*llu", width, n)` in the
 * brute-force loop: the decimal digits of `n`, left-padded with '0' up to
 * `width` characters, never truncated.
 */
module Decimal {

  function Pow10(k: nat): (p: nat)
    ensures p >= 1
  {
    if k == 0 then 1 else 10 * Pow10(k - 1)
  }

  predicate IsDigit(c: char) {
    '0' <= c <= '9'
  }

  predicate AllDigits(s: string) {
    forall j | 0 <= j < |s| :: IsDigit(s[j])
  }

  function DigitChar(d: nat): (c: char)
    requires d < 10
    ensures IsDigit(c)
  {
    (48 + d) as char
  }

  function DigitValue(c: char): (d: nat)
    requires IsDigit(c)
    ensures d < 10
  {
    c as int - 48
  }

  function Zeros(k: nat): (s: string)
    ensures |s| == k
  {
    if k == 0 then [] else Zeros(k - 1) + ['0']
  }

  /**
   * `sprintf("%0*llu", width, n)`: the last digit of `n` after the padded
   * form of the other digits in one column less; once no digit is left, the
   * remaining columns are zeros. Never shorter than `width`, never truncated.
   */
  function ZeroPadded(n: nat, width: nat): (s: string)
    ensures 1 <= |s|
  {
    var rest := if width > 0 then width - 1 else 0;
    (if n < 10 then Zeros(rest) else ZeroPadded(n / 10, rest)) + [DigitChar(n % 10)]
  }

  /** The number a string of decimal digits denotes (leading zeros allowed). */
  function Value(s: string): nat
    requires AllDigits(s)
  {
    if s == [] then 0 else 10 * Value(s[..|s| - 1]) + DigitValue(s[|s| - 1])
  }

  lemma {:induction false} Pow10Monotone(k: nat, m: nat)
    requires k <= m
    ensures Pow10(k) <= Pow10(m)
  {
    if k < m {
      Pow10Monotone(k, m - 1);
    }
  }

  lemma {:induction false} ZerosAreDigits(k: nat)
    ensures AllDigits(Zeros(k))
    ensures Value(Zeros(k)) == 0
  {
    if k > 0 {
      ZerosAreDigits(k - 1);
      assert Zeros(k)[..k - 1] == Zeros(k - 1);
    }
  }

  /**
   * The padded form has exactly `width` characters iff `n < 10^width`, and
   * is longer than `width` otherwise; it is never shorter.
   */
  lemma {:induction false} ZeroPaddedLength(n: nat, width: nat)
    requires width >= 1
    ensures |ZeroPadded(n, width)| >= width
    ensures |ZeroPadded(n, width)| <= width <==> n < Pow10(width)
  {
    Pow10Monotone(1, width);
    if n >= 10 {
      assert |ZeroPadded(n, width)| == |ZeroPadded(n / 10, width - 1)| + 1;
      if width > 1 {
        ZeroPaddedLength(n / 10, width - 1);
        assert n / 10 < Pow10(width - 1) <==> n < 10 * Pow10(width - 1);
      }
    }
  }

  /** Reading the padded form back as a decimal number gives `n` again. */
  lemma {:induction false} ZeroPaddedValue(n: nat, width: nat)
    ensures AllDigits(ZeroPadded(n, width))
    ensures Value(ZeroPadded(n, width)) == n
  {
    var rest := if width > 0 then width - 1 else 0;
    var front := if n < 10 then Zeros(rest) else ZeroPadded(n / 10, rest);
    var s := front + [DigitChar(n % 10)];
    assert ZeroPadded(n, width) == s;
    if n < 10 {
      ZerosAreDigits(rest);
    } else {
      ZeroPaddedValue(n / 10, rest);
    }
    assert s[..|s| - 1] == front;
    assert DigitValue(s[|s| - 1]) == n % 10;
  }

  /** Distinct counters give distinct candidate strings. */
  lemma ZeroPaddedInjective(n: nat, m: nat, width: nat)
    requires ZeroPadded(n, width) == ZeroPadded(m, width)
    ensures n == m
  {
    ZeroPaddedValue(n, width);
    ZeroPaddedValue(m, width);
  }
}
