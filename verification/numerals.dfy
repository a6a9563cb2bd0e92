/** Decimal numerals: the printed form of a natural number, its length, and the
    reader that undoes it. Notices, placeholders, call ids and grep lines all
    depend on these. */
module Numerals {

  predicate IsDigit(c: char) {
    '0' <= c <= '9'
  }

  predicate AllDigits(s: string) {
    forall i :: 0 <= i < |s| ==> IsDigit(s[i])
  }

  function DigitChar(d: nat): char
    requires d < 10
  {
    '0' + d as char
  }

  function DigitValue(c: char): nat
    requires IsDigit(c)
  {
    (c - '0') as nat
  }

  /** The decimal numeral of n, without leading zeros. */
  function Decimal(n: nat): (s: string)
    ensures |s| == DigitCount(n)
    ensures AllDigits(s)
  {
    if n < 10 then [DigitChar(n)] else Decimal(n / 10) + [DigitChar(n % 10)]
  }

  function DigitCount(n: nat): (k: nat)
    ensures k >= 1
  {
    if n < 10 then 1 else 1 + DigitCount(n / 10)
  }

  function ParseDecimal(s: string): nat
    requires AllDigits(s)
  {
    if s == [] then 0 else 10 * ParseDecimal(s[..|s| - 1]) + DigitValue(s[|s| - 1])
  }

  /** Reading back a printed number gives the number. */
  lemma {:induction false} ParseOfDecimal(n: nat)
    ensures ParseDecimal(Decimal(n)) == n
  {
    if n < 10 {
      assert Decimal(n)[..0] == [];
    } else {
      ParseOfDecimal(n / 10);
      var s := Decimal(n);
      assert s[..|s| - 1] == Decimal(n / 10);
    }
  }

  lemma DecimalInjective(m: nat, n: nat)
    requires Decimal(m) == Decimal(n)
    ensures m == n
  {
    ParseOfDecimal(m);
    ParseOfDecimal(n);
  }

  lemma {:induction false} DigitCountMonotone(m: nat, n: nat)
    requires m <= n
    ensures DigitCount(m) <= DigitCount(n)
  {
    if n >= 10 && m >= 10 {
      DigitCountMonotone(m / 10, n / 10);
    }
  }

  function Pow10(k: nat): (p: nat)
    ensures p >= 1
  {
    if k == 0 then 1 else 10 * Pow10(k - 1)
  }

  /** A number below 10^k has at most k digits, and at least k + 1 from there on. */
  lemma {:induction false} DigitCountBound(n: nat, k: nat)
    requires k >= 1
    ensures n < Pow10(k) <==> DigitCount(n) <= k
  {
    if k == 1 {
      assert Pow10(1) == 10 * Pow10(0) == 10;
    } else if n >= 10 {
      DigitCountBound(n / 10, k - 1);
    } else {
      assert Pow10(k) == 10 * Pow10(k - 1);
    }
  }

  /** A power of ten is where a digit is gained. */
  lemma DigitCountOfPower(k: nat)
    requires k >= 1
    ensures DigitCount(Pow10(k) - 1) == k && DigitCount(Pow10(k)) == k + 1
  {
    DigitCountBound(Pow10(k) - 1, k);
    DigitCountBound(Pow10(k), k);
    DigitCountBound(Pow10(k), k + 1);
    if k >= 2 { DigitCountBound(Pow10(k) - 1, k - 1); }
  }

  /** Adding at most 90 to a positive number adds at most one digit. */
  lemma DigitCountSmallStep(b: nat, step: nat)
    requires b >= 1 && step <= 90
    ensures DigitCount(b) <= DigitCount(b + step) <= DigitCount(b) + 1
  {
    DigitCountMonotone(b, b + step);
    if b + step >= 10 {
      if b >= 9 {
        DigitCountMonotone((b + step) / 10, b);
      } else {
        assert (b + step) / 10 < 10;
      }
    }
  }

  /** Where the digit count goes up from n to n + 1, n + 1 is a power of ten. */
  lemma {:induction false} DigitCountStepIsPower(n: nat)
    ensures DigitCount(n + 1) != DigitCount(n) ==> n >= 9 && n + 1 == Pow10(DigitCount(n))
  {
    if n >= 10 {
      if (n + 1) / 10 != n / 10 {
        assert (n + 1) / 10 == n / 10 + 1;
        DigitCountStepIsPower(n / 10);
      }
    } else if n == 9 {
      assert DigitCount(10) == 1 + DigitCount(1) == 2;
      assert Pow10(1) == 10 * Pow10(0) == 10;
    }
  }
}
