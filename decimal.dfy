/** Decimal rendering of non-negative integers, as JavaScript's `n + ''`
    produces it for a safe integer, and the value of a string of digits. */
module Decimal {

  predicate IsDigit(c: char) {
    '0' <= c <= '9'
  }

  predicate AllDigits(s: string) {
    forall i :: 0 <= i < |s| ==> IsDigit(s[i])
  }

  function DigitChar(d: nat): (c: char)
    requires d < 10
    ensures IsDigit(c) && c as int - '0' as int == d
  {
    ('0' as int + d) as char
  }

  function DigitValue(c: char): nat
    requires IsDigit(c)
  {
    c as int - '0' as int
  }

  function Pow10(k: nat): (p: nat)
    ensures p >= 1
  {
    if k == 0 then 1 else 10 * Pow10(k - 1)
  }

  /** The decimal digits of `n`, most significant first, without leading zeros. */
  function ToDecimal(n: nat): (s: string)
    ensures 1 <= |s| && AllDigits(s)
    ensures |s| > 1 ==> s[0] != '0'
  {
    if n < 10 then [DigitChar(n)] else ToDecimal(n / 10) + [DigitChar(n % 10)]
  }

  /** The number a string of digits denotes (leading zeros allowed). */
  function Value(s: string): nat
    requires AllDigits(s)
  {
    if s == [] then 0 else Value(s[..|s| - 1]) * 10 + DigitValue(s[|s| - 1])
  }

  /** Reading the decimal rendering back gives the number. */
  lemma {:induction false} ValueOfDecimal(n: nat)
    ensures Value(ToDecimal(n)) == n
  {
    if n >= 10 {
      var s := ToDecimal(n);
      assert s[..|s| - 1] == ToDecimal(n / 10);
      ValueOfDecimal(n / 10);
    }
  }

  /** The rendering is injective: different numbers have different renderings. */
  lemma DecimalInjective(m: nat, n: nat)
    requires ToDecimal(m) == ToDecimal(n)
    ensures m == n
  {
    ValueOfDecimal(m);
    ValueOfDecimal(n);
  }

  /** A number of at least 10^k has more than k digits. */
  lemma {:induction false} DigitsOfLarge(n: nat, k: nat)
    requires n >= Pow10(k)
    ensures |ToDecimal(n)| > k
  {
    if k > 0 {
      assert n >= 10;
      assert n / 10 >= Pow10(k - 1);
      DigitsOfLarge(n / 10, k - 1);
    }
  }

  /** One step of ModUnique, kept apart so that its impossible branches need no assertion. */
  lemma MulAtLeast(k: nat, m: nat)
    requires k >= 1
    ensures k * m >= m
  {
  }

  lemma ModUnique(x: nat, m: nat, q: nat, r: nat)
    requires m > 0 && r < m && x == q * m + r
    ensures x % m == r && x / m == q
  {
    var q', r' := x / m, x % m;
    assert q' * m + r' == q * m + r;
    if q' < q {
      assert q * m == (q - q') * m + q' * m;
      MulAtLeast(q - q', m);
    } else if q' > q {
      assert q' * m == (q' - q) * m + q * m;
      MulAtLeast(q' - q, m);
    }
  }

  /** Appending a digit shifts the remainder modulo a power of ten by one place. */
  lemma ShiftMod(a: nat, d: nat, p: nat)
    requires d < 10 && p >= 1
    ensures (a * 10 + d) % (p * 10) == (a % p) * 10 + d
  {
    var q, r := a / p, a % p;
    assert a == q * p + r;
    assert a * 10 + d == q * (p * 10) + (r * 10 + d);
    ModUnique(a * 10 + d, p * 10, q, r * 10 + d);
  }

  /** The last k digits of a digit string denote its value modulo 10^k. */
  lemma {:induction false} SuffixValue(s: string, k: nat)
    requires AllDigits(s) && k <= |s|
    ensures Value(s[|s| - k..]) == Value(s) % Pow10(k)
  {
    if k == 0 {
      assert s[|s|..] == [];
    } else {
      var init := s[..|s| - 1];
      var t := s[|s| - k..];
      SuffixValue(init, k - 1);
      assert t[..|t| - 1] == init[|init| - (k - 1)..];
      assert t[|t| - 1] == s[|s| - 1];
      ShiftMod(Value(init), DigitValue(s[|s| - 1]), Pow10(k - 1));
    }
  }

  /** Two digit strings of the same length and the same value are the same string. */
  lemma {:induction false} SameValueSameDigits(a: string, b: string)
    requires AllDigits(a) && AllDigits(b) && |a| == |b| && Value(a) == Value(b)
    ensures a == b
  {
    if a != [] {
      var ia, ib := a[..|a| - 1], b[..|b| - 1];
      var da, db := DigitValue(a[|a| - 1]), DigitValue(b[|b| - 1]);
      ModUnique(Value(a), 10, Value(ia), da);
      ModUnique(Value(b), 10, Value(ib), db);
      SameValueSameDigits(ia, ib);
      assert a == ia + [a[|a| - 1]] && b == ib + [b[|b| - 1]];
    }
  }
}
