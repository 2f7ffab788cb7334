/**
 * `Number.prototype.toFixed(n)` on non-negative rationals, and the inverse
 * reading of such a string. A value is carried as its scaled integer: the
 * value times 10^n, rounded half up.
 */
module Decimal {
  import opened Wrappers

  function Pow10(n: nat): (p: nat)
    ensures p >= 1
  {
    if n == 0 then 1 else 10 * Pow10(n - 1)
  }

  predicate IsDigit(c: char) {
    '0' <= c <= '9'
  }

  predicate AllDigits(s: string) {
    forall k :: 0 <= k < |s| ==> IsDigit(s[k])
  }

  function DigitChar(d: nat): (c: char)
    requires d < 10
    ensures IsDigit(c) && c as int - '0' as int == d
  {
    ('0' as int + d) as char
  }

  /** The number a string of decimal digits denotes. */
  function DigitsValue(s: string): nat
    requires AllDigits(s)
  {
    if s == [] then 0
    else 10 * DigitsValue(s[..|s| - 1]) + (s[|s| - 1] as int - '0' as int)
  }

  /** Decimal notation of a natural number, without leading zeros. */
  function NatToString(n: nat): (s: string)
    ensures |s| >= 1 && AllDigits(s)
    ensures n < 10 <==> |s| == 1
    ensures s[0] == '0' <==> n == 0
  {
    if n < 10 then [DigitChar(n)] else NatToString(n / 10) + [DigitChar(n % 10)]
  }

  /** `n` without its last `width` decimal digits, that is, n divided by 10^width. */
  function DropDigits(n: nat, width: nat): nat {
    if width == 0 then n else DropDigits(n / 10, width - 1)
  }

  /** The last `width` decimal digits of `n`, zero-padded. */
  function LowDigits(n: nat, width: nat): (s: string)
    ensures |s| == width && AllDigits(s)
  {
    if width == 0 then [] else LowDigits(n / 10, width - 1) + [DigitChar(n % 10)]
  }

  /** The integer part of a decimal text has no leading zero: a leading "0" stands alone before the point. */
  predicate NoLeadingZero(s: string) {
    |s| >= 2 && (s[0] == '0' ==> s[1] == '.')
  }

  /** `x.toFixed(decimals)` where `scaled` is x times 10^decimals, already rounded. */
  function FixedText(scaled: nat, decimals: nat): (s: string)
    requires decimals >= 1
    ensures NoLeadingZero(s)
  {
    var a := NatToString(DropDigits(scaled, decimals));
    assert (a + "." + LowDigits(scaled, decimals))[..|a|] == a;
    a + "." + LowDigits(scaled, decimals)
  }

  /**
   * Reads a string of the shape `digits "." digits` with exactly `decimals`
   * digits after the point, giving the value times 10^decimals.
   */
  function ParseFixed(s: string, decimals: nat): (r: Option<nat>)
    ensures r.Some? ==> |s| > decimals + 1 && s[|s| - decimals - 1] == '.'
  {
    if |s| < decimals + 2 then None
    else
      var k := |s| - decimals - 1;
      if s[k] == '.' && AllDigits(s[..k]) && AllDigits(s[k + 1..])
      then Some(DigitsValue(s[..k]) * Pow10(decimals) + DigitsValue(s[k + 1..]))
      else None
  }

  lemma {:induction false} DigitsValueOfNat(n: nat)
    ensures DigitsValue(NatToString(n)) == n
  {
    var s := NatToString(n);
    if n >= 10 {
      DigitsValueOfNat(n / 10);
      assert s[..|s| - 1] == NatToString(n / 10);
    }
  }

  /**
   * The dropped part and the last `width` digits are the quotient and the
   * remainder of n by 10^width.
   */
  lemma {:induction false} SplitDigits(n: nat, width: nat)
    ensures DropDigits(n, width) * Pow10(width) + DigitsValue(LowDigits(n, width)) == n
    ensures DigitsValue(LowDigits(n, width)) < Pow10(width)
  {
    if width > 0 {
      SplitDigits(n / 10, width - 1);
      LowDigitsStep(n, width);
      SplitStep(n, DropDigits(n / 10, width - 1), Pow10(width - 1), DigitsValue(LowDigits(n / 10, width - 1)));
    }
  }

  lemma LowDigitsStep(n: nat, width: nat)
    requires width > 0
    ensures DigitsValue(LowDigits(n, width)) == 10 * DigitsValue(LowDigits(n / 10, width - 1)) + n % 10
  {
    var s := LowDigits(n, width);
    assert s[..|s| - 1] == LowDigits(n / 10, width - 1);
  }

  lemma SplitStep(n: nat, q: nat, p: nat, v: nat)
    requires q * p + v == n / 10 && v < p
    ensures q * (10 * p) + (10 * v + n % 10) == n
    ensures 10 * v + n % 10 < 10 * p
  {
    assert q * (10 * p) == 10 * (q * p);
  }

  lemma MulMonotone(a: int, b: int, d: nat)
    requires a <= b
    ensures a * d <= b * d
  {
  }

  /** A string made of the digits `a`, a point and the digits `b` reads as a * 10^|b| + b. */
  lemma ParseAt(s: string, a: string, b: string)
    requires |a| >= 1 && |b| >= 1 && AllDigits(a) && AllDigits(b)
    requires |s| == |a| + |b| + 1 && s[..|a|] == a && s[|a|] == '.' && s[|a| + 1..] == b
    ensures ParseFixed(s, |b|) == Some(DigitsValue(a) * Pow10(|b|) + DigitsValue(b))
  {
  }

  lemma PointSplit(a: string, b: string)
    ensures |a + "." + b| == |a| + |b| + 1
    ensures (a + "." + b)[..|a|] == a && (a + "." + b)[|a|] == '.' && (a + "." + b)[|a| + 1..] == b
  {
  }

  /** What `toFixed` writes, `ParseFixed` reads back: parseFloat(x.toFixed(n)) recovers the rounded value. */
  lemma {:induction false} ParseFixedText(scaled: nat, decimals: nat)
    requires decimals >= 1
    ensures ParseFixed(FixedText(scaled, decimals), decimals) == Some(scaled)
  {
    var hi := DropDigits(scaled, decimals);
    var a := NatToString(hi);
    var b := LowDigits(scaled, decimals);
    PointSplit(a, b);
    assert FixedText(scaled, decimals) == a + "." + b;
    ParseAt(a + "." + b, a, b);
    DigitsValueOfNat(hi);
    SplitDigits(scaled, decimals);
  }

  /**
   * `FixedText` is the only text without a leading zero that reads back
   * as its value: the text `toFixed` writes is fixed by the rounded value.
   */
  lemma FixedTextCanonical(s: string, n: nat, decimals: nat)
    requires decimals >= 1 && ParseFixed(s, decimals) == Some(n) && NoLeadingZero(s)
    ensures s == FixedText(n, decimals)
  {
    var k := |s| - decimals - 1;
    var a, b := s[..k], s[k + 1..];
    assert s == a + "." + b;
    if |a| > 1 {
      assert a[0] != '0' by {
        assert IsDigit(a[1]);
      }
    }
    CanonicalDigits(a);
    FixedWidthDigits(b, decimals);
    DigitsValueBound(b);
    QuotientDigits(n, DigitsValue(a), DigitsValue(b), decimals);
  }

  /** A digit string without a leading zero is the notation of its value. */
  lemma {:induction false} CanonicalDigits(a: string)
    requires |a| >= 1 && AllDigits(a) && (|a| == 1 || a[0] != '0')
    ensures a == NatToString(DigitsValue(a))
  {
    var init, c := a[..|a| - 1], a[|a| - 1] as int - '0' as int;
    assert DigitsValue(a) == 10 * DigitsValue(init) + c;
    if |a| == 1 {
      assert DigitChar(c) == a[0];
    } else {
      assert init[0] == a[0];
      CanonicalDigits(init);
      DivStep(DigitsValue(a), DigitsValue(init), c);
      assert DigitChar(c) == a[|a| - 1];
      assert a == init + [a[|a| - 1]];
    }
  }

  /** A digit string of length `width` is the zero-padded notation of its value. */
  lemma {:induction false} FixedWidthDigits(b: string, width: nat)
    requires |b| == width && AllDigits(b)
    ensures b == LowDigits(DigitsValue(b), width)
  {
    if width > 0 {
      var init, c := b[..width - 1], b[width - 1] as int - '0' as int;
      FixedWidthDigits(init, width - 1);
      DivStep(DigitsValue(b), DigitsValue(init), c);
      assert DigitChar(c) == b[width - 1];
      assert b == init + [b[width - 1]];
    }
  }

  /** A string of `|b|` digits denotes less than 10^|b|. */
  lemma {:induction false} DigitsValueBound(b: string)
    requires AllDigits(b)
    ensures DigitsValue(b) < Pow10(|b|)
  {
    if b != [] {
      DigitsValueBound(b[..|b| - 1]);
    }
  }

  lemma DivStep(n: nat, m: nat, r: int)
    requires n == 10 * m + r && 0 <= r < 10
    ensures n / 10 == m && n % 10 == r
  {
  }

  /** For n == q * 10^width + v with v < 10^width, the digits above `width` are q and those below are v's. */
  lemma {:induction false} QuotientDigits(n: nat, q: nat, v: nat, width: nat)
    requires n == q * Pow10(width) + v && v < Pow10(width)
    ensures DropDigits(n, width) == q && LowDigits(n, width) == LowDigits(v, width)
  {
    if width > 0 {
      var p := Pow10(width - 1);
      assert q * Pow10(width) == 10 * (q * p);
      DivStep(v, v / 10, v % 10);
      DivStep(n, q * p + v / 10, v % 10);
      QuotientDigits(n / 10, q, v / 10, width - 1);
    }
  }

  /** Different scaled values are written differently. */
  lemma FixedTextInjective(a: nat, b: nat, decimals: nat)
    requires decimals >= 1 && FixedText(a, decimals) == FixedText(b, decimals)
    ensures a == b
  {
    ParseFixedText(a, decimals);
    ParseFixedText(b, decimals);
  }

  /** num/den rounded to the nearest integer, halves rounded up. */
  function RoundHalfUp(num: nat, den: nat): (r: nat)
    requires den > 0
    ensures (2 * r - 1) * den <= 2 * num < (2 * r + 1) * den
  {
    var r := (2 * num + den) / (2 * den);
    assert 2 * num + den == r * (2 * den) + (2 * num + den) % (2 * den);
    r
  }

  /** A non-negative real rounded to the nearest integer, halves rounded up. */
  function RoundReal(x: real): (r: nat)
    requires x >= 0.0
    ensures (r as real) - 0.5 <= x < (r as real) + 0.5
  {
    (x + 0.5).Floor
  }

  /** Rounding the real quotient gives the integer formula. */
  lemma RoundRealOfQuotient(num: nat, den: nat)
    requires den > 0
    ensures RoundReal((num as real) / (den as real)) == RoundHalfUp(num, den)
  {
    var x := (num as real) / (den as real);
    var a := RoundReal(x);
    var b := RoundHalfUp(num, den);
    ScaleBounds(x, num, den, a);
    RoundUnique(num, den, a, b);
  }

  /** a - 1/2 <= num/den < a + 1/2, restated over the integers. */
  lemma ScaleBounds(x: real, num: nat, den: nat, a: int)
    requires den > 0 && x == (num as real) / (den as real)
    requires (a as real) - 0.5 <= x < (a as real) + 0.5
    ensures (2 * a - 1) * den <= 2 * num < (2 * a + 1) * den
  {
    ScaleBelow(x, num, den as real, (a as real) - 0.5);
    ScaleAbove(x, num, den as real, (a as real) + 0.5);
    LowerToInt(a, num, den);
    UpperToInt(a, num, den);
  }

  lemma ScaleBelow(x: real, num: nat, D: real, lo: real)
    requires D > 0.0 && x == (num as real) / D && lo <= x
    ensures lo * D <= num as real
  {
    assert x * D == num as real;
    RealMulMonotone(lo, x, D);
  }

  lemma ScaleAbove(x: real, num: nat, D: real, hi: real)
    requires D > 0.0 && x == (num as real) / D && x < hi
    ensures num as real < hi * D
  {
    assert x * D == num as real;
    RealMulStrict(x, hi, D);
  }

  lemma LowerToInt(a: int, num: nat, den: nat)
    requires ((a as real) - 0.5) * (den as real) <= num as real
    ensures (2 * a - 1) * den <= 2 * num
  {
    CastMul(2 * a - 1, den);
    assert (2 * a - 1) as real == 2.0 * ((a as real) - 0.5);
    RealAssoc(2.0, (a as real) - 0.5, den as real);
  }

  lemma UpperToInt(a: int, num: nat, den: nat)
    requires num as real < ((a as real) + 0.5) * (den as real)
    ensures 2 * num < (2 * a + 1) * den
  {
    CastMul(2 * a + 1, den);
    assert (2 * a + 1) as real == 2.0 * ((a as real) + 0.5);
    RealAssoc(2.0, (a as real) + 0.5, den as real);
  }

  lemma RealAssoc(c: real, u: real, w: real)
    ensures (c * u) * w == c * (u * w)
  {
  }

  lemma CastMul(i: int, j: int)
    ensures (i * j) as real == (i as real) * (j as real)
  {
  }

  lemma RealMulMonotone(u: real, v: real, w: real)
    requires u <= v && w >= 0.0
    ensures u * w <= v * w
  {
  }

  lemma RealMulStrict(u: real, v: real, w: real)
    requires u < v && w > 0.0
    ensures u * w < v * w
  {
  }

  lemma RoundUnique(num: nat, den: nat, a: int, b: int)
    requires den > 0
    requires (2 * a - 1) * den <= 2 * num < (2 * a + 1) * den
    requires (2 * b - 1) * den <= 2 * num < (2 * b + 1) * den
    ensures a == b
  {
    if a < b {
      assert (2 * a + 1) * den <= (2 * b - 1) * den by { MulMonotone(2 * a + 1, 2 * b - 1, den); }
      assert false;
    } else if b < a {
      assert (2 * b + 1) * den <= (2 * a - 1) * den by { MulMonotone(2 * b + 1, 2 * a - 1, den); }
      assert false;
    }
  }
}
