/**
 * Exact decimal numbers in the manner of java.math.BigDecimal: a value is an
 * unscaled integer together with a scale, and denotes unscaled * 10^(-scale).
 * `add` and `subtract` are exact and take the larger scale; `compareTo` compares
 * numerically and ignores the scale; `equals` (here: datatype equality) does not.
 */
module Decimals {

  function Pow10(n: nat): (r: nat)
    ensures r >= 1
  {
    if n == 0 then 1 else 10 * Pow10(n - 1)
  }

  lemma {:induction false} Pow10Add(a: nat, b: nat)
    ensures Pow10(a + b) == Pow10(a) * Pow10(b)
  {
    if a > 0 {
      Pow10Add(a - 1, b);
      assert Pow10(a + b) == 10 * Pow10(a - 1 + b);
    }
  }

  /** A BigDecimal with a non-negative scale. */
  datatype Decimal = Decimal(unscaled: int, scale: nat)

  /** BigDecimal.ZERO */
  const ZERO: Decimal := Decimal(0, 0)

  /** The rational number a decimal denotes. */
  ghost function Value(d: Decimal): real
  {
    d.unscaled as real / Pow10(d.scale) as real
  }

  function Max(a: nat, b: nat): nat
  {
    if a < b then b else a
  }

  /** The unscaled value of `d` written at the (not smaller) scale `s`. */
  function Upscale(d: Decimal, s: nat): int
    requires d.scale <= s
  {
    d.unscaled * Pow10(s - d.scale)
  }

  /** BigDecimal.add: the exact sum, at scale max(a.scale, b.scale). */
  function Add(a: Decimal, b: Decimal): (r: Decimal)
    ensures r.scale == Max(a.scale, b.scale)
  {
    var s := Max(a.scale, b.scale);
    Decimal(Upscale(a, s) + Upscale(b, s), s)
  }

  /** BigDecimal.subtract: the exact difference, at scale max(a.scale, b.scale). */
  function Subtract(a: Decimal, b: Decimal): (r: Decimal)
    ensures r.scale == Max(a.scale, b.scale)
  {
    var s := Max(a.scale, b.scale);
    Decimal(Upscale(a, s) - Upscale(b, s), s)
  }

  /** BigDecimal.signum */
  function Signum(d: Decimal): int
  {
    if d.unscaled < 0 then -1 else if d.unscaled == 0 then 0 else 1
  }

  /** BigDecimal.compareTo: -1, 0 or 1 as `a` is numerically below, equal to or above `b`. */
  function CompareTo(a: Decimal, b: Decimal): (r: int)
    ensures -1 <= r <= 1
  {
    var s := Max(a.scale, b.scale);
    var x, y := Upscale(a, s), Upscale(b, s);
    if x < y then -1 else if x == y then 0 else 1
  }

  /** What `@PositiveOrZero` accepts. */
  predicate NonNegative(d: Decimal)
  {
    d.unscaled >= 0
  }

  // ---------------------------------------------------------------------------
  // Lemmas

  lemma UpscaleValue(d: Decimal, s: nat)
    requires d.scale <= s
    ensures Upscale(d, s) as real / Pow10(s) as real == Value(d)
  {
    var q, p := Pow10(s - d.scale), Pow10(d.scale);
    Pow10Add(s - d.scale, d.scale);
    Cancel(d.unscaled, q, p);
  }

  /** Cancelling a common positive factor in a quotient of integers. */
  lemma Cancel(u: int, q: int, p: int)
    requires q >= 1 && p >= 1
    ensures (u * q) as real / (q * p) as real == u as real / p as real
  {
    assert (u * q) as real == u as real * q as real;
    assert (q * p) as real == q as real * p as real;
    var y := u as real / p as real;
    assert u as real == y * p as real;
  }

  lemma UpscaleSign(d: Decimal, s: nat)
    requires d.scale <= s
    ensures Upscale(d, s) < 0 <==> d.unscaled < 0
    ensures Upscale(d, s) == 0 <==> d.unscaled == 0
  {
    var q := Pow10(s - d.scale);
    if d.unscaled < 0 {
      assert d.unscaled * q <= d.unscaled * 1;
    } else if d.unscaled > 0 {
      assert d.unscaled * q >= d.unscaled * 1;
    }
  }

  /** Dividing two integers by the same positive power of ten. */
  lemma QuotientSum(x: int, y: int, s: nat)
    ensures (x + y) as real / Pow10(s) as real == x as real / Pow10(s) as real + y as real / Pow10(s) as real
    ensures (x - y) as real / Pow10(s) as real == x as real / Pow10(s) as real - y as real / Pow10(s) as real
    ensures x < y <==> x as real / Pow10(s) as real < y as real / Pow10(s) as real
  {
    var p := Pow10(s) as real;
    assert p > 0.0;
    if x < y {
      assert x as real / p < y as real / p by {
        assert (y as real - x as real) / p > 0.0;
      }
    } else {
      assert x as real / p >= y as real / p by {
        assert (x as real - y as real) / p >= 0.0;
      }
    }
  }

  /** `add` is exact. */
  lemma AddValue(a: Decimal, b: Decimal)
    ensures Value(Add(a, b)) == Value(a) + Value(b)
  {
    var s := Max(a.scale, b.scale);
    UpscaleValue(a, s);
    UpscaleValue(b, s);
    QuotientSum(Upscale(a, s), Upscale(b, s), s);
  }

  /** `subtract` is exact. */
  lemma SubtractValue(a: Decimal, b: Decimal)
    ensures Value(Subtract(a, b)) == Value(a) - Value(b)
  {
    var s := Max(a.scale, b.scale);
    UpscaleValue(a, s);
    UpscaleValue(b, s);
    QuotientSum(Upscale(a, s), Upscale(b, s), s);
  }

  /** `compareTo` is the numeric order of the values, whatever the scales. */
  lemma CompareToValue(a: Decimal, b: Decimal)
    ensures CompareTo(a, b) < 0 <==> Value(a) < Value(b)
    ensures CompareTo(a, b) == 0 <==> Value(a) == Value(b)
    ensures CompareTo(a, b) > 0 <==> Value(a) > Value(b)
  {
    var s := Max(a.scale, b.scale);
    UpscaleValue(a, s);
    UpscaleValue(b, s);
    QuotientSum(Upscale(a, s), Upscale(b, s), s);
    QuotientSum(Upscale(b, s), Upscale(a, s), s);
  }

  /** `x.compareTo(ZERO)` is the sign of `x`, and so is the sign of its value. */
  lemma CompareToZero(d: Decimal)
    ensures CompareTo(d, ZERO) == Signum(d)
    ensures Signum(d) < 0 <==> Value(d) < 0.0
    ensures Signum(d) == 0 <==> Value(d) == 0.0
  {
    assert Upscale(ZERO, d.scale) == 0;
    assert Upscale(d, d.scale) == d.unscaled;
    CompareToValue(d, ZERO);
    assert Value(ZERO) == 0.0;
  }

  /** `@PositiveOrZero` holds exactly of the decimals whose value is at least zero. */
  lemma NonNegativeValue(d: Decimal)
    ensures NonNegative(d) <==> Value(d) >= 0.0
  {
    CompareToZero(d);
  }

  /**
   * BigDecimal.equals: two decimals are equal exactly when they compare equal
   * and have the same scale; 700 and 700.00 compare equal but are not equal.
   */
  lemma EqualsIsScaleSensitive(a: Decimal, b: Decimal)
    ensures a == b <==> CompareTo(a, b) == 0 && a.scale == b.scale
    ensures CompareTo(Decimal(700, 0), Decimal(70000, 2)) == 0
    ensures Decimal(700, 0) != Decimal(70000, 2)
  {
    if a.scale == b.scale {
      assert Upscale(a, a.scale) == a.unscaled;
      assert Upscale(b, b.scale) == b.unscaled;
    }
    assert Upscale(Decimal(700, 0), 2) == 700 * Pow10(2);
  }

  lemma UpscaleTwice(d: Decimal, m: nat, s: nat)
    requires d.scale <= m <= s
    ensures Upscale(d, m) * Pow10(s - m) == Upscale(d, s)
  {
    Pow10Add(m - d.scale, s - m);
    assert s - d.scale == (m - d.scale) + (s - m);
    calc {
      Upscale(d, m) * Pow10(s - m);
      (d.unscaled * Pow10(m - d.scale)) * Pow10(s - m);
      d.unscaled * (Pow10(m - d.scale) * Pow10(s - m));
      d.unscaled * Pow10(s - d.scale);
    }
  }

  /** Two additions onto the same balance give the same BigDecimal in either order. */
  lemma AddTwiceCommutes(a: Decimal, b: Decimal, c: Decimal)
    ensures Add(Add(a, b), c) == Add(Add(a, c), b)
  {
    var s := Max(Max(a.scale, b.scale), c.scale);
    var m1, m2 := Max(a.scale, b.scale), Max(a.scale, c.scale);
    assert s == Max(m2, b.scale);
    UpscaleTwice(a, m1, s);
    UpscaleTwice(b, m1, s);
    UpscaleTwice(a, m2, s);
    UpscaleTwice(c, m2, s);
    var ab, ac := Add(a, b), Add(a, c);
    assert Upscale(ab, s) == (Upscale(a, m1) + Upscale(b, m1)) * Pow10(s - m1);
    assert Upscale(ab, s) == Upscale(a, s) + Upscale(b, s) by {
      var p := Pow10(s - m1);
      assert (Upscale(a, m1) + Upscale(b, m1)) * p == Upscale(a, m1) * p + Upscale(b, m1) * p;
    }
    assert Upscale(ac, s) == Upscale(a, s) + Upscale(c, s) by {
      var p := Pow10(s - m2);
      assert Upscale(ac, s) == (Upscale(a, m2) + Upscale(c, m2)) * p;
      assert (Upscale(a, m2) + Upscale(c, m2)) * p == Upscale(a, m2) * p + Upscale(c, m2) * p;
    }
  }

  /** A deposit followed by the withdrawal of the same amount restores the value (not the scale). */
  lemma AddThenSubtract(a: Decimal, b: Decimal)
    ensures Value(Subtract(Add(a, b), b)) == Value(a)
  {
    AddValue(a, b);
    SubtractValue(Add(a, b), b);
  }

  /** Adding a non-negative amount to a non-negative balance keeps it non-negative. */
  lemma AddNonNegative(a: Decimal, b: Decimal)
    requires NonNegative(a) && NonNegative(b)
    ensures NonNegative(Add(a, b))
  {
    var s := Max(a.scale, b.scale);
    UpscaleSign(a, s);
    UpscaleSign(b, s);
  }
}
