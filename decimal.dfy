/**
 * Exact decimal arithmetic as java.math.BigDecimal performs it, on Dafny's
 * unbounded `real`s. Only the rounding step needs modelling: `setScale(n,
 * HALF_UP)` and `divide(d, n, HALF_UP)` both round an exact value to n digits
 * after the decimal point, halves going away from zero.
 */
module Decimal {

  /** 10^n. */
  function Pow10(n: nat): (r: nat)
    ensures r >= 1
  {
    if n == 0 then 1 else 10 * Pow10(n - 1)
  }

  /** The number of units of the last place in 1: 10^places, as a real. */
  function Unit(places: nat): (f: real)
    ensures f >= 1.0
  {
    Pow10(places) as real
  }

  /** x is a whole number of units of size 1/f. */
  predicate Whole(x: real, f: real) {
    (x * f).Floor as real == x * f
  }

  /** x has at most `places` digits after the decimal point. */
  predicate HasScale(x: real, places: nat) {
    Whole(x, Unit(places))
  }

  /** Half-up rounding to a multiple of 1/f, the sign kept aside. */
  function HalfUpTo(x: real, f: real): real
    requires f >= 1.0
    decreases if x >= 0.0 then 0 else 1
  {
    if x >= 0.0 then (x * f + 0.5).Floor as real / f
    else -HalfUpTo(-x, f)
  }

  lemma ScaleBack(k: real, f: real)
    requires f >= 1.0
    ensures (k / f) * f == k
    ensures k >= 0.0 ==> k / f >= 0.0
  {
  }

  lemma Distribute(a: real, b: real, f: real)
    ensures (a - b) * f == a * f - b * f
  {
  }

  lemma ScaleSign(x: real, f: real)
    requires f >= 1.0 && x >= 0.0
    ensures x * f >= 0.0
  {
  }

  /** k units of size 1/f make a whole number of units, and k of them. */
  lemma UnitsOf(k: int, f: real)
    requires f >= 1.0
    ensures (k as real / f) * f == k as real
    ensures Whole(k as real / f, f)
    ensures k >= 0 ==> k as real / f >= 0.0
  {
    ScaleBack(k as real, f);
    assert (k as real).Floor == k;
  }

  /** Rounding p half up moves it by at most half a unit. */
  lemma HalfUpOffset(p: real, k: int)
    requires k == (p + 0.5).Floor
    ensures -0.5 <= k as real - p <= 0.5
    ensures p >= 0.0 ==> k >= 0
  {
  }

  /** r, k units of 1/f, is as far from x, in units, as k is from x * f. */
  lemma UnitsOffset(r: real, x: real, f: real, k: int)
    requires r * f == k as real
    ensures (r - x) * f == k as real - x * f
  {
    Distribute(r, x, f);
  }

  /** Half-up rounding of a non-negative x to units of 1/f. */
  lemma HalfUpToFactsNonNegative(x: real, f: real)
    requires f >= 1.0 && x >= 0.0
    ensures Whole(HalfUpTo(x, f), f)
    ensures -0.5 <= (HalfUpTo(x, f) - x) * f <= 0.5
    ensures HalfUpTo(x, f) >= 0.0
  {
    var p := x * f;
    var k := (p + 0.5).Floor;
    ScaleSign(x, f);
    HalfUpOffset(p, k);
    UnitsOf(k, f);
    var r := k as real / f;
    assert HalfUpTo(x, f) == r;
    UnitsOffset(r, x, f, k);
  }

  lemma Negate(a: real, f: real)
    ensures (-a) * f == -(a * f)
  {
  }

  lemma NegateWhole(z: real)
    requires z.Floor as real == z
    ensures (-z).Floor as real == -z
  {
    var k := z.Floor;
    assert -z == (-k) as real;
  }

  /** Half-up rounding of a negative x: the rounding of -x, negated. */
  lemma HalfUpToFactsNegative(x: real, f: real)
    requires f >= 1.0 && x < 0.0
    ensures Whole(HalfUpTo(x, f), f)
    ensures -0.5 <= (HalfUpTo(x, f) - x) * f <= 0.5
    ensures HalfUpTo(x, f) <= 0.0
  {
    HalfUpToFactsNonNegative(-x, f);
    NegatedFacts(HalfUpTo(-x, f), -x, f);
  }

  /** What holds of y, a rounding of z, holds of -y as a rounding of -z. */
  lemma NegatedFacts(y: real, z: real, f: real)
    requires Whole(y, f) && -0.5 <= (y - z) * f <= 0.5 && y >= 0.0
    ensures Whole(-y, f) && -0.5 <= (-y - (-z)) * f <= 0.5 && -y <= 0.0
  {
    NegatedWhole(y, f);
    NegatedOffset(y, z, f);
  }

  lemma NegatedWhole(y: real, f: real)
    requires Whole(y, f)
    ensures Whole(-y, f)
  {
    Negate(y, f);
    NegateWhole(y * f);
  }

  lemma NegatedOffset(y: real, z: real, f: real)
    requires -0.5 <= (y - z) * f <= 0.5
    ensures -0.5 <= (-y - (-z)) * f <= 0.5
  {
    assert -y - (-z) == -(y - z);
    Negate(y - z, f);
  }

  lemma HalfUpToFacts(x: real, f: real)
    requires f >= 1.0
    ensures Whole(HalfUpTo(x, f), f)
    ensures -0.5 <= (HalfUpTo(x, f) - x) * f <= 0.5
    ensures x >= 0.0 ==> HalfUpTo(x, f) >= 0.0
    ensures x <= 0.0 ==> HalfUpTo(x, f) <= 0.0
  {
    if x >= 0.0 {
      HalfUpToFactsNonNegative(x, f);
    } else {
      HalfUpToFactsNegative(x, f);
    }
  }

  /**
   * BigDecimal rounding to `places` decimals with RoundingMode.HALF_UP:
   * the magnitude is rounded half up and the sign is kept, so negative
   * halves go down (away from zero), as Java's HALF_UP specifies.
   */
  function RoundHalfUp(x: real, places: nat): (r: real)
    ensures HasScale(r, places)
    ensures -0.5 <= (r - x) * Unit(places) <= 0.5
    ensures x >= 0.0 ==> r >= 0.0
    ensures x <= 0.0 ==> r <= 0.0
  {
    HalfUpToFacts(x, Unit(places));
    HalfUpTo(x, Unit(places))
  }

  /** HALF_UP is symmetric: rounding -x gives minus the rounding of x. */
  lemma RoundHalfUpSymmetric(x: real, places: nat)
    ensures RoundHalfUp(-x, places) == -RoundHalfUp(x, places)
  {
    var f := Unit(places);
    if x == 0.0 {
      assert (0.0 * f + 0.5).Floor == 0;
    } else {
      assert -(-x) == x;
    }
  }

  lemma HalfUpToExact(x: real, f: real)
    requires f >= 1.0 && Whole(x, f)
    ensures HalfUpTo(x, f) == x
  {
    var n := (x * f).Floor;
    if x >= 0.0 {
      calc {
        HalfUpTo(x, f);
        (x * f + 0.5).Floor as real / f;
        { assert (x * f + 0.5).Floor == n; }
        n as real / f;
        (x * f) / f;
        x;
      }
    } else {
      calc {
        HalfUpTo(x, f);
        -(((-x) * f + 0.5).Floor as real / f);
        { assert (-x) * f == -(n as real); assert ((-x) * f + 0.5).Floor == -n; }
        -((-n) as real / f);
        (x * f) / f;
        x;
      }
    }
  }

  /** A value that already has `places` decimals is left exactly as it is. */
  lemma RoundHalfUpExact(x: real, places: nat)
    requires HasScale(x, places)
    ensures RoundHalfUp(x, places) == x
  {
    HalfUpToExact(x, Unit(places));
  }

  /** Rounding twice to the same scale is rounding once. */
  lemma RoundHalfUpIdempotent(x: real, places: nat)
    ensures RoundHalfUp(RoundHalfUp(x, places), places) == RoundHalfUp(x, places)
  {
    RoundHalfUpExact(RoundHalfUp(x, places), places);
  }

  /** a <= b survives division by a positive unit size. */
  lemma DivideMonotone(a: real, b: real, f: real)
    requires a <= b && f >= 1.0
    ensures a / f <= b / f
  {
    assert b / f - a / f == (b - a) / f;
  }

  lemma FloorMonotone(a: real, b: real)
    requires a <= b
    ensures a.Floor <= b.Floor
  {
  }

  lemma HalfUpToSign(x: real, f: real)
    requires f >= 1.0
    ensures x >= 0.0 ==> HalfUpTo(x, f) >= 0.0
    ensures x < 0.0 ==> HalfUpTo(x, f) <= 0.0
  {
    if x >= 0.0 {
      DivideMonotone(0.0, (x * f + 0.5).Floor as real, f);
    } else {
      DivideMonotone(0.0, ((-x) * f + 0.5).Floor as real, f);
    }
  }

  lemma UnitsMonotone(x: real, y: real, f: real)
    requires 0.0 <= x <= y && f >= 1.0
    ensures (x * f + 0.5).Floor as real / f <= (y * f + 0.5).Floor as real / f
  {
    assert x * f <= y * f;
    FloorMonotone(x * f + 0.5, y * f + 0.5);
    DivideMonotone((x * f + 0.5).Floor as real, (y * f + 0.5).Floor as real, f);
  }

  lemma NonNegativeMonotone(x: real, y: real, f: real)
    requires 0.0 <= x <= y && f >= 1.0
    ensures HalfUpTo(x, f) <= HalfUpTo(y, f)
  {
    UnitsMonotone(x, y, f);
  }

  lemma NegativeMonotone(x: real, y: real, f: real)
    requires x <= y < 0.0 && f >= 1.0
    ensures HalfUpTo(x, f) <= HalfUpTo(y, f)
  {
    NonNegativeMonotone(-y, -x, f);
    HalfUpToNegative(x, f);
    HalfUpToNegative(y, f);
  }

  lemma HalfUpToNegative(x: real, f: real)
    requires x < 0.0 && f >= 1.0
    ensures HalfUpTo(x, f) == -HalfUpTo(-x, f)
  {
  }

  lemma HalfUpToMonotone(x: real, y: real, f: real)
    requires x <= y && f >= 1.0
    ensures HalfUpTo(x, f) <= HalfUpTo(y, f)
  {
    if 0.0 <= x {
      NonNegativeMonotone(x, y, f);
    } else if y < 0.0 {
      NegativeMonotone(x, y, f);
    } else {
      HalfUpToSign(x, f);
      HalfUpToSign(y, f);
    }
  }

  /** HALF_UP never reverses the order of two values. */
  lemma RoundHalfUpMonotone(x: real, y: real, places: nat)
    requires x <= y
    ensures RoundHalfUp(x, places) <= RoundHalfUp(y, places)
  {
    HalfUpToMonotone(x, y, Unit(places));
  }

  /** k units of size 1/f lie k - y * f units away from y. */
  lemma UnitsAway(k: real, f: real, y: real)
    requires f >= 1.0
    ensures (k / f - y) * f == k - y * f
  {
  }

  /** x lies exactly half-way between two multiples of 1/f. */
  predicate HalfWay(x: real, f: real) {
    x * f - (x * f).Floor as real == 0.5
  }

  lemma HalfUpToTie(x: real, f: real)
    requires f >= 1.0 && HalfWay(x, f)
    ensures (HalfUpTo(x, f) - x) * f == if x >= 0.0 then 0.5 else -0.5
  {
    var m := (x * f).Floor;
    assert x * f == m as real + 0.5;
    if x >= 0.0 {
      assert (x * f + 0.5).Floor == m + 1;
      assert HalfUpTo(x, f) == (m + 1) as real / f;
      UnitsAway((m + 1) as real, f, x);
    } else {
      assert (-x) * f == -(x * f);
      assert (-x) * f + 0.5 == (-m) as real;
      assert ((-x) * f + 0.5).Floor == -m;
      assert HalfUpTo(x, f) == m as real / f;
      UnitsAway(m as real, f, x);
    }
  }

  /**
   * A value exactly half-way between two neighbours of the given scale is
   * rounded away from zero: up when non-negative, down when negative.
   */
  lemma RoundHalfUpTie(x: real, places: nat)
    requires HalfWay(x, Unit(places))
    ensures (RoundHalfUp(x, places) - x) * Unit(places) == if x >= 0.0 then 0.5 else -0.5
  {
    HalfUpToTie(x, Unit(places));
  }

  lemma RescaleNonNegative(x: real)
    requires x >= 0.0
    ensures RoundHalfUp(x, 4) * 100.0 == RoundHalfUp(x * 100.0, 2)
  {
    assert Unit(4) == 10000.0 && Unit(2) == 100.0;
    assert (x * 100.0) * 100.0 == x * 10000.0;
  }

  /**
   * Rounding a ratio to 4 places and scaling it by 100 is the same as
   * rounding the percentage to 2 places.
   */
  lemma RoundHalfUpRescale(x: real)
    ensures RoundHalfUp(x, 4) * 100.0 == RoundHalfUp(x * 100.0, 2)
  {
    if x >= 0.0 {
      RescaleNonNegative(x);
    } else {
      RescaleNonNegative(-x);
      RoundHalfUpSymmetric(x, 4);
      assert (-x) * 100.0 == -(x * 100.0);
      RoundHalfUpSymmetric(x * 100.0, 2);
    }
  }
}
