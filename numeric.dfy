/**
 * Numeric conventions shared by every calculator: the values JavaScript's
 * `Number(...)` / `parseFloat(...)` can yield, truthiness, `Math.round`,
 * `Math.max`/`Math.min`, `Math.pow` with a whole exponent, and the decimal
 * strings printed by `Number.prototype.toFixed`.
 */
module Numeric {

  /** A converted input: `None` stands for NaN (an empty or non-numeric field). */
  datatype Option<+T> = None | Some(value: T)

  /** JavaScript truthiness of a converted number: NaN and 0 are falsy. */
  predicate Truthy(x: Option<real>) {
    x.Some? && x.value != 0.0
  }

  function Max(a: real, b: real): (r: real)
    ensures r >= a && r >= b
    ensures r == a || r == b
  {
    if a >= b then a else b
  }

  function Min(a: real, b: real): (r: real)
    ensures r <= a && r <= b
    ensures r == a || r == b
  {
    if a <= b then a else b
  }

  function MaxInt(a: int, b: int): (r: int)
    ensures r >= a && r >= b
    ensures r == a || r == b
  {
    if a >= b then a else b
  }

  function Abs(x: real): (r: real)
    ensures r >= 0.0
    ensures r == x || r == -x
  {
    if x < 0.0 then -x else x
  }

  /** `Math.round`: the nearest integer, halves going toward +infinity. */
  function Round(x: real): (r: int)
    ensures x - 0.5 < r as real <= x + 0.5
  {
    (x + 0.5).Floor
  }

  lemma RoundMonotone(x: real, y: real)
    requires x <= y
    ensures Round(x) <= Round(y)
  {
  }

  lemma RoundOfInt(k: int)
    ensures Round(k as real) == k
  {
  }

  /** `Math.round(x)` reaches k exactly from k - 0.5 on. */
  lemma RoundAtLeast(x: real, k: int)
    ensures Round(x) >= k <==> x >= k as real - 0.5
  {
  }

  /** Taking a whole number off before rounding is taking it off after. */
  lemma RoundShift(x: real, k: int)
    ensures Round(x - k as real) == Round(x) - k
  {
  }

  /** `Math.pow(b, n)` for a whole exponent `n`. */
  function Pow(b: real, n: nat): real
  {
    if n == 0 then 1.0 else b * Pow(b, n - 1)
  }

  lemma {:induction false} PowAtLeastOne(b: real, n: nat)
    requires b >= 1.0
    ensures Pow(b, n) >= 1.0
  {
    if n > 0 {
      PowAtLeastOne(b, n - 1);
      assert b * Pow(b, n - 1) >= Pow(b, n - 1) by {
        assert (b - 1.0) * Pow(b, n - 1) >= 0.0;
      }
    }
  }

  lemma {:induction false} PowAboveOne(b: real, n: nat)
    requires b > 1.0 && n >= 1
    ensures Pow(b, n) > 1.0
  {
    PowAtLeastOne(b, n - 1);
    assert b * Pow(b, n - 1) > Pow(b, n - 1) by {
      assert (b - 1.0) * Pow(b, n - 1) > 0.0;
    }
  }

  /** Multiplying by a non-negative factor keeps an inequality. */
  lemma MulLeft(a: real, x: real, y: real)
    requires a >= 0.0 && x <= y
    ensures a * x <= a * y
  {
    assert a * y - a * x == a * (y - x);
  }

  /** Multiplying by a positive factor keeps a strict inequality. */
  lemma MulLeftStrict(a: real, x: real, y: real)
    requires a > 0.0 && x < y
    ensures a * x < a * y
  {
    assert a * y - a * x == a * (y - x);
  }

  /**
   * A product kept as one term: facts about a square `x * x` are stated on
   * `Product(x, x)` through the lemmas below, which are proved for any two factors.
   */
  function Product(a: real, b: real): real
  {
    a * b
  }

  function Square(x: real): real
  {
    Product(x, x)
  }

  lemma ProductPositive(a: real, b: real)
    requires a > 0.0 && b > 0.0
    ensures Product(a, b) > 0.0
  {
    MulLeftStrict(a, 0.0, b);
  }

  lemma SquarePositive(x: real)
    requires x > 0.0
    ensures Square(x) > 0.0
  {
    ProductPositive(x, x);
  }

  /** Squaring keeps the order of positive numbers. */
  lemma SquareMonotone(a: real, b: real)
    requires 0.0 < a <= b
    ensures 0.0 < Square(a) <= Square(b)
  {
    SquarePositive(a);
    MulLeft(a, a, b);
    MulLeft(b, a, b);
    assert Product(a, b) == Product(b, a);
  }

  /** A positive factor common to both sides can be cancelled. */
  lemma CancelLeft(a: real, x: real, y: real)
    requires a > 0.0 && a * x <= a * y
    ensures x <= y
  {
    if y < x {
      MulLeftStrict(a, y, x);
      assert false;
    }
  }

  /** A quotient by a positive number is at least `lo` when its numerator is at least lo times it. */
  lemma DivAtLeast(x: real, n: real, lo: real)
    requires n > 0.0 && lo * n <= x
    ensures lo <= x / n
  {
    var q := x / n;
    assert q * n == x;
    if q < lo {
      MulLeftStrict(n, q, lo);
      assert false;
    }
  }

  /** A quotient by a positive number is at most `hi` when its numerator is at most hi times it. */
  lemma DivAtMost(x: real, n: real, hi: real)
    requires n > 0.0 && x <= hi * n
    ensures x / n <= hi
  {
    var q := x / n;
    assert q * n == x;
    if q > hi {
      MulLeftStrict(n, hi, q);
      assert false;
    }
  }

  lemma DivNonNegative(x: real, n: real)
    requires n > 0.0 && x >= 0.0
    ensures x / n >= 0.0
  {
    assert 0.0 * n == 0.0;
    DivAtLeast(x, n, 0.0);
  }

  lemma DivWithin(x: real, n: real, lo: real, hi: real)
    requires n > 0.0 && lo * n <= x <= hi * n
    ensures lo <= x / n <= hi
  {
    DivAtLeast(x, n, lo);
    DivAtMost(x, n, hi);
  }

  /** Dividing by a positive number keeps the order. */
  lemma DivMonotone(x: real, y: real, d: real)
    requires d > 0.0 && x <= y
    ensures x / d <= y / d
  {
    assert (y / d) * d == y;
    DivAtMost(x, d, y / d);
  }

  /** Dividing by a larger positive number gives a smaller non-negative quotient. */
  lemma DivAntitone(x: real, d1: real, d2: real)
    requires x >= 0.0 && 0.0 < d1 <= d2
    ensures x / d2 <= x / d1
  {
    assert (x / d1) * d1 == x;
    MulLeft(x / d1, d1, d2);
    DivAtMost(x, d2, x / d1);
  }

  /** One step of Bernoulli's inequality: from p >= 1 + m*i to (1 + i)*p >= 1 + (m + 1)*i. */
  lemma BernoulliStep(i: real, m: real, p: real)
    requires i >= 0.0 && m >= 0.0 && p >= 1.0 + m * i
    ensures (1.0 + i) * p >= 1.0 + (m + 1.0) * i
  {
    MulLeft(i, 1.0 + m * i, p);
    MulLeft(m, 0.0, i);
    MulLeft(i, 0.0, m * i);
    assert (1.0 + i) * p == p + i * p;
    assert i * (1.0 + m * i) == i + i * (m * i);
  }

  /** Bernoulli's inequality: (1 + i)^n >= 1 + n*i for i >= 0. */
  lemma {:induction false} Bernoulli(i: real, n: nat)
    requires i >= 0.0
    ensures Pow(1.0 + i, n) >= 1.0 + (n as real) * i
  {
    if n > 0 {
      Bernoulli(i, n - 1);
      BernoulliStep(i, (n - 1) as real, Pow(1.0 + i, n - 1));
      assert (n as real) == ((n - 1) as real) + 1.0;
    }
  }

  /**
   * Growth of a power is bounded by its base: b^n - 1 <= n*(b - 1)*b^n for b >= 1,
   * that is, b^n - 1 = (b - 1)(1 + b + ... + b^(n-1)) with every term at most b^n.
   */
  lemma {:induction false} PowGrowthBound(b: real, n: nat)
    requires b >= 1.0
    ensures Pow(b, n) - 1.0 <= (n as real) * (b - 1.0) * Pow(b, n)
  {
    if n > 0 {
      PowGrowthBound(b, n - 1);
      PowAtLeastOne(b, n - 1);
      var p := Pow(b, n - 1);
      var m := (n - 1) as real;
      var q := Pow(b, n);
      assert q == b * p;
      // q - 1 = b*(p - 1) + (b - 1)
      assert q - 1.0 == b * (p - 1.0) + (b - 1.0);
      MulLeft(b, p - 1.0, m * (b - 1.0) * p);
      assert b * (m * (b - 1.0) * p) == m * (b - 1.0) * q;
      PowAtLeastOne(b, n);
      MulLeft(b - 1.0, 1.0, q);
      assert (n as real) * (b - 1.0) * q == m * (b - 1.0) * q + (b - 1.0) * q;
    }
  }

  /** x * 10^places, multiplying by ten once per place. */
  function Scaled(x: real, places: nat): real
  {
    if places == 0 then x else Scaled(x, places - 1) * 10.0
  }

  /** x / 10^places, dividing by ten once per place. */
  function Unscaled(x: real, places: nat): real
  {
    if places == 0 then x else Unscaled(x, places - 1) / 10.0
  }

  /** One and two places, spelled out. */
  lemma SmallScales(x: real)
    ensures Scaled(x, 1) == x * 10.0 && Scaled(x, 2) == x * 100.0
    ensures Unscaled(x, 1) == x / 10.0 && Unscaled(x, 2) == x / 100.0
  {
    assert Scaled(x, 1) == Scaled(x, 0) * 10.0;
    assert Unscaled(x, 1) == Unscaled(x, 0) / 10.0;
  }

  lemma {:induction false} ScaledMonotone(x: real, y: real, places: nat)
    requires x <= y
    ensures Scaled(x, places) <= Scaled(y, places)
  {
    if places > 0 {
      ScaledMonotone(x, y, places - 1);
    }
  }

  lemma {:induction false} ScaledNonNegative(x: real, places: nat)
    requires x >= 0.0
    ensures Scaled(x, places) >= 0.0
  {
    if places > 0 {
      ScaledNonNegative(x, places - 1);
    }
  }

  /** Unscaling undoes scaling. */
  lemma {:induction false} UnscaledScaled(x: real, places: nat)
    ensures Unscaled(Scaled(x, places), places) == x
  {
    if places > 0 {
      UnscaledScaled(x, places - 1);
      UnscaledTimesTen(Scaled(x, places - 1), places);
    }
  }

  lemma {:induction false} UnscaledTimesTen(x: real, places: nat)
    requires places > 0
    ensures Unscaled(x * 10.0, places) == Unscaled(x, places - 1)
  {
    if places > 1 {
      UnscaledTimesTen(x, places - 1);
    }
  }

  /**
   * The string `x.toFixed(places)` prints, as its sign, its digits read as one
   * whole number, and the number of digits after the point: `Decimal(false, 1234, 2)`
   * is "12.34", `Decimal(true, 0, 2)` is "-0.00".
   */
  datatype Decimal = Decimal(negative: bool, magnitude: nat, places: nat)

  /** The number a decimal string denotes. */
  function Value(d: Decimal): real
  {
    Unscaled(if d.negative then -(d.magnitude as real) else d.magnitude as real, d.places)
  }

  /**
   * `x.toFixed(places)`: a minus sign when x is negative, then the digits of the
   * whole number nearest |x| * 10^places, the larger one on a tie.
   */
  function ToFixed(x: real, places: nat): (d: Decimal)
    ensures d.places == places && d.negative == (x < 0.0)
    ensures Scaled(Abs(x), places) - 0.5 < d.magnitude as real
    ensures d.magnitude as real <= Scaled(Abs(x), places) + 0.5
  {
    ScaledNonNegative(Abs(x), places);
    var n := Round(Scaled(Abs(x), places));
    assert n >= 0;
    Decimal(x < 0.0, n, places)
  }

  /** "0.00": what `(0).toFixed(2)` prints, and the placeholder the calculators return. */
  const Zero2: Decimal := Decimal(false, 0, 2)

  /** A number with exactly `places` decimals prints as itself. */
  lemma ToFixedExact(x: real, places: nat, k: nat)
    requires x >= 0.0 && Scaled(x, places) == k as real
    ensures ToFixed(x, places) == Decimal(false, k, places)
  {
    RoundOfInt(k);
  }

  /** A non-negative number at most bound / 10^places prints at most `bound` digits-as-a-number. */
  lemma ToFixedAtMost(x: real, places: nat, bound: nat)
    requires 0.0 <= x && Scaled(x, places) <= bound as real
    ensures !ToFixed(x, places).negative && ToFixed(x, places).magnitude <= bound
  {
    RoundMonotone(Scaled(x, places), bound as real);
    RoundOfInt(bound);
  }

  /** A number at least bound / 10^places prints at least `bound` digits-as-a-number. */
  lemma ToFixedAtLeast(x: real, places: nat, bound: nat)
    requires 0.0 <= x && bound as real <= Scaled(x, places)
    ensures ToFixed(x, places).magnitude >= bound
  {
    RoundMonotone(bound as real, Scaled(x, places));
    RoundOfInt(bound);
  }

  /** `toFixed` keeps the order of non-negative numbers. */
  lemma ToFixedMonotone(x: real, y: real, places: nat)
    requires 0.0 <= x <= y
    ensures ToFixed(x, places).magnitude <= ToFixed(y, places).magnitude
  {
    ScaledMonotone(x, y, places);
    RoundMonotone(Scaled(x, places), Scaled(y, places));
  }
}
