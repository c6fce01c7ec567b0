/**
 * Scalar helpers shared by the whole renderer, and the two pieces of C++
 * integer semantics the core relies on: the truncating conversion of a
 * double to `int`, and the truncating remainder operator `%`.
 */
module Common {

  const Pi: real := 3.1415926535897932385

  function DegreesToRadians(degrees: real): (radians: real)
    ensures radians * 180.0 == degrees * Pi
  {
    degrees * Pi / 180.0
  }

  /** The conversion is linear: it preserves sums and scalar multiples. */
  lemma DegreesToRadiansIsLinear(a: real, b: real, k: real)
    ensures DegreesToRadians(0.0) == 0.0
    ensures DegreesToRadians(180.0) == Pi
    ensures DegreesToRadians(a + b) == DegreesToRadians(a) + DegreesToRadians(b)
    ensures DegreesToRadians(k * a) == k * DegreesToRadians(a)
  {
  }

  /**
   * `random_double(min, max)`, given the unit draw `draw` that the generator
   * would have produced: `min` plus the fraction `draw` of the span.
   */
  function RandomDouble(min: real, max: real, draw: real): real {
    min + Portion(max - min, draw)
  }

  /**
   * With a draw in [0,1), as the generator promises, the result lies in
   * [min,max) when the bounds are ordered, is `min` when they coincide, and
   * lies in (max,min] when they are reversed.
   */
  lemma RandomDoubleInRange(min: real, max: real, draw: real)
    requires 0.0 <= draw < 1.0
    ensures min < max ==> min <= RandomDouble(min, max, draw) < max
    ensures min == max ==> RandomDouble(min, max, draw) == min
    ensures max < min ==> max < RandomDouble(min, max, draw) <= min
  {
    PortionBounds(max - min, draw);
  }

  /** The part `f` of a length `k`; a named product, so that its bounds apply wherever it occurs. */
  function Portion(k: real, f: real): real { k * f }

  /** A portion in [0,1) of a length lies between zero and that length, the length excluded. */
  lemma PortionBounds(k: real, f: real)
    requires 0.0 <= f < 1.0
    ensures k > 0.0 ==> 0.0 <= Portion(k, f) < k
    ensures k == 0.0 ==> Portion(k, f) == 0.0
    ensures k < 0.0 ==> k < Portion(k, f) <= 0.0
  {
    if k < 0.0 {
      assert (-k) * f < -k;
      assert k * f == -((-k) * f);
    }
  }

  /** Scaling by a non-negative factor preserves order. */
  lemma ScaleMonotone(t: real, x: real, y: real)
    requires t >= 0.0 && x <= y
    ensures t * x <= t * y
  {
  }

  /** Scaling by a factor of at most 1 does not widen a gap. */
  lemma ScaledGapBelow(t: real, x: real, y: real)
    requires t <= 1.0 && x <= y
    ensures t * y - t * x <= y - x
  {
  }

  function Clamp(x: real, min: real, max: real): (r: real)
    ensures r == x || r == min || r == max
    ensures min <= max ==> min <= r <= max
    ensures min <= x <= max ==> r == x
    ensures x < min ==> r == min
    ensures min <= x && max < x ==> r == max
  {
    if x < min then min
    else if x > max then max
    else x
  }

  /** With ordered bounds, clamping twice is clamping once. */
  lemma ClampIdempotent(x: real, min: real, max: real)
    requires min <= max
    ensures Clamp(Clamp(x, min, max), min, max) == Clamp(x, min, max)
  {
  }

  /** With reversed bounds the second clamp moves a value clamped to `min` on to `max`. */
  lemma ClampNotIdempotentOnReversedBounds()
    ensures Clamp(Clamp(0.0, 2.0, 1.0), 2.0, 1.0) != Clamp(0.0, 2.0, 1.0)
  {
  }

  /** `static_cast<int>(x)`: rounds toward zero. */
  function TruncToInt(x: real): (n: int)
    ensures x >= 0.0 ==> 0 <= n && n as real <= x < n as real + 1.0
    ensures x < 0.0 ==> n <= 0 && n as real - 1.0 < x <= n as real
  {
    if x >= 0.0 then x.Floor else -((-x).Floor)
  }

  /** Integer quotient rounded toward zero, as C++ `/` on `int`. */
  function CppQuot(a: int, b: int): int
    requires b != 0
  {
    var q := (if a < 0 then -a else a) / (if b < 0 then -b else b);
    if (a < 0) == (b < 0) then q else -q
  }

  /** C++ `%` on `int`: the remainder takes the sign of the dividend. */
  function CppRem(a: int, b: int): (r: int)
    requires b != 0
    ensures a == b * CppQuot(a, b) + r
    ensures a >= 0 ==> 0 <= r < (if b < 0 then -b else b)
    ensures a < 0 ==> -(if b < 0 then -b else b) < r <= 0
  {
    a - b * CppQuot(a, b)
  }

  /**
   * A C++ remainder by 2 is zero exactly when the Euclidean one is, negative
   * dividends included, so a parity test may use either.
   */
  lemma {:induction false} CppRemParity(a: int)
    ensures CppRem(a, 2) == 0 <==> a % 2 == 0
  {
    if a < 0 {
      assert CppQuot(a, 2) == -((-a) / 2);
      assert (-a) % 2 == 0 <==> a % 2 == 0;
    }
  }
}
