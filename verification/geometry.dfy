/**
 * Minimal stand-ins for the vector, ray, interval and bounding-box types the
 * ray tracer's core is written against. Doubles are modelled as `real`, so
 * every operation here is exact; the operations whose results are not
 * polynomial in their inputs (square root, tangent, normalisation and
 * refraction) are not defined here but supplied by the caller as a
 * `Numerics` bundle.
 */
module Geometry {

  datatype Option<T> = None | Some(value: T)

  datatype Vec3 = Vec3(x: real, y: real, z: real)

  /** Points and colours share the vector representation. */
  type Point3 = Vec3
  type Color = Vec3

  const Zero: Vec3 := Vec3(0.0, 0.0, 0.0)
  const Black: Color := Vec3(0.0, 0.0, 0.0)

  function Add(a: Vec3, b: Vec3): Vec3 { Vec3(a.x + b.x, a.y + b.y, a.z + b.z) }
  function Sub(a: Vec3, b: Vec3): Vec3 { Vec3(a.x - b.x, a.y - b.y, a.z - b.z) }
  function Neg(a: Vec3): Vec3 { Vec3(-a.x, -a.y, -a.z) }
  function Scale(k: real, a: Vec3): Vec3 { Vec3(k * a.x, k * a.y, k * a.z) }

  /** Component-wise product, used to attenuate a colour. */
  function Mul(a: Vec3, b: Vec3): Vec3 { Vec3(a.x * b.x, a.y * b.y, a.z * b.z) }

  function Dot(a: Vec3, b: Vec3): real { a.x * b.x + a.y * b.y + a.z * b.z }

  function Cross(a: Vec3, b: Vec3): Vec3 {
    Vec3(a.y * b.z - a.z * b.y, a.z * b.x - a.x * b.z, a.x * b.y - a.y * b.x)
  }

  function LengthSquared(a: Vec3): real { Dot(a, a) }

  function Abs(x: real): real { if x < 0.0 then -x else x }

  /** Mirror direction of `v` about the plane with normal `n`. */
  function Reflect(v: Vec3, n: Vec3): Vec3 { Sub(v, Scale(2.0 * Dot(v, n), n)) }

  /** True when every component is within 1e-8 of zero. */
  predicate NearZero(a: Vec3) {
    Abs(a.x) < 0.00000001 && Abs(a.y) < 0.00000001 && Abs(a.z) < 0.00000001
  }

  /** A ray carries the time at which it was cast, for motion blur. */
  datatype Ray = Ray(origin: Point3, direction: Vec3, time: real) {
    function At(t: real): Point3 { Add(origin, Scale(t, direction)) }
  }

  /** Reals extended with the two infinities, for the ends of a ray window. */
  datatype Extended = NegInf | Finite(value: real) | PosInf

  /** `e < x` */
  predicate Below(e: Extended, x: real) { e.NegInf? || (e.Finite? && e.value < x) }
  /** `e <= x` */
  predicate AtMost(e: Extended, x: real) { e.NegInf? || (e.Finite? && e.value <= x) }
  /** `x < e` */
  predicate Above(e: Extended, x: real) { e.PosInf? || (e.Finite? && x < e.value) }
  /** `x <= e` */
  predicate AtLeast(e: Extended, x: real) { e.PosInf? || (e.Finite? && x <= e.value) }

  /** A window of admissible ray parameters. */
  datatype Interval = Interval(min: Extended, max: Extended) {
    /** Closed membership: `min <= x <= max`. */
    predicate Contains(x: real) { AtMost(min, x) && AtLeast(max, x) }
    /** Open membership: `min < x < max`. */
    predicate Surrounds(x: real) { Below(min, x) && Above(max, x) }
  }

  /** One finite axis of a bounding box. */
  datatype Span = Span(lo: real, hi: real) {
    predicate Holds(c: real) { lo <= c <= hi }
  }

  function Min(a: real, b: real): real { if a <= b then a else b }
  function Max(a: real, b: real): real { if a <= b then b else a }

  /** Axis-aligned bounding box, one span per axis. */
  datatype Aabb = Aabb(x: Span, y: Span, z: Span) {
    predicate Holds(p: Point3) { x.Holds(p.x) && y.Holds(p.y) && z.Holds(p.z) }
  }

  /** The box with opposite corners `a` and `b`, in any order. */
  function BoxOf(a: Point3, b: Point3): Aabb {
    Aabb(Span(Min(a.x, b.x), Max(a.x, b.x)),
         Span(Min(a.y, b.y), Max(a.y, b.y)),
         Span(Min(a.z, b.z), Max(a.z, b.z)))
  }

  function SpanUnion(s: Span, t: Span): Span { Span(Min(s.lo, t.lo), Max(s.hi, t.hi)) }

  /** The smallest box enclosing both boxes. */
  function BoxUnion(b0: Aabb, b1: Aabb): Aabb {
    Aabb(SpanUnion(b0.x, b1.x), SpanUnion(b0.y, b1.y), SpanUnion(b0.z, b1.z))
  }

  const PadDelta: real := 0.0001

  /** Widens an axis thinner than `PadDelta` by half of it on each side. */
  function PadSpan(s: Span): Span {
    if s.hi - s.lo >= PadDelta then s else Span(s.lo - PadDelta / 2.0, s.hi + PadDelta / 2.0)
  }

  function Pad(b: Aabb): Aabb { Aabb(PadSpan(b.x), PadSpan(b.y), PadSpan(b.z)) }

  /**
   * The operations of the C++ math library and of the vector header whose
   * results are irrational: they are parameters of the model, never defined.
   */
  datatype Numerics = Numerics(
    sqrt: real -> real,
    tan: real -> real,
    unitVector: Vec3 -> Vec3,
    refract: (Vec3, Vec3, real) -> Vec3)
}
