/**
 * Spheres, stationary or moving linearly between two centres during the
 * shutter interval [0,1], and their ray intersection: the nearer root of the
 * ray-sphere quadratic that lies strictly inside the ray window, else the
 * farther one, else a miss.
 */
module Spheres {
  import opened Geometry
  import opened Hittable
  import opened Materials

  datatype Sphere = Sphere(center1: Point3, radius: real, mat: Material, isMoving: bool, centerVec: Vec3, bbox: Aabb)

  /** The box spanned by a ball of radius `r` around `c`. */
  function BallBox(c: Point3, r: real): Aabb {
    var rvec := Vec3(r, r, r);
    BoxOf(Sub(c, rvec), Add(c, rvec))
  }

  /** `sphere(cen, r, m)`: a stationary sphere; its motion vector is the zero vector. */
  function Stationary(cen: Point3, r: real, m: Material): (s: Sphere)
    ensures !s.isMoving && s.center1 == cen && s.radius == r && s.mat == m
    ensures s.bbox == BallBox(cen, r)
  {
    Sphere(cen, r, m, false, Zero, BallBox(cen, r))
  }

  /** `sphere(c1, c2, r, m)`: moves from `c1` at time 0 to `c2` at time 1. */
  function Moving(c1: Point3, c2: Point3, r: real, m: Material): (s: Sphere)
    ensures s.isMoving && s.center1 == c1 && s.radius == r && s.mat == m
    ensures Add(s.center1, s.centerVec) == c2
    ensures s.bbox == BoxUnion(BallBox(c1, r), BallBox(c2, r))
  {
    Sphere(c1, r, m, true, Sub(c2, c1), BoxUnion(BallBox(c1, r), BallBox(c2, r)))
  }

  /** `sphere_center(time)`: `center1` moved `time` of the way along the motion vector. */
  function SphereCenter(s: Sphere, time: real): Point3 {
    Add(s.center1, Scale(time, s.centerVec))
  }

  /** The centre `hit` uses for a ray cast at `time`. */
  function CenterAt(s: Sphere, time: real): (c: Point3)
    ensures s.isMoving || s.centerVec == Zero ==> c == SphereCenter(s, time)
  {
    if s.isMoving then SphereCenter(s, time) else s.center1
  }

  /**
   * A stationary sphere has the box [c - |r|, c + |r|] on every axis: the
   * box constructor orders its corners, so a negative radius gives the same
   * box as its absolute value.
   */
  lemma StationaryBox(cen: Point3, r: real, m: Material)
    ensures Stationary(cen, r, m).bbox ==
      Aabb(Span(cen.x - Abs(r), cen.x + Abs(r)), Span(cen.y - Abs(r), cen.y + Abs(r)), Span(cen.z - Abs(r), cen.z + Abs(r)))
  {
  }

  /** A moving sphere is at its first centre at time 0 and at its second at time 1. */
  lemma MovingCenterAtEnds(c1: Point3, c2: Point3, r: real, m: Material)
    ensures SphereCenter(Moving(c1, c2, r, m), 0.0) == c1
    ensures SphereCenter(Moving(c1, c2, r, m), 1.0) == c2
  {
  }

  /** A point `t` of the way along a step `d` from `a`, `t` in [0,1], lies between the step's ends. */
  lemma BetweenEnds(a: real, d: real, t: real)
    requires 0.0 <= t <= 1.0
    ensures Min(a, a + d) <= a + t * d <= Max(a, a + d)
  {
    if d >= 0.0 {
      FractionOfStep(d, t);
      assert Min(a, a + d) == a && Max(a, a + d) == a + d;
    } else {
      FractionOfBackStep(d, t);
      assert Min(a, a + d) == a + d && Max(a, a + d) == a;
    }
  }

  /** A fraction `t` in [0,1] of a non-negative step `d` lies in [0, d]. */
  lemma FractionOfStep(d: real, t: real)
    requires 0.0 <= t <= 1.0 && 0.0 <= d
    ensures 0.0 <= t * d <= d
  {
    assert t * 0.0 <= t * d by { Common.ScaleMonotone(t, 0.0, d); }
    assert t * d <= d by { Common.ScaledGapBelow(t, 0.0, d); }
  }

  /** A fraction `t` in [0,1] of a non-positive step `d` lies in [d, 0]. */
  lemma FractionOfBackStep(d: real, t: real)
    requires 0.0 <= t <= 1.0 && d <= 0.0
    ensures d <= t * d <= 0.0
  {
    assert t * d <= t * 0.0 by { Common.ScaleMonotone(t, d, 0.0); }
    assert t * 0.0 - t * d <= 0.0 - d by { Common.ScaledGapBelow(t, d, 0.0); }
  }

  /** `x` lies between `a` and `b`, in either order. */
  predicate Between(x: real, a: real, b: real) {
    Min(a, b) <= x <= Max(a, b)
  }

  /** Every point `t` of the way from `p1` to `p2`, `t` in [0,1], lies between them on each axis. */
  lemma SegmentBetween(p1: Point3, p2: Point3, t: real)
    requires 0.0 <= t <= 1.0
    ensures var q := Add(p1, Scale(t, Sub(p2, p1)));
      Between(q.x, p1.x, p2.x) && Between(q.y, p1.y, p2.y) && Between(q.z, p1.z, p2.z)
  {
    AxisBetween(p1.x, p2.x, t);
    AxisBetween(p1.y, p2.y, t);
    AxisBetween(p1.z, p2.z, t);
  }

  lemma AxisBetween(a: real, b: real, t: real)
    requires 0.0 <= t <= 1.0
    ensures Between(a + t * (b - a), a, b)
  {
    BetweenEnds(a, b - a, t);
    assert a + (b - a) == b;
  }

  /** The union of two spans holds everything between a point of the first and a point of the second. */
  lemma SpanUnionCovers(s1: Span, s2: Span, a: real, b: real, x: real)
    requires s1.Holds(a) && s2.Holds(b) && Between(x, a, b)
    ensures SpanUnion(s1, s2).Holds(x)
  {
  }

  /** The union of two boxes holds the segment between a point of the first and a point of the second. */
  lemma BoxUnionCovers(b1: Aabb, b2: Aabb, p1: Point3, p2: Point3, t: real)
    requires b1.Holds(p1) && b2.Holds(p2) && 0.0 <= t <= 1.0
    ensures BoxUnion(b1, b2).Holds(Add(p1, Scale(t, Sub(p2, p1))))
  {
    var q := Add(p1, Scale(t, Sub(p2, p1)));
    SegmentBetween(p1, p2, t);
    SpanUnionCovers(b1.x, b2.x, p1.x, p2.x, q.x);
    SpanUnionCovers(b1.y, b2.y, p1.y, p2.y, q.y);
    SpanUnionCovers(b1.z, b2.z, p1.z, p2.z, q.z);
  }

  /** A ball's box holds its centre, whatever the sign of the radius. */
  lemma BallBoxHoldsCentre(c: Point3, r: real)
    ensures BallBox(c, r).Holds(c)
  {
  }

  /** The moving box is, axis by axis, the union of the two end spans of half-width |r|. */
  lemma MovingBoxShape(c1: Point3, c2: Point3, r: real, m: Material)
    ensures Moving(c1, c2, r, m).bbox ==
      Aabb(SpanUnion(Span(c1.x - Abs(r), c1.x + Abs(r)), Span(c2.x - Abs(r), c2.x + Abs(r))),
           SpanUnion(Span(c1.y - Abs(r), c1.y + Abs(r)), Span(c2.y - Abs(r), c2.y + Abs(r))),
           SpanUnion(Span(c1.z - Abs(r), c1.z + Abs(r)), Span(c2.z - Abs(r), c2.z + Abs(r))))
  {
    StationaryBox(c1, r, m);
    StationaryBox(c2, r, m);
  }

  /**
   * The box of a moving sphere holds the centre at every time of the
   * shutter interval, both ends included, whatever the sign of the radius.
   */
  lemma MovingBoxCoversPath(c1: Point3, c2: Point3, r: real, m: Material, time: real)
    requires 0.0 <= time <= 1.0
    ensures Moving(c1, c2, r, m).bbox.Holds(SphereCenter(Moving(c1, c2, r, m), time))
  {
    BallBoxHoldsCentre(c1, r);
    BallBoxHoldsCentre(c2, r);
    BoxUnionCovers(BallBox(c1, r), BallBox(c2, r), c1, c2, time);
  }



  /** The coefficients `a`, `half_b`, `c` of the ray-sphere quadratic. */
  datatype Quadratic = Quadratic(a: real, halfB: real, c: real) {
    function Discriminant(): real { halfB * halfB - a * c }
    /** The quadratic's value at `t`: `a t^2 + 2 half_b t + c`. */
    function ValueAt(t: real): real { a * (t * t) + 2.0 * halfB * t + c }
  }

  /** The quadratic in `t` whose roots are where the ray meets the sphere; its leading coefficient is never negative. */
  function Coefficients(s: Sphere, r: Ray): (q: Quadratic)
    ensures q.a >= 0.0
  {
    var oc := Sub(r.origin, CenterAt(s, r.time));
    Quadratic(LengthSquared(r.direction), Dot(oc, r.direction), LengthSquared(oc) - s.radius * s.radius)
  }

  /** `(-half_b - sqrtd) / a` */
  function NearRoot(q: Quadratic, sqrtd: real): real
    requires q.a != 0.0
  {
    (-q.halfB - sqrtd) / q.a
  }

  /** `(-half_b + sqrtd) / a` */
  function FarRoot(q: Quadratic, sqrtd: real): real
    requires q.a != 0.0
  {
    (-q.halfB + sqrtd) / q.a
  }

  /** Squaring a sum of two reals. */
  lemma SquareOfSum(x: real, y: real)
    ensures (x + y) * (x + y) == x * x + 2.0 * x * y + y * y
  {
  }

  /** The squared distance between a point of the ray and the centre, per axis: a quadratic in `t`. */
  lemma AxisAlongRay(o: real, d: real, t: real)
    ensures (o + t * d) * (o + t * d) == d * d * (t * t) + 2.0 * (o * d) * t + o * o
  {
    SquareOfSum(o, t * d);
  }

  /**
   * The quadratic is the sphere's equation along the ray: at every `t` it is
   * the squared distance from the point `r.at(t)` to the centre less the
   * squared radius.
   */
  lemma QuadraticAlongRay(s: Sphere, r: Ray, t: real)
    ensures var q := Coefficients(s, r);
      LengthSquared(Sub(r.At(t), CenterAt(s, r.time))) - s.radius * s.radius == q.ValueAt(t)
  {
    var oc := Sub(r.origin, CenterAt(s, r.time));
    assert Sub(r.At(t), CenterAt(s, r.time)) == Add(oc, Scale(t, r.direction));
    SquaredLengthAlongRay(oc, r.direction, t);
  }

  /** `|o + t d|^2 == |d|^2 t^2 + 2 (o . d) t + |o|^2`. */
  lemma SquaredLengthAlongRay(o: Vec3, d: Vec3, t: real)
    ensures LengthSquared(Add(o, Scale(t, d))) == LengthSquared(d) * (t * t) + 2.0 * Dot(o, d) * t + LengthSquared(o)
  {
    var tt := t * t;
    AxisAlongRay(o.x, d.x, t);
    AxisAlongRay(o.y, d.y, t);
    AxisAlongRay(o.z, d.z, t);
    assert LengthSquared(d) * tt == d.x * d.x * tt + d.y * d.y * tt + d.z * d.z * tt;
    assert 2.0 * Dot(o, d) * t == 2.0 * (o.x * d.x) * t + 2.0 * (o.y * d.y) * t + 2.0 * (o.z * d.z) * t;
  }

  /** `t * a` recovers the numerator of `t = e / a`. */
  lemma TimesDivisor(e: real, a: real)
    requires a != 0.0
    ensures (e / a) * a == e
  {
  }

  /**
   * With `sqrtd` a true square root of the discriminant, both roots solve
   * the quadratic `a t^2 + 2 half_b t + c == 0`.
   */
  lemma RootsSolveQuadratic(q: Quadratic, sqrtd: real)
    requires q.a != 0.0 && sqrtd * sqrtd == q.Discriminant()
    ensures q.ValueAt(NearRoot(q, sqrtd)) == 0.0
    ensures q.ValueAt(FarRoot(q, sqrtd)) == 0.0
  {
    RootSolves(q, -q.halfB - sqrtd, sqrtd);
    RootSolves(q, -q.halfB + sqrtd, sqrtd);
  }

  lemma RootSolves(q: Quadratic, e: real, sqrtd: real)
    requires q.a != 0.0 && sqrtd * sqrtd == q.Discriminant()
    requires e == -q.halfB - sqrtd || e == -q.halfB + sqrtd
    ensures q.ValueAt(e / q.a) == 0.0
  {
    var a, h, t := q.a, q.halfB, e / q.a;
    TimesDivisor(e, a);
    var v := a * (t * t) + 2.0 * h * t + q.c;
    assert a * v == (t * a) * (t * a) + 2.0 * h * (t * a) + a * q.c;
    assert (e + h) * (e + h) == sqrtd * sqrtd;
    assert a * v == 0.0;
  }

  /**
   * The root `hit` settles on, or `None` for a miss. A zero `a` (a ray with
   * a zero direction) makes the source divide by zero; the quotients are
   * then infinite or not a number, which no interval surrounds, so it is a
   * miss.
   */
  function ChooseRoot(s: Sphere, r: Ray, rayT: Interval, num: Numerics): (t: Option<real>)
    ensures t.Some? ==> rayT.Surrounds(t.value)
  {
    var q := Coefficients(s, r);
    if q.Discriminant() < 0.0 || q.a == 0.0 then None
    else
      var sqrtd := num.sqrt(q.Discriminant());
      if rayT.Surrounds(NearRoot(q, sqrtd)) then Some(NearRoot(q, sqrtd))
      else if rayT.Surrounds(FarRoot(q, sqrtd)) then Some(FarRoot(q, sqrtd))
      else None
  }

  /**
   * The cases of the root choice: no real root is a miss; otherwise the
   * near root when the window surrounds it, else the far root when the
   * window surrounds that, else a miss.
   */
  lemma ChooseRootCases(s: Sphere, r: Ray, rayT: Interval, num: Numerics)
    ensures Coefficients(s, r).Discriminant() < 0.0 ==> ChooseRoot(s, r, rayT, num).None?
    ensures Coefficients(s, r).a == 0.0 ==> ChooseRoot(s, r, rayT, num).None?
    ensures var q := Coefficients(s, r);
      q.a != 0.0 && q.Discriminant() >= 0.0 ==>
        var t := ChooseRoot(s, r, rayT, num);
        var near := NearRoot(q, num.sqrt(q.Discriminant()));
        var far := FarRoot(q, num.sqrt(q.Discriminant()));
        (rayT.Surrounds(near) ==> t == Some(near)) &&
        (!rayT.Surrounds(near) && rayT.Surrounds(far) ==> t == Some(far)) &&
        (!rayT.Surrounds(near) && !rayT.Surrounds(far) ==> t.None?)
  {
  }

  lemma DivideMonotone(x: real, y: real, a: real)
    requires x <= y && a > 0.0
    ensures x / a <= y / a
  {
  }

  /**
   * With a square root that is never negative, the near root is the
   * smaller one, so a hit is the closest intersection inside the window.
   */
  lemma ChosenRootIsNearest(s: Sphere, r: Ray, rayT: Interval, num: Numerics)
    requires var q := Coefficients(s, r); q.Discriminant() >= 0.0 ==> num.sqrt(q.Discriminant()) >= 0.0
    ensures var q := Coefficients(s, r);
      ChooseRoot(s, r, rayT, num).Some? ==>
        q.a > 0.0 && q.Discriminant() >= 0.0 &&
        var near := NearRoot(q, num.sqrt(q.Discriminant()));
        var far := FarRoot(q, num.sqrt(q.Discriminant()));
        ChooseRoot(s, r, rayT, num).value <= far &&
        (rayT.Surrounds(near) ==> ChooseRoot(s, r, rayT, num).value <= near)
  {
    var q := Coefficients(s, r);
    if ChooseRoot(s, r, rayT, num).Some? {
      assert q.a >= 0.0;
      var sqrtd := num.sqrt(q.Discriminant());
      var x := -q.halfB - sqrtd;
      var y := -q.halfB + sqrtd;
      DivideMonotone(x, y, q.a);
    }
  }

  /**
   * Given a true square root, the point at a reported root lies on the
   * sphere: its distance from the centre at the ray's time is the radius.
   */
  lemma HitPointOnSphere(s: Sphere, r: Ray, rayT: Interval, num: Numerics)
    requires var q := Coefficients(s, r); q.Discriminant() >= 0.0 ==> num.sqrt(q.Discriminant()) * num.sqrt(q.Discriminant()) == q.Discriminant()
    requires ChooseRoot(s, r, rayT, num).Some?
    ensures LengthSquared(Sub(r.At(ChooseRoot(s, r, rayT, num).value), CenterAt(s, r.time))) == s.radius * s.radius
  {
    var q := Coefficients(s, r);
    var sqrtd := num.sqrt(q.Discriminant());
    var t := ChooseRoot(s, r, rayT, num).value;
    ChooseRootCases(s, r, rayT, num);
    assert q.a != 0.0 && q.Discriminant() >= 0.0;
    assert t == NearRoot(q, sqrtd) || t == FarRoot(q, sqrtd);
    RootsSolveQuadratic(q, sqrtd);
    assert q.ValueAt(t) == 0.0;
    QuadraticAlongRay(s, r, t);
  }


  /** `(rec.p - center) / radius`: the outward normal at a point on the surface. */
  function OutwardNormal(s: Sphere, time: real, p: Point3): Vec3
    requires s.radius != 0.0
  {
    Scale(1.0 / s.radius, Sub(p, CenterAt(s, time)))
  }

  /** At a point on the surface the outward normal has unit length, whatever the sign of the radius. */
  lemma OutwardNormalIsUnit(s: Sphere, time: real, p: Point3)
    requires s.radius != 0.0
    requires LengthSquared(Sub(p, CenterAt(s, time))) == s.radius * s.radius
    ensures LengthSquared(OutwardNormal(s, time, p)) == 1.0
  {
    var k := 1.0 / s.radius;
    var v := Sub(p, CenterAt(s, time));
    assert LengthSquared(Scale(k, v)) == (k * k) * LengthSquared(v);
    assert (k * k) * (s.radius * s.radius) == (k * s.radius) * (k * s.radius);
  }

  /**
   * `sphere::hit`: on a miss the record is left untouched; on a hit it gets
   * the chosen root, the point there, the sphere's material and the normal
   * oriented against the ray, and keeps its surface coordinates.
   */
  method Hit(s: Sphere, r: Ray, rayT: Interval, num: Numerics, rec: HitRecord<Material>) returns (hit: bool)
    requires s.radius != 0.0
    modifies rec
    ensures hit <==> ChooseRoot(s, r, rayT, num).Some?
    ensures !hit ==> unchanged(rec)
    ensures hit ==> rec.t == ChooseRoot(s, r, rayT, num).value && rayT.Surrounds(rec.t)
    ensures hit ==> rec.p == r.At(rec.t) && rec.mat == Some(s.mat)
    ensures hit ==> (rec.frontFace, rec.normal) == FaceNormal(r.direction, OutwardNormal(s, r.time, rec.p))
    ensures rec.u == old(rec.u) && rec.v == old(rec.v)
  {
    var center := if s.isMoving then SphereCenter(s, r.time) else s.center1;
    var oc := Sub(r.origin, center);
    var a := LengthSquared(r.direction);
    var halfB := Dot(oc, r.direction);
    var c := LengthSquared(oc) - s.radius * s.radius;
    var discriminant := halfB * halfB - a * c;
    ghost var q := Coefficients(s, r);
    assert q == Quadratic(a, halfB, c) && discriminant == q.Discriminant();

    if discriminant < 0.0 {
      assert ChooseRoot(s, r, rayT, num).None?;
      return false;
    }
    if a == 0.0 {
      assert ChooseRoot(s, r, rayT, num).None?;
      return false;
    }
    var sqrtd := num.sqrt(discriminant);
    var root := (-halfB - sqrtd) / a;
    assert root == NearRoot(q, sqrtd);
    if !rayT.Surrounds(root) {
      root := (-halfB + sqrtd) / a;
      assert root == FarRoot(q, sqrtd);
      if !rayT.Surrounds(root) {
        assert ChooseRoot(s, r, rayT, num).None?;
        return false;
      }
    }
    assert ChooseRoot(s, r, rayT, num) == Some(root);

    rec.t := root;
    rec.p := r.At(rec.t);
    var outwardNormal := Scale(1.0 / s.radius, Sub(rec.p, center));
    rec.SetFaceNormal(r, outwardNormal);
    rec.mat := Some(s.mat);
    return true;
  }
}
