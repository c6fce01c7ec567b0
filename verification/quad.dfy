/**
 * Quadrilaterals: a corner `q` and two edge vectors `u`, `v`, together with
 * the plane through them. The intersection test is against that plane: a ray
 * nearly parallel to it misses, and otherwise it hits wherever the plane
 * crossing lies within the closed ray window. There is no test that the
 * crossing lies inside the parallelogram itself.
 */
module Quads {
  import opened Geometry
  import opened Hittable
  import opened Materials

  /** Below this |dot(normal, direction)| a ray counts as parallel to the plane. */
  const ParallelEpsilon: real := 0.00000001

  /** `n . (o + t d) == n . o + t (n . d)`: the plane equation is affine along a ray. */
  lemma DotAlongRay(n: Vec3, o: Vec3, dir: Vec3, t: real)
    ensures Dot(n, Add(o, Scale(t, dir))) == Dot(n, o) + t * Dot(n, dir)
  {
  }

  lemma QuotientTimesDivisor(x: real, y: real)
    requires y != 0.0
    ensures (x / y) * y == x
  {
  }

  /** A padded box around two corners holds both corners and is at least `PadDelta` wide on every axis. */
  lemma PaddedBoxOfCorners(a: Point3, b: Point3)
    ensures Pad(BoxOf(a, b)).Holds(a) && Pad(BoxOf(a, b)).Holds(b)
    ensures var box := Pad(BoxOf(a, b));
      box.x.hi - box.x.lo >= PadDelta && box.y.hi - box.y.lo >= PadDelta && box.z.hi - box.z.lo >= PadDelta
  {
  }

  class Quad {
    const q: Point3
    const u: Vec3
    const v: Vec3
    const mat: Material
    /** The unit normal of the plane, `unit_vector(cross(u, v))`. */
    const normal: Vec3
    /** The plane's offset: the plane is every point `p` with `dot(normal, p) == d`. */
    const d: real
    var bbox: Aabb

    /** `quad(Q, u, v, m)`: the plane through `Q` spanned by `u` and `v`, and its padded box. */
    constructor (q0: Point3, u0: Vec3, v0: Vec3, m: Material, num: Numerics)
      ensures q == q0 && u == u0 && v == v0 && mat == m
      ensures normal == num.unitVector(Cross(u0, v0))
      ensures Dot(normal, q) == d
      ensures bbox == Pad(BoxOf(q, Add(Add(q, u), v)))
    {
      q, u, v, mat := q0, u0, v0, m;
      var n := Cross(u0, v0);
      normal := num.unitVector(n);
      d := Dot(num.unitVector(n), q0);
      new;
      SetBoundingBox();
    }

    /** `set_bounding_box`: the padded box with corners `Q` and `Q + u + v`. */
    method SetBoundingBox()
      modifies this
      ensures bbox == Pad(BoxOf(q, Add(Add(q, u), v)))
      ensures bbox.Holds(q) && bbox.Holds(Add(Add(q, u), v))
    {
      bbox := Pad(BoxOf(q, Add(Add(q, u), v)));
      PaddedBoxOfCorners(q, Add(Add(q, u), v));
    }

    /**
     * The ray parameter at which `hit` reports a hit, or `None`: rays
     * within `ParallelEpsilon` of parallel miss, as do crossings outside the
     * closed window; every other crossing of the plane is a hit.
     */
    function PlaneHit(r: Ray, rayT: Interval): (t: Option<real>)
      ensures Abs(Dot(normal, r.direction)) < ParallelEpsilon ==> t.None?
      ensures t.Some? ==> rayT.Contains(t.value)
      ensures t.Some? ==> t.value * Dot(normal, r.direction) == d - Dot(normal, r.origin)
      ensures (Abs(Dot(normal, r.direction)) >= ParallelEpsilon &&
               rayT.Contains((d - Dot(normal, r.origin)) / Dot(normal, r.direction))) ==> t.Some?
    {
      var denom := Dot(normal, r.direction);
      if Abs(denom) < ParallelEpsilon then None
      else
        var t := (d - Dot(normal, r.origin)) / denom;
        QuotientTimesDivisor(d - Dot(normal, r.origin), denom);
        if rayT.Contains(t) then Some(t) else None
    }

    /** Every reported hit point lies on the quad's plane. */
    lemma HitPointOnPlane(r: Ray, rayT: Interval)
      requires PlaneHit(r, rayT).Some?
      ensures Dot(normal, r.At(PlaneHit(r, rayT).value)) == d
    {
      DotAlongRay(normal, r.origin, r.direction, PlaneHit(r, rayT).value);
    }

    /**
     * `quad::hit`: both misses leave the record untouched; a hit stores the
     * plane crossing, the point there, the quad's material and the plane
     * normal turned against the ray, and keeps the surface coordinates.
     */
    method Hit(r: Ray, rayT: Interval, rec: HitRecord<Material>) returns (hit: bool)
      modifies rec
      ensures hit <==> PlaneHit(r, rayT).Some?
      ensures !hit ==> unchanged(rec)
      ensures hit ==> rec.t == PlaneHit(r, rayT).value && rayT.Contains(rec.t)
      ensures hit ==> rec.p == r.At(rec.t) && rec.mat == Some(mat)
      ensures hit ==> (rec.frontFace, rec.normal) == FaceNormal(r.direction, normal)
      ensures rec.u == old(rec.u) && rec.v == old(rec.v)
    {
      var denom := Dot(normal, r.direction);
      if Abs(denom) < ParallelEpsilon {
        return false;
      }
      var t := (d - Dot(normal, r.origin)) / denom;
      if !rayT.Contains(t) {
        return false;
      }
      var intersection := r.At(t);
      rec.t := t;
      rec.p := intersection;
      rec.mat := Some(mat);
      rec.SetFaceNormal(r, normal);
      return true;
    }
  }
}
