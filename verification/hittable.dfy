/**
 * The hit-record protocol shared by every primitive: a record that a
 * successful intersection fills in, whose normal is always turned to face
 * the incoming ray, with a flag saying from which side the ray came.
 *
 * The record is generic in the material it points to, so that materials
 * (which read records) and records (which point to materials) need not
 * import each other.
 */
module Hittable {
  import opened Geometry

  /** The contents of a filled-in record, as a value. */
  datatype Hit<M> = Hit(p: Point3, normal: Vec3, mat: M, t: real, frontFace: bool, u: real, v: real)

  /**
   * The face-orientation rule: the ray arrives from the front when it runs
   * against the outward normal, and the stored normal is the outward one
   * then and its negation otherwise.
   */
  function FaceNormal(direction: Vec3, outwardNormal: Vec3): (r: (bool, Vec3))
    ensures r.0 <==> Dot(direction, outwardNormal) < 0.0
    ensures r.0 ==> r.1 == outwardNormal
    ensures !r.0 ==> r.1 == Neg(outwardNormal)
  {
    var frontFace := Dot(direction, outwardNormal) < 0.0;
    (frontFace, if frontFace then outwardNormal else Neg(outwardNormal))
  }

  /**
   * The stored normal never points along the ray: its dot product with the
   * direction is negative, or zero exactly when the ray grazes the surface.
   */
  lemma FaceNormalOpposesRay(direction: Vec3, outwardNormal: Vec3)
    ensures Dot(direction, FaceNormal(direction, outwardNormal).1) <= 0.0
    ensures Dot(direction, FaceNormal(direction, outwardNormal).1) == 0.0 <==> Dot(direction, outwardNormal) == 0.0
    ensures Dot(direction, FaceNormal(direction, outwardNormal).1) == -Abs(Dot(direction, outwardNormal))
  {
    assert Dot(direction, Neg(outwardNormal)) == -Dot(direction, outwardNormal);
  }

  /** `hit_record`: written field by field by the primitives' `hit`. */
  class HitRecord<M> {
    var p: Point3
    var normal: Vec3
    /** The material pointer; `None` until a primitive sets it. */
    var mat: Option<M>
    var t: real
    var frontFace: bool
    var u: real
    var v: real

    /** A fresh record, every number zero and no material. */
    constructor ()
      ensures p == Zero && normal == Zero && mat == None && t == 0.0 && !frontFace && u == 0.0 && v == 0.0
    {
      p, normal, mat, t, frontFace, u, v := Zero, Zero, None, 0.0, false, 0.0, 0.0;
    }

    /** `set_face_normal`: sets the side flag and the oriented normal, and nothing else. */
    method SetFaceNormal(r: Ray, outwardNormal: Vec3)
      modifies this
      ensures (frontFace, normal) == FaceNormal(r.direction, outwardNormal)
      ensures frontFace <==> Dot(r.direction, outwardNormal) < 0.0
      ensures Dot(r.direction, normal) <= 0.0
      ensures p == old(p) && mat == old(mat) && t == old(t) && u == old(u) && v == old(v)
    {
      frontFace := Dot(r.direction, outwardNormal) < 0.0;
      normal := if frontFace then outwardNormal else Neg(outwardNormal);
      FaceNormalOpposesRay(r.direction, outwardNormal);
    }
  }
}
