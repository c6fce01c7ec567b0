/**
 * Materials: how a surface emits light, and whether and how it scatters an
 * incoming ray. Each `scatter` writes its two out-parameters (attenuation
 * and scattered ray) and returns whether the ray goes on; here the result
 * carries the flag and the two out-parameters, `None` for one the variant
 * leaves unwritten. The random draws a call consumes are inputs.
 */
module Materials {
  import opened Geometry
  import opened Common
  import opened Textures
  import opened Hittable

  type PositiveReal = x: real | x > 0.0 witness 1.0

  datatype Material =
    | Lambertian(albedo: Texture)
    | Metal(metalAlbedo: Color, fuzz: real)
    | Dielectric(ir: PositiveReal)
    | DiffuseLight(emit: Texture)

  /** `lambertian(const color&)`: a diffuse surface of one colour. */
  function LambertianOfColor(a: Color): (m: Material)
    ensures m.Lambertian? && forall u: real, v: real, p: Point3 :: Value(m.albedo, u, v, p) == a
  {
    Lambertian(SolidColor(a))
  }

  /** `diffuse_light(color)`: a light of one colour. */
  function DiffuseLightOfColor(c: Color): (m: Material)
    ensures m.DiffuseLight? && forall u: real, v: real, p: Point3 :: Value(m.emit, u, v, p) == c
  {
    DiffuseLight(SolidColor(c))
  }

  /** `metal(a, f)`: the fuzz is capped at 1. */
  function NewMetal(a: Color, f: real): (m: Material)
    ensures m.Metal? && m.metalAlbedo == a
    ensures m.fuzz <= 1.0
    ensures f < 1.0 ==> m.fuzz == f
    ensures f >= 1.0 ==> m.fuzz == 1.0
  {
    Metal(a, if f < 1.0 then f else 1.0)
  }

  /** The random values one `scatter` may consume. */
  datatype ScatterDraws = ScatterDraws(
    unitVector: Vec3,    // random_unit_vector()
    inUnitSphere: Vec3,  // random_in_unit_sphere()
    unit: real)          // random_double(), in [0,1)

  /** The result flag and the two out-parameters of `scatter`; `None` when left unwritten. */
  datatype Scattering = Scattering(scatters: bool, attenuation: Option<Color>, scattered: Option<Ray>)

  /** `emitted(u, v, p)`: black unless the material is a light. */
  function Emitted(m: Material, u: real, v: real, p: Point3): (c: Color)
    ensures !m.DiffuseLight? ==> c == Black
    ensures m.DiffuseLight? ==> c == Value(m.emit, u, v, p)
  {
    match m
    case DiffuseLight(emit) => Value(emit, u, v, p)
    case _ => Black
  }

  /** The refraction ratio: `1/ir` entering the surface, `ir` leaving it. */
  function RefractionRatio(ir: PositiveReal, frontFace: bool): (ratio: PositiveReal)
    ensures frontFace ==> ratio * ir == 1.0
    ensures !frontFace ==> ratio == ir
  {
    if frontFace then 1.0 / ir else ir
  }

  /** `fmin(dot(-unit_direction, normal), 1.0)`. */
  function CosTheta(unitDirection: Vec3, normal: Vec3): (c: real)
    ensures c <= 1.0
    ensures c == 1.0 || c == Dot(Neg(unitDirection), normal)
    ensures c == Dot(Neg(unitDirection), normal) <==> Dot(Neg(unitDirection), normal) <= 1.0
  {
    Min(Dot(Neg(unitDirection), normal), 1.0)
  }

  /** `pow(x, n)` for a natural exponent: `n` factors of `x`. */
  function Pow(x: real, n: nat): real {
    if n == 0 then 1.0 else x * Pow(x, n - 1)
  }

  /** Schlick's approximation of the reflectance at incidence cosine `cosine`. */
  function Reflectance(cosine: real, refIdx: real): real
    requires refIdx != -1.0
  {
    var r0 := (1.0 - refIdx) / (1.0 + refIdx);
    var r0 := r0 * r0;
    r0 + Portion(1.0 - r0, Pow(1.0 - cosine, 5))
  }

  /**
   * At normal incidence the reflectance is the squared Fresnel term
   * `((1-idx)/(1+idx))^2`; at grazing incidence it is total.
   */
  lemma ReflectanceAtEnds(refIdx: real)
    requires refIdx != -1.0
    ensures var r0 := (1.0 - refIdx) / (1.0 + refIdx); Reflectance(1.0, refIdx) == r0 * r0
    ensures Reflectance(0.0, refIdx) == 1.0
  {
    assert Pow(0.0, 5) == 0.0;
    assert Pow(1.0, 5) == 1.0;
  }

  /**
   * For a positive index (every refraction ratio is one), the reflectance of
   * any incidence between grazing and normal is a probability, at least `r0`.
   */
  lemma ReflectanceIsProbability(cosine: real, refIdx: real)
    requires refIdx > 0.0 && 0.0 <= cosine <= 1.0
    ensures var r0 := (1.0 - refIdx) / (1.0 + refIdx);
      r0 * r0 <= Reflectance(cosine, refIdx) <= 1.0
  {
    var r0 := (1.0 - refIdx) / (1.0 + refIdx);
    FresnelBelowOne(refIdx, r0);
    var s := r0 * r0;
    var p := Pow(1.0 - cosine, 5);
    PowUnit(1.0 - cosine, 5);
    UnitScale(1.0 - s, p);
    assert Reflectance(cosine, refIdx) == s + Portion(1.0 - s, p);
  }

  /** For a positive index the normal-incidence term `((1-idx)/(1+idx))^2` lies in [0,1). */
  lemma FresnelBelowOne(refIdx: real, r0: real)
    requires refIdx > 0.0 && r0 == (1.0 - refIdx) / (1.0 + refIdx)
    ensures 0.0 <= r0 * r0 < 1.0
  {
    assert r0 * (1.0 + refIdx) == 1.0 - refIdx;
    assert -1.0 < r0 < 1.0;
    if r0 >= 0.0 {
      assert r0 * r0 <= r0 * 1.0 by { ScaleMonotone(r0, r0, 1.0); }
    } else {
      var e := -r0;
      assert e * e <= e * 1.0 by { ScaleMonotone(e, e, 1.0); }
      assert r0 * r0 == e * e;
    }
  }

  /** Scaling a non-negative `k` by a factor in [0,1] gives a value in [0,k]. */
  lemma UnitScale(k: real, p: real)
    requires 0.0 <= k && 0.0 <= p <= 1.0
    ensures 0.0 <= Portion(k, p) <= k
  {
    assert k * p <= k * 1.0 by { ScaleMonotone(k, p, 1.0); }
    assert k * 0.0 <= k * p by { ScaleMonotone(k, 0.0, p); }
  }

  /** Every power of a number in [0,1] stays in [0,1]. */
  lemma {:induction false} PowUnit(x: real, n: nat)
    requires 0.0 <= x <= 1.0
    ensures 0.0 <= Pow(x, n) <= 1.0
  {
    if n > 0 {
      PowUnit(x, n - 1);
      var q := Pow(x, n - 1);
      assert x * q <= x * 1.0 by { ScaleMonotone(x, q, 1.0); }
      assert x * 0.0 <= x * q by { ScaleMonotone(x, 0.0, q); }
    }
  }

  /** The unit incoming direction and the incidence angle that `dielectric::scatter` works with. */
  function UnitIn(rIn: Ray, num: Numerics): Vec3 { num.unitVector(rIn.direction) }

  function SinTheta(cosTheta: real, num: Numerics): real { num.sqrt(1.0 - cosTheta * cosTheta) }

  /** Snell's law has no solution: the ray is totally reflected. */
  predicate CannotRefract(ir: PositiveReal, rIn: Ray, rec: Hit<Material>, num: Numerics) {
    var cosTheta := CosTheta(UnitIn(rIn, num), rec.normal);
    RefractionRatio(ir, rec.frontFace) * SinTheta(cosTheta, num) > 1.0
  }

  /**
   * The direction a dielectric sends the ray: always the reflection under
   * total internal reflection, otherwise the refraction unless the draw falls
   * below Schlick's reflectance.
   */
  function DielectricDirection(ir: PositiveReal, rIn: Ray, rec: Hit<Material>, draw: real, num: Numerics): (d: Vec3)
    ensures d == Reflect(UnitIn(rIn, num), rec.normal) ||
            d == num.refract(UnitIn(rIn, num), rec.normal, RefractionRatio(ir, rec.frontFace))
    ensures CannotRefract(ir, rIn, rec, num) ==> d == Reflect(UnitIn(rIn, num), rec.normal)
    ensures Reflectance(CosTheta(UnitIn(rIn, num), rec.normal), RefractionRatio(ir, rec.frontFace)) > draw ==>
      d == Reflect(UnitIn(rIn, num), rec.normal)
    ensures !CannotRefract(ir, rIn, rec, num) && Reflectance(CosTheta(UnitIn(rIn, num), rec.normal), RefractionRatio(ir, rec.frontFace)) <= draw ==>
      d == num.refract(UnitIn(rIn, num), rec.normal, RefractionRatio(ir, rec.frontFace))
  {
    var ratio := RefractionRatio(ir, rec.frontFace);
    var unitDirection := UnitIn(rIn, num);
    var cosTheta := CosTheta(unitDirection, rec.normal);
    if CannotRefract(ir, rIn, rec, num) || Reflectance(cosTheta, ratio) > draw
    then Reflect(unitDirection, rec.normal)
    else num.refract(unitDirection, rec.normal, ratio)
  }

  /** `scatter(r_in, rec, attenuation, scattered)` of each variant. */
  function Scatter(m: Material, rIn: Ray, rec: Hit<Material>, d: ScatterDraws, num: Numerics): (s: Scattering)
    ensures m.DiffuseLight? <==> s.scattered.None?
    ensures m.DiffuseLight? <==> s.attenuation.None?
    ensures s.scatters <==> m.Lambertian? || m.Dielectric? || (m.Metal? && Dot(s.scattered.value.direction, rec.normal) > 0.0)
    ensures s.scattered.Some? ==> s.scattered.value.origin == rec.p && s.scattered.value.time == rIn.time
    ensures m.Lambertian? ==> s.attenuation == Some(Value(m.albedo, rec.u, rec.v, rec.p))
    ensures m.Metal? ==> s.attenuation == Some(m.metalAlbedo)
    ensures m.Dielectric? ==> s.attenuation == Some(Vec3(1.0, 1.0, 1.0))
    ensures m.Lambertian? && !NearZero(Add(rec.normal, d.unitVector)) ==>
      s.scattered.value.direction == Add(rec.normal, d.unitVector)
    ensures m.Lambertian? && NearZero(Add(rec.normal, d.unitVector)) ==> s.scattered.value.direction == rec.normal
    ensures m.Metal? ==>
      s.scattered.value.direction == Add(Reflect(num.unitVector(rIn.direction), rec.normal), Scale(m.fuzz, d.inUnitSphere))
    ensures m.Dielectric? ==> s.scattered.value.direction == DielectricDirection(m.ir, rIn, rec, d.unit, num)
  {
    match m
    case Lambertian(albedo) =>
      var direction := Add(rec.normal, d.unitVector);
      var direction := if NearZero(direction) then rec.normal else direction;
      Scattering(true, Some(Value(albedo, rec.u, rec.v, rec.p)), Some(Ray(rec.p, direction, rIn.time)))
    case Metal(albedo, fuzz) =>
      var reflected := Reflect(num.unitVector(rIn.direction), rec.normal);
      var scattered := Ray(rec.p, Add(reflected, Scale(fuzz, d.inUnitSphere)), rIn.time);
      Scattering(Dot(scattered.direction, rec.normal) > 0.0, Some(albedo), Some(scattered))
    case Dielectric(ir) =>
      Scattering(true, Some(Vec3(1.0, 1.0, 1.0)), Some(Ray(rec.p, DielectricDirection(ir, rIn, rec, d.unit, num), rIn.time)))
    case DiffuseLight(_) =>
      Scattering(false, None, None)
  }

  /**
   * A Lambertian surface sends the ray off along the normal plus a random
   * unit vector, falling back to the normal itself when that sum nearly
   * vanishes, so its direction is degenerate only when the normal is.
   */
  lemma LambertianDirection(albedo: Texture, rIn: Ray, rec: Hit<Material>, d: ScatterDraws, num: Numerics)
    ensures var dir := Scatter(Lambertian(albedo), rIn, rec, d, num).scattered.value.direction;
      (!NearZero(Add(rec.normal, d.unitVector)) ==> dir == Add(rec.normal, d.unitVector)) &&
      (NearZero(Add(rec.normal, d.unitVector)) ==> dir == rec.normal) &&
      (NearZero(dir) ==> NearZero(rec.normal))
  {
  }

  /** Reflection about a unit normal reverses the normal component: `dot(reflect(v, n), n) == -dot(v, n)`. */
  lemma ReflectAgainstUnitNormal(v: Vec3, n: Vec3)
    requires Dot(n, n) == 1.0
    ensures Dot(Reflect(v, n), n) == -Dot(v, n)
  {
    var k := 2.0 * Dot(v, n);
    assert Dot(Reflect(v, n), n) == Dot(v, n) - k * Dot(n, n);
  }

  /**
   * A perfect mirror (no fuzz) scatters exactly the rays that arrive
   * against its unit normal.
   */
  lemma MirrorScattersIncomingRays(albedo: Color, rIn: Ray, rec: Hit<Material>, d: ScatterDraws, num: Numerics)
    requires Dot(rec.normal, rec.normal) == 1.0
    ensures Scatter(Metal(albedo, 0.0), rIn, rec, d, num).scatters <==> Dot(num.unitVector(rIn.direction), rec.normal) < 0.0
  {
    ReflectAgainstUnitNormal(num.unitVector(rIn.direction), rec.normal);
    assert Scale(0.0, d.inUnitSphere) == Zero;
  }

  /**
   * Under total internal reflection a dielectric always reflects, whatever
   * the random draw; otherwise the draw decides between the two.
   */
  lemma TotalInternalReflection(ir: PositiveReal, rIn: Ray, rec: Hit<Material>, d: ScatterDraws, d': ScatterDraws, num: Numerics)
    requires CannotRefract(ir, rIn, rec, num)
    ensures Scatter(Dielectric(ir), rIn, rec, d, num).scattered ==
      Some(Ray(rec.p, Reflect(num.unitVector(rIn.direction), rec.normal), rIn.time))
    ensures Scatter(Dielectric(ir), rIn, rec, d, num) == Scatter(Dielectric(ir), rIn, rec, d', num)
  {
  }
}
