/**
 * The camera: its viewing parameters, the derived viewport frame, the
 * jittered primary rays, the depth-bounded path-tracing integrator and the
 * row-major render loop. The scene is any function answering a hit query,
 * and every random draw a sample consumes is an input. The render produces
 * the per-pixel sums of samples in the order the image is written.
 */
module Cameras {
  import opened Geometry
  import opened Common
  import opened Hittable
  import opened Materials

  /** The scene's answer to `world.hit(r, ray_t, rec)`: the filled-in record, or `None` for a miss. */
  type World = (Ray, Interval) -> Option<Hit<Material>>

  /** The window every bounce is tested against, `(0.001, infinity)`; the lower end avoids self-intersection. */
  const HitWindow: Interval := Interval(Finite(0.001), PosInf)

  /**
   * `ray_color(r, depth, world)`: black once the bounce budget is spent,
   * the background on a miss, the emission of a surface that does not
   * scatter, and otherwise the emission plus the attenuated colour of the
   * scattered ray with one bounce fewer. `bounces(k)` holds the draws of the
   * bounce made with `k` bounces left.
   */
  function RayColor(r: Ray, depth: int, world: World, background: Color, bounces: int -> ScatterDraws, num: Numerics): Color
    decreases depth
  {
    if depth <= 0 then Black
    else
      match world(r, HitWindow)
      case None => background
      case Some(rec) =>
        var emission := Emitted(rec.mat, rec.u, rec.v, rec.p);
        var s := Scatter(rec.mat, r, rec, bounces(depth), num);
        if !s.scatters then emission
        else Add(emission, Mul(s.attenuation.value, RayColor(s.scattered.value, depth - 1, world, background, bounces, num)))
  }

  /** With no bounces left the colour is black, whatever the scene holds. */
  lemma RayColorOutOfDepth(r: Ray, depth: int, world: World, world': World, background: Color, bounces: int -> ScatterDraws, num: Numerics)
    requires depth <= 0
    ensures RayColor(r, depth, world, background, bounces, num) == Black
    ensures RayColor(r, depth, world, background, bounces, num) == RayColor(r, depth, world', background, bounces, num)
  {
  }

  /**
   * The three ways a bounce with budget left can end: a miss gives the
   * background, a surface that does not scatter gives exactly its emission,
   * and one that does adds the attenuated colour of the next bounce.
   */
  lemma RayColorCases(r: Ray, depth: int, world: World, background: Color, bounces: int -> ScatterDraws, num: Numerics)
    requires depth > 0
    ensures world(r, HitWindow).None? ==> RayColor(r, depth, world, background, bounces, num) == background
    ensures world(r, HitWindow).Some? ==>
      var rec := world(r, HitWindow).value;
      var s := Scatter(rec.mat, r, rec, bounces(depth), num);
      (!s.scatters ==> RayColor(r, depth, world, background, bounces, num) == Emitted(rec.mat, rec.u, rec.v, rec.p)) &&
      (s.scatters ==>
         (s.attenuation.Some? && s.scattered.Some? &&
          RayColor(r, depth, world, background, bounces, num) ==
            Add(Emitted(rec.mat, rec.u, rec.v, rec.p), Mul(s.attenuation.value, RayColor(s.scattered.value, depth - 1, world, background, bounces, num)))))
  {
  }

  /** The two draw sequences give the ray the same colour. */
  predicate SameColor(r: Ray, depth: int, world: World, background: Color,
                      bounces: int -> ScatterDraws, bounces': int -> ScatterDraws, num: Numerics) {
    RayColor(r, depth, world, background, bounces, num) == RayColor(r, depth, world, background, bounces', num)
  }

  /** When the ray hits a surface that scatters it, the scattered ray gets the same colour under both draw sequences. */
  predicate NextBounceAgrees(r: Ray, depth: int, world: World, background: Color,
                             bounces: int -> ScatterDraws, bounces': int -> ScatterDraws, num: Numerics) {
    world(r, HitWindow).Some? ==>
      var rec := world(r, HitWindow).value;
      var s := Scatter(rec.mat, r, rec, bounces(depth), num);
      s.scatters ==> SameColor(s.scattered.value, depth - 1, world, background, bounces, bounces', num)
  }

  /**
   * One bounce of the recursion: with the same draws for this bounce, and
   * the same colour for the scattered ray when there is one, the colours
   * agree.
   */
  lemma SameBounce(r: Ray, depth: int, world: World, background: Color,
                   bounces: int -> ScatterDraws, bounces': int -> ScatterDraws, num: Numerics)
    requires depth > 0 && bounces(depth) == bounces'(depth)
    requires NextBounceAgrees(r, depth, world, background, bounces, bounces', num)
    ensures SameColor(r, depth, world, background, bounces, bounces', num)
  {
  }

  /** The two draw sequences agree on the bounces with 1..depth bounces left. */
  predicate AgreeUpTo(bounces: int -> ScatterDraws, bounces': int -> ScatterDraws, depth: int) {
    forall k :: 1 <= k <= depth ==> bounces(k) == bounces'(k)
  }

  /**
   * The recursion goes at most `depth` bounces deep: the colour depends only
   * on the draws of the bounces with 1..depth bounces left.
   */
  lemma {:induction false} RayColorUsesDepthDraws(r: Ray, depth: int, world: World, background: Color,
                                                 bounces: int -> ScatterDraws, bounces': int -> ScatterDraws, num: Numerics)
    requires AgreeUpTo(bounces, bounces', depth)
    ensures SameColor(r, depth, world, background, bounces, bounces', num)
    decreases depth
  {
    if depth > 0 {
      if world(r, HitWindow).Some? {
        var rec := world(r, HitWindow).value;
        var s := Scatter(rec.mat, r, rec, bounces(depth), num);
        if s.scatters {
          RayColorUsesDepthDraws(s.scattered.value, depth - 1, world, background, bounces, bounces', num);
        }
      }
      SameBounce(r, depth, world, background, bounces, bounces', num);
    }
  }

  /** A scene without lights, against a black background, renders black: all light comes from emitters. */
  lemma {:induction false} NoLightIsBlack(r: Ray, depth: int, world: World, bounces: int -> ScatterDraws, num: Numerics)
    requires forall r': Ray, t: Interval :: world(r', t).Some? ==> !world(r', t).value.mat.DiffuseLight?
    ensures RayColor(r, depth, world, Black, bounces, num) == Black
    decreases depth
  {
    if depth > 0 && world(r, HitWindow).Some? {
      var rec := world(r, HitWindow).value;
      var s := Scatter(rec.mat, r, rec, bounces(depth), num);
      if s.scatters {
        NoLightIsBlack(s.scattered.value, depth - 1, world, bounces, num);
      }
    }
  }

  /** `image_height`: the width over the aspect ratio, truncated toward zero, but at least 1. */
  function ImageHeight(imageWidth: int, aspectRatio: real): (h: int)
    requires aspectRatio != 0.0
    ensures h >= 1
    ensures TruncToInt(imageWidth as real / aspectRatio) >= 1 ==> h == TruncToInt(imageWidth as real / aspectRatio)
    ensures TruncToInt(imageWidth as real / aspectRatio) < 1 ==> h == 1
  {
    var h := TruncToInt(imageWidth as real / aspectRatio);
    if h < 1 then 1 else h
  }

  /** When the width is at least the aspect ratio the height is the whole part of width over ratio. */
  lemma ImageHeightIsWholePart(imageWidth: int, aspectRatio: real)
    requires aspectRatio > 0.0 && imageWidth as real >= aspectRatio
    ensures ImageHeight(imageWidth, aspectRatio) as real <= imageWidth as real / aspectRatio < ImageHeight(imageWidth, aspectRatio) as real + 1.0
  {
    QuotientAtLeastOne(imageWidth as real, aspectRatio);
  }

  lemma QuotientAtLeastOne(a: real, b: real)
    requires b > 0.0 && a >= b
    ensures a / b >= 1.0
  {
  }

  /** `-0.5 + random_double()`: a jitter offset, in pixel widths. */
  function JitterOffset(draw: real): (o: real)
    ensures 0.0 <= draw < 1.0 ==> -0.5 <= o < 0.5
    ensures o + 0.5 == draw
  {
    -0.5 + draw
  }

  /** The random values one sample of one pixel consumes. */
  datatype SampleDraws = SampleDraws(
    px: real, py: real,                // the two draws of pixel_sample_square
    disk: (real, real),                // random_in_unit_disk() of defocus_disk_sample
    time: real,                        // the ray's time
    bounces: int -> ScatterDraws)      // the draws of ray_color's bounces

  /** The camera's public parameters. */
  datatype Params = Params(
    aspectRatio: real,
    imageWidth: int,
    samplesPerPixel: int,
    maxDepth: int,
    background: Color,
    vfov: real,
    lookfrom: Point3,
    lookat: Point3,
    vup: Vec3,
    defocusAngle: real,
    focusDist: real)

  /** What `initialize` derives from the parameters. */
  datatype Frame = Frame(
    imageHeight: int,
    center: Point3,
    pixel00Loc: Point3,
    pixelDeltaU: Vec3,
    pixelDeltaV: Vec3,
    u: Vec3, v: Vec3, w: Vec3,
    defocusDiskU: Vec3,
    defocusDiskV: Vec3)

  /** The parameters `initialize` divides by are non-zero. */
  predicate Initializable(p: Params) {
    p.aspectRatio != 0.0 && p.imageWidth != 0
  }

  /** The viewport's height: twice the tangent of half the vertical field of view, at the focus distance. */
  function ViewportHeight(p: Params, num: Numerics): real {
    2.0 * num.tan(DegreesToRadians(p.vfov) / 2.0) * p.focusDist
  }

  /** The viewport's width: its height stretched by the image's actual width-to-height ratio. */
  function ViewportWidth(viewportHeight: real, imageWidth: int, imageHeight: int): real
    requires imageHeight != 0
  {
    viewportHeight * (imageWidth as real / imageHeight as real)
  }

  /**
   * The computation of `initialize`: the image height, the camera frame
   * `u, v, w`, the viewport spanned by `viewport_u` and `viewport_v` at the
   * focus distance in front of the camera, its pixel steps and first pixel
   * centre, and the defocus disk's two radii.
   */
  function Setup(p: Params, num: Numerics): (f: Frame)
    requires Initializable(p)
    ensures f.imageHeight == ImageHeight(p.imageWidth, p.aspectRatio) && f.imageHeight >= 1
    ensures f.center == p.lookfrom
  {
    var imageHeight := ImageHeight(p.imageWidth, p.aspectRatio);
    var center := p.lookfrom;
    var viewportHeight := ViewportHeight(p, num);
    var viewportWidth := ViewportWidth(viewportHeight, p.imageWidth, imageHeight);
    var w := num.unitVector(Sub(p.lookfrom, p.lookat));
    var u := num.unitVector(Cross(p.vup, w));
    var v := Cross(w, u);
    var viewportU := Scale(viewportWidth, u);
    var viewportV := Scale(viewportHeight, Neg(v));
    var pixelDeltaU := Scale(1.0 / p.imageWidth as real, viewportU);
    var pixelDeltaV := Scale(1.0 / imageHeight as real, viewportV);
    var viewportUpperLeft := Sub(Sub(Sub(center, Scale(p.focusDist, w)), Scale(1.0 / 2.0, viewportU)), Scale(1.0 / 2.0, viewportV));
    var pixel00Loc := Add(viewportUpperLeft, Scale(0.5, Add(pixelDeltaU, pixelDeltaV)));
    var defocusRadius := p.focusDist * num.tan(DegreesToRadians(p.defocusAngle / 2.0));
    Frame(imageHeight, center, pixel00Loc, pixelDeltaU, pixelDeltaV, u, v, w,
          Scale(defocusRadius, u), Scale(defocusRadius, v))
  }

  /** The point `a` pixel steps right and `b` pixel steps down from the first pixel centre. */
  function GridPoint(f: Frame, a: real, b: real): Point3 {
    Add(Add(f.pixel00Loc, Scale(a, f.pixelDeltaU)), Scale(b, f.pixelDeltaV))
  }

  lemma InverseScale(k: real, x: real)
    requires k != 0.0
    ensures k * ((1.0 / k) * x) == x
  {
  }

  lemma ScaleByInverse(k: real, a: Vec3)
    requires k != 0.0
    ensures Scale(k, Scale(1.0 / k, a)) == a
  {
    InverseScale(k, a.x);
    InverseScale(k, a.y);
    InverseScale(k, a.z);
  }

  /**
   * The pixel grid spans the viewport exactly: `image_width` steps right
   * cover `viewport_u`, and `image_height` steps down cover `viewport_v`.
   */
  lemma GridSpansViewport(p: Params, num: Numerics)
    requires Initializable(p)
    ensures var f := Setup(p, num);
      var viewportHeight := ViewportHeight(p, num);
      Scale(p.imageWidth as real, f.pixelDeltaU) == Scale(ViewportWidth(viewportHeight, p.imageWidth, f.imageHeight), f.u) &&
      Scale(f.imageHeight as real, f.pixelDeltaV) == Scale(viewportHeight, Neg(f.v))
  {
    var f := Setup(p, num);
    var viewportHeight := ViewportHeight(p, num);
    ScaleByInverse(p.imageWidth as real, Scale(ViewportWidth(viewportHeight, p.imageWidth, f.imageHeight), f.u));
    ScaleByInverse(f.imageHeight as real, Scale(viewportHeight, Neg(f.v)));
  }

  /** `(k-1)/2` steps are half of `k` steps less half a step. */
  lemma HalfStepShort(k: real, d: Vec3)
    ensures Scale((k - 1.0) / 2.0, d) == Sub(Scale(0.5, Scale(k, d)), Scale(0.5, d))
  {
  }

  /**
   * The centring argument for a frame built from the given viewport edges:
   * half a step in from the upper-left corner, then (W-1)/2 steps right and
   * (H-1)/2 steps down, reaches the middle of the viewport.
   */
  lemma FrameCentred(f: Frame, c: Point3, fw: Vec3, vu: Vec3, vv: Vec3, width: real, height: real)
    requires width != 0.0 && height != 0.0
    requires f.pixelDeltaU == Scale(1.0 / width, vu) && f.pixelDeltaV == Scale(1.0 / height, vv)
    requires f.pixel00Loc == Add(Sub(Sub(Sub(c, fw), Scale(1.0 / 2.0, vu)), Scale(1.0 / 2.0, vv)),
                                 Scale(0.5, Add(f.pixelDeltaU, f.pixelDeltaV)))
    ensures GridPoint(f, (width - 1.0) / 2.0, (height - 1.0) / 2.0) == Sub(c, fw)
  {
    ScaleByInverse(width, vu);
    ScaleByInverse(height, vv);
    HalfStepShort(width, f.pixelDeltaU);
    HalfStepShort(height, f.pixelDeltaV);
  }

  /**
   * The middle of the pixel grid, (W-1)/2 steps right and (H-1)/2 steps
   * down, is the point `focus_dist` in front of the camera along `-w`: the
   * camera looks through the centre of the image.
   */
  lemma GridCentredOnView(p: Params, num: Numerics)
    requires Initializable(p)
    ensures var f := Setup(p, num);
      GridPoint(f, (p.imageWidth as real - 1.0) / 2.0, (f.imageHeight as real - 1.0) / 2.0) == Sub(p.lookfrom, Scale(p.focusDist, f.w))
  {
    var f := Setup(p, num);
    var viewportHeight := ViewportHeight(p, num);
    FrameCentred(f, p.lookfrom, Scale(p.focusDist, f.w), Scale(ViewportWidth(viewportHeight, p.imageWidth, f.imageHeight), f.u),
                 Scale(viewportHeight, Neg(f.v)), p.imageWidth as real, f.imageHeight as real);
  }

  /** `pixel_sample_square`: a random offset within the square around a pixel centre. */
  function PixelSampleSquare(f: Frame, drawX: real, drawY: real): Vec3 {
    var px := JitterOffset(drawX);
    var py := JitterOffset(drawY);
    Add(Scale(px, f.pixelDeltaU), Scale(py, f.pixelDeltaV))
  }

  /**
   * For draws in [0,1) the offset is less than half a pixel step along each
   * of the two grid directions: the sample stays in the pixel's square.
   */
  lemma PixelSampleInSquare(f: Frame, drawX: real, drawY: real)
    requires 0.0 <= drawX < 1.0 && 0.0 <= drawY < 1.0
    ensures exists a: real, b: real {:trigger Scale(a, f.pixelDeltaU), Scale(b, f.pixelDeltaV)} ::
      -0.5 <= a < 0.5 && -0.5 <= b < 0.5 &&
      PixelSampleSquare(f, drawX, drawY) == Add(Scale(a, f.pixelDeltaU), Scale(b, f.pixelDeltaV))
  {
    var a, b := JitterOffset(drawX), JitterOffset(drawY);
    assert PixelSampleSquare(f, drawX, drawY) == Add(Scale(a, f.pixelDeltaU), Scale(b, f.pixelDeltaV));
  }

  /** `defocus_disk_sample`: the centre moved by a unit-disk point along the disk's two radii. */
  function DefocusDiskSample(f: Frame, d: (real, real)): Point3 {
    Add(Add(f.center, Scale(d.0, f.defocusDiskU)), Scale(d.1, f.defocusDiskV))
  }

  /**
   * `get_ray(i, j)`: from the camera centre when there is no defocus blur,
   * else from a point of the defocus disk, through a jittered point of
   * pixel (i, j), at the sample's time.
   */
  function GetRay(p: Params, f: Frame, i: int, j: int, d: SampleDraws): (r: Ray)
    ensures p.defocusAngle <= 0.0 ==> r.origin == f.center
    ensures p.defocusAngle > 0.0 ==> r.origin == DefocusDiskSample(f, d.disk)
    ensures r.time == d.time
    ensures Add(r.origin, r.direction) == Add(GridPoint(f, i as real, j as real), PixelSampleSquare(f, d.px, d.py))
  {
    var pixelCenter := GridPoint(f, i as real, j as real);
    var pixelSample := Add(pixelCenter, PixelSampleSquare(f, d.px, d.py));
    var rayOrigin := if p.defocusAngle <= 0.0 then f.center else DefocusDiskSample(f, d.disk);
    var rayDirection := Sub(pixelSample, rayOrigin);
    Ray(rayOrigin, rayDirection, d.time)
  }

  /** The sum of the first `n` values of `sample`, added in order. */
  function SampleSum(sample: int -> Color, n: int): Color
    decreases n
  {
    if n <= 0 then Black else Add(SampleSum(sample, n - 1), sample(n - 1))
  }

  /** Two sample sequences that agree on their first `n` samples have the same sum. */
  lemma {:induction false} SampleSumUsesFirst(sample: int -> Color, sample': int -> Color, n: int)
    requires forall s :: 0 <= s < n ==> sample(s) == sample'(s)
    ensures SampleSum(sample, n) == SampleSum(sample', n)
    decreases n
  {
    if n > 0 {
      SampleSumUsesFirst(sample, sample', n - 1);
    }
  }

  /** The samples of pixel (i, j), by sample number: sample `s` is the colour carried back by its jittered ray. */
  function Samples(p: Params, f: Frame, i: int, j: int, world: World, draws: (int, int, int) -> SampleDraws, num: Numerics): int -> Color {
    s => RayColor(GetRay(p, f, i, j, draws(i, j, s)), p.maxDepth, world, p.background, draws(i, j, s).bounces, num)
  }

  /** Pixel (i, j) of the image: the sum of its `samples_per_pixel` samples. */
  function Pixel(p: Params, f: Frame, world: World, draws: (int, int, int) -> SampleDraws, num: Numerics): (int, int) -> Color {
    (i, j) => SampleSum(Samples(p, f, i, j, world, draws, num), p.samplesPerPixel)
  }

  /** The first `n` pixels of row `j`, left to right. */
  function Row(pixel: (int, int) -> Color, j: int, n: int): (row: seq<Color>)
    ensures |row| == if n <= 0 then 0 else n
    decreases n
  {
    if n <= 0 then [] else Row(pixel, j, n - 1) + [pixel(n - 1, j)]
  }

  /** The first `n` rows of an image `width` pixels wide, top to bottom. */
  function Rows(pixel: (int, int) -> Color, width: int, n: int): (rows: seq<Color>)
    decreases n
  {
    if n <= 0 then [] else Rows(pixel, width, n - 1) + Row(pixel, n - 1, width)
  }

  /** The image `render` writes: its rows from the top, each row's pixels from the left. */
  function Image(p: Params, f: Frame, world: World, draws: (int, int, int) -> SampleDraws, num: Numerics): seq<Color> {
    Rows(Pixel(p, f, world, draws, num), p.imageWidth, f.imageHeight)
  }

  /** Entry `i` of a row is pixel `i` of that row. */
  lemma {:induction false} RowEntry(pixel: (int, int) -> Color, j: int, n: int, i: int)
    requires 0 <= i < n
    ensures Row(pixel, j, n)[i] == pixel(i, j)
    decreases n
  {
    if i < n - 1 {
      RowEntry(pixel, j, n - 1, i);
    }
  }

  /** With a positive width, `n` rows hold `n * width` pixels. */
  lemma {:induction false} RowsLength(pixel: (int, int) -> Color, width: int, n: int)
    requires width > 0 && n >= 0
    ensures |Rows(pixel, width, n)| == n * width
    decreases n
  {
    if n > 0 {
      RowsLength(pixel, width, n - 1);
      assert (n - 1) * width + width == n * width;
    }
  }

  /**
   * The image is row-major: with a positive width, the first `n` rows hold
   * `n * width` pixels, and pixel (i, j) sits at position `j * width + i`.
   */
  lemma {:induction false} RowsLayout(pixel: (int, int) -> Color, width: int, n: int, j: int, i: int)
    requires width > 0 && 0 <= j < n && 0 <= i < width
    ensures |Rows(pixel, width, n)| == n * width
    ensures Rows(pixel, width, n)[j * width + i] == pixel(i, j)
    decreases n
  {
    RowsLength(pixel, width, n);
    RowsLength(pixel, width, n - 1);
    var prefix := Rows(pixel, width, n - 1);
    if j < n - 1 {
      RowsLayout(pixel, width, n - 1, j, i);
      RowStartsBelow(j, n - 1, width, i);
    } else {
      assert j * width + i == |prefix| + i;
      RowEntry(pixel, j, width, i);
    }
  }

  /** Pixel `i` of row `j` lies before row `n` starts when `j` is above `n`. */
  lemma RowStartsBelow(j: int, n: int, width: int, i: int)
    requires 0 <= j < n && 0 <= i < width
    ensures j * width + i < n * width
  {
    assert (j + 1) * width <= n * width by { IntScaleMonotone(width, j + 1, n); }
  }

  lemma IntScaleMonotone(k: int, a: int, b: int)
    requires k >= 0 && a <= b
    ensures a * k <= b * k
  {
  }

  class Camera {
    var aspectRatio: real
    var imageWidth: int
    var samplesPerPixel: int
    var maxDepth: int
    var background: Color
    var vfov: real
    var lookfrom: Point3
    var lookat: Point3
    var vup: Vec3
    var defocusAngle: real
    var focusDist: real

    var imageHeight: int
    var center: Point3
    var pixel00Loc: Point3
    var pixelDeltaU: Vec3
    var pixelDeltaV: Vec3
    var u: Vec3
    var v: Vec3
    var w: Vec3
    var defocusDiskU: Vec3
    var defocusDiskV: Vec3

    /** A camera with the default parameters; the derived fields are zero until `Initialize`. */
    constructor ()
      ensures Settings() == Params(1.0, 100, 10, 10, Black, 90.0, Vec3(0.0, 0.0, -1.0), Zero, Vec3(0.0, 1.0, 0.0), 0.0, 10.0)
    {
      aspectRatio, imageWidth, samplesPerPixel, maxDepth := 1.0, 100, 10, 10;
      background, vfov := Black, 90.0;
      lookfrom, lookat, vup := Vec3(0.0, 0.0, -1.0), Zero, Vec3(0.0, 1.0, 0.0);
      defocusAngle, focusDist := 0.0, 10.0;
      imageHeight := 0;
      center, pixel00Loc, pixelDeltaU, pixelDeltaV := Zero, Zero, Zero, Zero;
      u, v, w, defocusDiskU, defocusDiskV := Zero, Zero, Zero, Zero, Zero;
    }

    /** The public parameters, as a value. */
    function Settings(): Params
      reads this
    {
      Params(aspectRatio, imageWidth, samplesPerPixel, maxDepth, background, vfov, lookfrom, lookat, vup, defocusAngle, focusDist)
    }

    /** The derived fields, as a value. */
    function Derived(): Frame
      reads this
    {
      Frame(imageHeight, center, pixel00Loc, pixelDeltaU, pixelDeltaV, u, v, w, defocusDiskU, defocusDiskV)
    }

    /** `initialize`: sets every derived field from the parameters, which it leaves as they are. */
    method Initialize(num: Numerics)
      requires Initializable(Settings())
      modifies this
      ensures Settings() == old(Settings())
      ensures Derived() == Setup(Settings(), num)
      ensures imageHeight >= 1 && center == lookfrom
    {
      var f := Setup(Settings(), num);
      imageHeight, center, pixel00Loc := f.imageHeight, f.center, f.pixel00Loc;
      pixelDeltaU, pixelDeltaV := f.pixelDeltaU, f.pixelDeltaV;
      u, v, w := f.u, f.v, f.w;
      defocusDiskU, defocusDiskV := f.defocusDiskU, f.defocusDiskV;
    }

    /** The innermost loop of `render`: the sum of pixel (i, j)'s `samples_per_pixel` samples. */
    method PixelColor(i: int, j: int, world: World, draws: (int, int, int) -> SampleDraws, num: Numerics) returns (pixelColor: Color)
      ensures pixelColor == SampleSum(Samples(Settings(), Derived(), i, j, world, draws, num), samplesPerPixel)
    {
      var p, f := Settings(), Derived();
      ghost var sample := Samples(p, f, i, j, world, draws, num);
      pixelColor := Black;
      var s := 0;
      while s < p.samplesPerPixel
        invariant 0 <= s && (s <= p.samplesPerPixel || s == 0)
        invariant pixelColor == SampleSum(sample, s)
      {
        var r := GetRay(p, f, i, j, draws(i, j, s));
        var c := RayColor(r, p.maxDepth, world, p.background, draws(i, j, s).bounces, num);
        assert c == sample(s);
        assert SampleSum(sample, s + 1) == Add(SampleSum(sample, s), sample(s));
        pixelColor := Add(pixelColor, c);
        s := s + 1;
      }
      if p.samplesPerPixel <= 0 {
        assert SampleSum(sample, p.samplesPerPixel) == Black;
      }
    }

    /** The middle loop of `render`: row `j`, pixel by pixel from the left. */
    method RenderRow(j: int, world: World, draws: (int, int, int) -> SampleDraws, num: Numerics) returns (row: seq<Color>)
      ensures row == Row(Pixel(Settings(), Derived(), world, draws, num), j, imageWidth)
    {
      ghost var pixel := Pixel(Settings(), Derived(), world, draws, num);
      row := [];
      var i := 0;
      while i < imageWidth
        invariant 0 <= i && (i <= imageWidth || i == 0)
        invariant row == Row(pixel, j, i)
      {
        var pixelColor := PixelColor(i, j, world, draws, num);
        assert pixelColor == pixel(i, j);
        assert Row(pixel, j, i + 1) == Row(pixel, j, i) + [pixel(i, j)];
        row := row + [pixelColor];
        i := i + 1;
      }
      if imageWidth <= 0 {
        assert Row(pixel, j, imageWidth) == [];
      }
    }

    /**
     * The two outer loops of `render`: the rows from the top, each written
     * out pixel by pixel from the left.
     */
    method RenderPixels(world: World, draws: (int, int, int) -> SampleDraws, num: Numerics) returns (pixels: seq<Color>)
      ensures pixels == Image(Settings(), Derived(), world, draws, num)
    {
      ghost var pixel := Pixel(Settings(), Derived(), world, draws, num);
      pixels := [];
      var j := 0;
      while j < imageHeight
        invariant 0 <= j && (j <= imageHeight || j == 0)
        invariant pixels == Rows(pixel, imageWidth, j)
      {
        var row := RenderRow(j, world, draws, num);
        assert Rows(pixel, imageWidth, j + 1) == Rows(pixel, imageWidth, j) + Row(pixel, j, imageWidth);
        pixels := pixels + row;
        j := j + 1;
      }
      if imageHeight <= 0 {
        assert Rows(pixel, imageWidth, imageHeight) == [];
      }
    }

    /** `render(world)`: initializes the camera, then produces the image row by row. */
    method Render(world: World, draws: (int, int, int) -> SampleDraws, num: Numerics) returns (pixels: seq<Color>)
      requires Initializable(Settings())
      modifies this
      ensures Settings() == old(Settings())
      ensures Derived() == Setup(Settings(), num)
      ensures pixels == Image(Settings(), Derived(), world, draws, num)
    {
      Initialize(num);
      pixels := RenderPixels(world, draws, num);
    }
  }
}
