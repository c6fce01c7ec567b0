# A verified model of a Monte Carlo ray tracer's core

This project models the core of a small physically based ray tracer in the
style of *Ray Tracing: The Next Week*. The model covers:

- a camera that shoots jittered, defocus-blurred rays through a pixel grid
  and sums `samples_per_pixel` samples per pixel;
- a depth-bounded path-tracing integrator (`ray_color`);
- two primitives, spheres (stationary or moving) and planar quads, that fill
  in a shared hit record;
- four materials (Lambertian, metal, dielectric and diffuse light) that
  emit and scatter light;
- textures (a solid colour, and a 3-D checker board);
- a Perlin noise generator built from shuffled permutation tables and read
  through an integer lattice.

The model works under these conventions:

- Doubles are modelled as exact `real`s.
- The math-library operations with irrational results are parameters of
  the model and are never defined. They are `sqrt`, `tan`, `unit_vector`
  and `refract`, bundled as `Geometry.Numerics`.
- Every random number the program would draw is an input:
  - `Materials.ScatterDraws` holds one bounce's draws;
  - `Cameras.SampleDraws` holds one sample's draws;
  - the `random_int` targets of each permutation shuffle are a sequence.
  Where the generator promises a range (`[0,1)` for `random_double`), the
  lemmas that need it take it as a hypothesis.
- The scene is any function answering the hit query `world.hit(r, ray_t)`
  with a filled-in record or a miss. Scene aggregates are not part of the
  core.

The source's structure is kept:

- `perlin` builds and shuffles arrays in place, and fills a `c[2][2][2]`
  array by three nested loops. Those stay arrays and loops.
- `hit_record` is written field by field by the primitives. It stays a
  class.
- `quad` and `camera` are classes with the source's fields.
- Spheres, textures and materials never change after construction. They
  are datatypes with pure operations.
- `render`'s three nested loops are methods proved equal to a row-major
  image function.

The vector, ray, interval and bounding-box headers (`vec3.h`, `ray.h`,
`interval.h`, `aabb.h`) are not part of this model. `Geometry` gives minimal
stand-ins for the parts the core uses:

- an interval with possibly infinite ends;
- `contains` is the closed test and `surrounds` the open one;
- `aabb(a, b)` is the box of two corners in any order;
- `pad` widens axes thinner than 0.0001.

Modules, one per source file:

| module | file | models |
|---|---|---|
| Geometry | geometry.dfy | `Vec3`, `Ray`, `Interval`, `Aabb` stand-ins and `Numerics` |
| Common | common.dfy | common.h, and C++ `static_cast<int>` and `%` on `int` |
| PerlinNoise | perlin.dfy | perlin.h |
| Textures | texture.dfy | texture.h |
| Hittable | hittable.dfy | hittable.h |
| Materials | material.dfy | material.h |
| Spheres | sphere.dfy | sphere.h |
| Quads | quad.dfy | quad.h |
| Cameras | camera.dfy | camera.h |

## Model

| member | source | states |
|---|---|---|
| Common.DegreesToRadians | SecondWeek/src/common.h:23-25 | the result times 180 is the angle times pi |
| Common.DegreesToRadiansIsLinear | SecondWeek/src/common.h:23-25 | 0 maps to 0 and 180 to pi; the conversion preserves sums and scalar multiples |
| Common.RandomDouble | SecondWeek/src/common.h:39-42 | `random_double(min, max)` for a given unit draw: `min` plus that fraction of the span; its range is stated by `Common.RandomDoubleInRange` |
| Common.RandomDoubleInRange | SecondWeek/src/common.h:39-42 | for a unit draw in [0,1), `random_double(min, max)` lies in [min, max) for ordered bounds, is `min` when they coincide, and lies in (max, min] when they are reversed |
| Common.Clamp | SecondWeek/src/common.h:45-49 | the result is `x`, `min` or `max`; it lies in [min, max] when the bounds are ordered; a value already inside is unchanged; a value below `min` becomes `min`, and one at least `min` but above `max` becomes `max` |
| Common.ClampIdempotent | SecondWeek/src/common.h:45-49 | with ordered bounds, clamping twice equals clamping once |
| Common.ClampNotIdempotentOnReversedBounds | SecondWeek/src/common.h:45-49 | with reversed bounds a second clamp can change the result: 0 clamped to (2, 1) gives 2, and clamping again gives 1 |
| Common.TruncToInt | SecondWeek/src/camera.h:59 | `static_cast<int>` rounds toward zero: the result is the whole part of a non-negative value and minus the whole part of minus a negative one |
| Common.CppRem | SecondWeek/src/texture.h:42 | C++ `%`: quotient times divisor plus remainder is the dividend, and the remainder has the dividend's sign and is smaller in size than the divisor |
| Common.CppRemParity | SecondWeek/src/texture.h:42 | the C++ remainder by 2 is zero exactly when the mathematical one is, negative dividends included |
| PerlinNoise.PermutationEntriesInRange | SecondWeek/src/perlin.h:86-95 | every entry of a permutation of 0..n-1 is an index in [0, n) |
| PerlinNoise.Swap | SecondWeek/src/perlin.h:101-103 | the entries at `i` and `j` trade places, and every other entry is kept |
| PerlinNoise.SwapPermutes | SecondWeek/src/perlin.h:101-103 | an exchange keeps the multiset of entries |
| PerlinNoise.ShuffleDown | SecondWeek/src/perlin.h:98-105 | the shuffle specification: swap position `i` with its drawn target, then continue from `i - 1` down to 1; it keeps the length, and is a rearrangement by `PerlinNoise.ShuffleDownPermutes` |
| PerlinNoise.ShuffleDownPermutes | SecondWeek/src/perlin.h:98-105 | the shuffle's result is a rearrangement of its input (same multiset) |
| PerlinNoise.ShuffleDownKeepsAbove | SecondWeek/src/perlin.h:99-104 | the steps from index `i` down never touch a position above `i` |
| PerlinNoise.Permute | SecondWeek/src/perlin.h:98-105 | the in-place loop leaves the array equal to the shuffle specification applied to its old contents, and a permutation of them |
| PerlinNoise.GeneratePerm | SecondWeek/src/perlin.h:86-95 | a fresh 256-entry array: the identity 0..255 shuffled by the given draws, a permutation of 0..255, every entry in [0, 256) |
| PerlinNoise.Mask255 | SecondWeek/src/perlin.h:27-29 | `n & 255` lies in [0, 256) and agrees with `n` modulo 256, negative `n` included |
| PerlinNoise.Xor | SecondWeek/src/perlin.h:31 | `a ^ b` on non-negative integers, bit by bit from the lowest; its range, symmetry and self-cancellation are the three lemmas below |
| PerlinNoise.XorBelow | SecondWeek/src/perlin.h:31 | the exclusive or of two n-bit values is an n-bit value |
| PerlinNoise.XorCommutes | SecondWeek/src/perlin.h:31 | exclusive or is symmetric |
| PerlinNoise.XorSelf | SecondWeek/src/perlin.h:31 | a value exclusive-or'ed with itself is zero |
| PerlinNoise.Xor3 | SecondWeek/src/perlin.h:31 | the exclusive or of three table entries is again an index into the 256-entry table |
| PerlinNoise.Frac | SecondWeek/src/perlin.h:36-38 | `x - floor(x)` lies in [0, 1), and `x` minus it is a whole number |
| PerlinNoise.Hermite | SecondWeek/src/perlin.h:60-62 | the smoothing `u*u*(3-2u)`; its properties are stated by `PerlinNoise.HermiteProperties` |
| PerlinNoise.HermiteNonNegative | SecondWeek/src/perlin.h:60-62 | the smoothing `u*u*(3-2u)` is non-negative on [0, 1] |
| PerlinNoise.HermiteProperties | SecondWeek/src/perlin.h:60-62 | the smoothing fixes 0 and 1, maps [0, 1] into itself and is symmetric about 1/2 |
| PerlinNoise.WeightedSum | SecondWeek/src/perlin.h:108-114 | trilinear interpolation: each corner weighted by the product of its three axis weights `i*u + (1-i)*(1-u)`; the loop is proved equal to it by `PerlinNoise.TrilinearInterp` |
| PerlinNoise.ConstantCube | SecondWeek/src/perlin.h:108-115 | the eight trilinear weights sum to 1: a cube of equal corners interpolates to that value at any fractions |
| PerlinNoise.WeightedSumAtCorners | SecondWeek/src/perlin.h:108-115 | at fractions (0,0,0) the interpolation is the near corner's value, at (1,1,1) the far corner's |
| PerlinNoise.TrilinearInterp | SecondWeek/src/perlin.h:108-115 | the triple loop's accumulated sum equals the trilinear weighted sum of the eight corners |
| PerlinNoise.FillTable | SecondWeek/src/perlin.h:10-12 | the fresh value table holds the draws, in order |
| PerlinNoise.Perlin.constructor | SecondWeek/src/perlin.h:8-17 | the value table holds the 256 unit draws; each of the three tables is the identity shuffled by its own draws, and is a permutation of 0..255 |
| PerlinNoise.Perlin.Index | SecondWeek/src/perlin.h:27-31 | the lattice lookup `perm_x[i&255] ^ perm_y[j&255] ^ perm_z[k&255]` is always a valid index into the value table |
| PerlinNoise.Perlin.Noise | SecondWeek/src/perlin.h:26-32 | `noise` is the table value of the cell of the point scaled by 4 and truncated toward zero, and lies in [0, 1) |
| PerlinNoise.Perlin.NoisePeriodicAlongX | SecondWeek/src/perlin.h:26-32 | on the non-negative side noise repeats every 64 units along x; the cell of index 0 spans (-1/4, 1/4), twice the width of the others |
| PerlinNoise.Perlin.Lattice | SecondWeek/src/perlin.h:49 | every lattice value lies in [0, 1) |
| PerlinNoise.Perlin.CellCorners | SecondWeek/src/perlin.h:43-49 | the eight lattice values of a cell, corner offset (di, dj, dk) at `c[di][dj][dk]`; `PerlinNoise.Perlin.FillCorners` is proved to produce it |
| PerlinNoise.Perlin.FillCorners | SecondWeek/src/perlin.h:46-49 | the nested loops fill a fresh 2x2x2 array with the eight lattice values of cell (i, j, k) |
| PerlinNoise.Perlin.NoiseTriInterpolation | SecondWeek/src/perlin.h:34-52 | the result is the trilinear blend of the point's cell corners at its fractional parts; at a lattice point it is that point's value |
| PerlinNoise.Perlin.NoiseHermite | SecondWeek/src/perlin.h:54-77 | the same blend with each fraction Hermite-smoothed first; at a lattice point it is that point's value |
| Textures.NewChecker | SecondWeek/src/texture.h:32 | the checker stores the reciprocal of its scale and its two children |
| Textures.NewCheckerOfColors | SecondWeek/src/texture.h:34 | the same, with two solid-colour children |
| Textures.CellIndex | SecondWeek/src/texture.h:38-40 | the floored cell coordinate along one axis |
| Textures.IsEvenCell | SecondWeek/src/texture.h:42 | the parity test on the sum of the cell coordinates, with C++'s truncating `%` |
| Textures.Value | SecondWeek/src/texture.h:37-45 | `value(u, v, p)` of both kinds of texture; its behaviour is stated by the four lemmas below |
| Textures.SolidColorIsConstant | SecondWeek/src/texture.h:20-22 | a solid colour has its colour at every (u, v, p) |
| Textures.CheckerChoosesByParity | SecondWeek/src/texture.h:37-45 | the checker shows its even child exactly when the three floored cell coordinates sum to an even number, negative sums included, and its odd child otherwise |
| Textures.NeighbourCellsAlternate | SecondWeek/src/texture.h:42-44 | one cell step along any axis swaps the child shown |
| Textures.ValueIgnoresSurfaceCoordinates | SecondWeek/src/texture.h:37-45 | no texture built from these two kinds depends on (u, v) |
| Hittable.FaceNormal | SecondWeek/src/hittable.h:16-19 | the ray comes from the front exactly when it runs against the outward normal; the stored normal is the outward normal from the front and its negation otherwise, a grazing ray included |
| Hittable.FaceNormalOpposesRay | SecondWeek/src/hittable.h:16-19 | the stored normal never points along the ray: its dot product with the direction is minus the absolute value of the outward one's, and zero only for a grazing ray |
| Hittable.HitRecord.constructor | SecondWeek/src/hittable.h:9-20 | a fresh record has zero fields and no material |
| Hittable.HitRecord.SetFaceNormal | SecondWeek/src/hittable.h:16-19 | sets the side flag and the oriented normal, which opposes the ray, and changes no other field |
| Materials.LambertianOfColor | SecondWeek/src/material.h:24 | a Lambertian surface whose albedo is that colour everywhere |
| Materials.DiffuseLightOfColor | SecondWeek/src/material.h:105 | a light that emits that colour everywhere |
| Materials.NewMetal | SecondWeek/src/material.h:49 | the albedo is kept and the fuzz is capped at 1: kept below 1, exactly 1 from 1 up |
| Materials.Emitted | SecondWeek/src/material.h:112-114 | a light emits its texture's value; every other material emits black, as the base class's default at material.h:14-16 |
| Materials.RefractionRatio | SecondWeek/src/material.h:71 | entering the surface the ratio is the reciprocal of the index, leaving it the index itself |
| Materials.CosTheta | SecondWeek/src/material.h:74 | `fmin(dot(-d, n), 1)`: at most 1, and the dot product exactly when that is at most 1 |
| Materials.Reflectance | SecondWeek/src/material.h:93-98 | Schlick's approximation; its values are stated by `Materials.ReflectanceAtEnds` and `Materials.ReflectanceIsProbability` |
| Materials.CannotRefract | SecondWeek/src/material.h:77 | total internal reflection: the ratio times the sine of the incidence angle exceeds 1 |
| Materials.DielectricDirection | SecondWeek/src/material.h:73-83 | the direction is the reflection or the refraction; the reflection when refraction is impossible or the draw falls below the reflectance, the refraction otherwise |
| Materials.ReflectanceAtEnds | SecondWeek/src/material.h:93-98 | Schlick's approximation gives `((1-idx)/(1+idx))^2` at normal incidence and total reflection at grazing incidence |
| Materials.ReflectanceIsProbability | SecondWeek/src/material.h:93-98 | for a positive index (every refraction ratio the dielectric passes) and an incidence cosine in [0, 1], the reflectance lies between `r0` squared and 1 |
| Materials.PowUnit | SecondWeek/src/material.h:97 | every power of a number in [0, 1] stays in [0, 1] |
| Materials.Pow | SecondWeek/src/material.h:97 | `pow(x, n)` for a natural exponent, as `n` factors of `x` |
| Materials.Scatter | SecondWeek/src/material.h:27-110 | only lights leave both out-parameters unwritten; Lambertian and dielectric always scatter, metal exactly when the scattered ray leaves above the surface, and a light never; every scattered ray starts at the hit point at the incoming ray's time; each variant's attenuation; the direction is normal plus the random unit vector for Lambertian (the normal when that sum is near zero), the reflected unit direction plus fuzz times the in-sphere draw for metal, and `DielectricDirection` for dielectric |
| Materials.LambertianDirection | SecondWeek/src/material.h:27-40 | the Lambertian direction is normal plus the random unit vector when that sum is not near zero, and the normal when it is; so it is degenerate only when the normal is |
| Materials.ReflectAgainstUnitNormal | SecondWeek/src/material.h:52 | reflection about a unit normal negates the normal component |
| Materials.MirrorScattersIncomingRays | SecondWeek/src/material.h:51-57 | a metal without fuzz scatters exactly the rays that arrive against its unit normal |
| Materials.TotalInternalReflection | SecondWeek/src/material.h:77-83 | when refraction is impossible the dielectric reflects, whatever the random draw |
| Spheres.Stationary | SecondWeek/src/sphere.h:11-14 | a stationary sphere keeps centre, radius and material, and its box is the ball's box |
| Spheres.Moving | SecondWeek/src/sphere.h:16-23 | the motion vector leads from the first centre to the second; the box is the union of the two end boxes |
| Spheres.StationaryBox | SecondWeek/src/sphere.h:11-14 | the box is [c - abs(r), c + abs(r)] on every axis, negative radii included, since the box orders its corners |
| Spheres.MovingCenterAtEnds | SecondWeek/src/sphere.h:37-41 | `sphere_center` is the first centre at time 0 and the second at time 1 |
| Spheres.SphereCenter | SecondWeek/src/sphere.h:37-41 | `center1` moved `time` of the way along the motion vector; its ends are stated by `Spheres.MovingCenterAtEnds` |
| Spheres.CenterAt | SecondWeek/src/sphere.h:45 | the centre `hit` uses; for every sphere the constructors build (moving, or with a zero motion vector) it is `sphere_center(time)` |
| Spheres.MovingBoxShape | SecondWeek/src/sphere.h:16-23 | the moving box is, axis by axis, the union of the two end spans of half-width abs(r) |
| Spheres.MovingBoxCoversPath | SecondWeek/src/sphere.h:16-23 | the box of a moving sphere holds its centre at every time in [0, 1], whatever the sign of the radius |
| Spheres.Coefficients | SecondWeek/src/sphere.h:46-50 | the coefficients `a`, `half_b`, `c` of the ray-sphere quadratic; `a`, a squared length, is never negative |
| Spheres.QuadraticAlongRay | SecondWeek/src/sphere.h:46-50 | the quadratic at `t` is the squared distance from `r.at(t)` to the centre less the squared radius: its roots are exactly where the ray meets the sphere |
| Spheres.NearRoot | SecondWeek/src/sphere.h:54 | the root `(-half_b - sqrtd) / a` |
| Spheres.FarRoot | SecondWeek/src/sphere.h:56 | the root `(-half_b + sqrtd) / a` |
| Spheres.RootsSolveQuadratic | SecondWeek/src/sphere.h:53-56 | given a true square root of the discriminant, both roots solve `a t^2 + 2 half_b t + c == 0` |
| Spheres.ChooseRoot | SecondWeek/src/sphere.h:52-59 | a reported root lies strictly inside the ray window |
| Spheres.ChooseRootCases | SecondWeek/src/sphere.h:52-59 | no real root, or a zero `a`, is a miss; otherwise the near root if the window surrounds it, else the far root if it does, else a miss |
| Spheres.ChosenRootIsNearest | SecondWeek/src/sphere.h:53-59 | given a non-negative square root, a reported root is at most the far root, and at most the near root when the window holds that |
| Spheres.HitPointOnSphere | SecondWeek/src/sphere.h:52-62 | given a true square root, the point at a reported root lies on the sphere at the ray's time |
| Spheres.OutwardNormal | SecondWeek/src/sphere.h:63 | `(p - center) / radius` |
| Spheres.OutwardNormalIsUnit | SecondWeek/src/sphere.h:63 | at a point on the surface the outward normal has unit length, whatever the radius's sign |
| Spheres.Hit | SecondWeek/src/sphere.h:44-68 | hits exactly when a root is chosen; a miss leaves the record untouched; a hit stores that root, the point there, the material and the outward normal oriented against the ray, and keeps the surface coordinates |
| Quads.PaddedBoxOfCorners | SecondWeek/src/quad.h:21 | the padded box of two corners holds both and is at least 0.0001 wide on every axis |
| Quads.Quad.constructor | SecondWeek/src/quad.h:10-18 | keeps corner, edges and material; the normal is the unit cross product of the edges; the corner lies on the plane `dot(normal, p) == D`; the box is set |
| Quads.Quad.SetBoundingBox | SecondWeek/src/quad.h:20-22 | the box is the padded box of `Q` and `Q + u + v`, and holds both corners |
| Quads.Quad.PlaneHit | SecondWeek/src/quad.h:27-36 | nearly parallel rays miss; a reported parameter lies in the closed window and solves the plane equation along the ray; every such crossing of a non-parallel ray is reported |
| Quads.Quad.HitPointOnPlane | SecondWeek/src/quad.h:34-38 | the point at a reported parameter lies on the quad's plane |
| Quads.Quad.Hit | SecondWeek/src/quad.h:26-46 | hits exactly when the plane test reports a crossing; a miss leaves the record untouched; a hit stores the crossing, the point there, the material and the plane normal oriented against the ray, and keeps the surface coordinates |
| Cameras.RayColor | SecondWeek/src/camera.h:127-147 | `ray_color`, by recursion on the bounce budget; its cases are stated by `Cameras.RayColorCases` and `Cameras.RayColorOutOfDepth`, and what it depends on by the lemmas after them |
| Cameras.RayColorOutOfDepth | SecondWeek/src/camera.h:129-130 | with no bounces left the colour is black, whatever the scene |
| Cameras.RayColorCases | SecondWeek/src/camera.h:127-147 | with bounces left: a miss gives the background, a surface that does not scatter gives its emission, and one that scatters adds its attenuation times the next bounce's colour |
| Cameras.SameBounce | SecondWeek/src/camera.h:141-146 | a bounce whose own draws agree, and whose scattered ray gets the same colour both ways, gets the same colour |
| Cameras.RayColorUsesDepthDraws | SecondWeek/src/camera.h:127-147 | the colour depends only on the draws of the `depth` bounces the recursion can make |
| Cameras.NoLightIsBlack | SecondWeek/src/camera.h:127-147 | a scene without lights against a black background renders black: all light comes from emitters |
| Cameras.ImageHeight | SecondWeek/src/camera.h:59-60 | the height is the width over the aspect ratio truncated toward zero, but at least 1 |
| Cameras.ImageHeightIsWholePart | SecondWeek/src/camera.h:59-60 | when the width is at least the ratio, the height is the whole part of width over ratio |
| Cameras.JitterOffset | SecondWeek/src/camera.h:109-110 | a unit draw becomes an offset in [-1/2, 1/2), half a unit below the draw |
| Cameras.ViewportHeight | SecondWeek/src/camera.h:65-67 | twice the tangent of half the vertical field of view, times the focus distance |
| Cameras.ViewportWidth | SecondWeek/src/camera.h:68 | the viewport height stretched by the image's actual width-to-height ratio |
| Cameras.Setup | SecondWeek/src/camera.h:58-91 | the height is `ImageHeight` and at least 1; the centre is `lookfrom` |
| Cameras.GridSpansViewport | SecondWeek/src/camera.h:76-81 | `image_width` pixel steps right span the viewport's width vector, `image_height` steps down its height vector |
| Cameras.FrameCentred | SecondWeek/src/camera.h:80-85 | half a step in from the upper-left corner, then (W-1)/2 steps right and (H-1)/2 down, reaches the viewport's middle |
| Cameras.GridCentredOnView | SecondWeek/src/camera.h:58-91 | the middle of the pixel grid is the point `focus_dist` along `-w` from the camera: the camera looks through the image's centre |
| Cameras.PixelSampleSquare | SecondWeek/src/camera.h:107-112 | the jitter offsets times the two pixel steps; its bound is stated by `Cameras.PixelSampleInSquare` |
| Cameras.PixelSampleInSquare | SecondWeek/src/camera.h:107-112 | for unit draws the sample offset is less than half a pixel step along each grid direction |
| Cameras.DefocusDiskSample | SecondWeek/src/camera.h:120-124 | the camera centre moved by a unit-disk point along the disk's two radii |
| Cameras.GetRay | SecondWeek/src/camera.h:93-105 | the ray starts at the centre without defocus and on the defocus disk otherwise; it carries the sample's time and passes through the jittered point of pixel (i, j) |
| Cameras.SampleSum | SecondWeek/src/camera.h:36-40 | the sum of the first `n` samples, added in order from black |
| Cameras.SampleSumUsesFirst | SecondWeek/src/camera.h:37-40 | a pixel's sum depends only on its first `samples_per_pixel` samples |
| Cameras.Samples | SecondWeek/src/camera.h:38-39 | sample `s` of pixel (i, j): the colour carried back by its jittered ray with the full bounce budget |
| Cameras.Pixel | SecondWeek/src/camera.h:36-40 | pixel (i, j): the sum of its `samples_per_pixel` samples |
| Cameras.Row | SecondWeek/src/camera.h:35-42 | a row holds `n` pixels (none for `n <= 0`) |
| Cameras.Rows | SecondWeek/src/camera.h:33-43 | the first `n` rows, top to bottom; their layout is stated by `Cameras.RowsLength` and `Cameras.RowsLayout` |
| Cameras.Image | SecondWeek/src/camera.h:33-43 | the image `render` writes: all `image_height` rows of `image_width` pixels |
| Cameras.RowEntry | SecondWeek/src/camera.h:35-42 | entry `i` of row `j` is pixel (i, j) |
| Cameras.RowsLength | SecondWeek/src/camera.h:33-43 | with a positive width, `n` rows hold `n * width` pixels |
| Cameras.RowsLayout | SecondWeek/src/camera.h:33-43 | the image is row-major: pixel (i, j) is at position `j * width + i` |
| Cameras.Camera.constructor | SecondWeek/src/camera.h:14-26 | a new camera has the source's default parameters |
| Cameras.Camera.Initialize | SecondWeek/src/camera.h:58-91 | sets every derived field to `Setup` of the parameters and leaves the parameters unchanged; the height is at least 1 and the centre is `lookfrom` |
| Cameras.Camera.PixelColor | SecondWeek/src/camera.h:36-40 | the sample loop returns the sum of pixel (i, j)'s `samples_per_pixel` sample colours, in order |
| Cameras.Camera.RenderRow | SecondWeek/src/camera.h:35-42 | the pixel loop returns row `j` of the image, left to right |
| Cameras.Camera.RenderPixels | SecondWeek/src/camera.h:33-43 | the row loop returns the whole image, rows from the top |
| Cameras.Camera.Render | SecondWeek/src/camera.h:28-46 | initializes the camera, then returns the row-major image of per-pixel sample sums that `render` writes out |

## Left out

- File and console output are left out. This covers the `image.ppm` stream, the P6 header, the progress messages and `write_color6`, whose colour-to-byte conversion lives in `color.h`. `Render` returns the pixel sums in the order they are written.
- The random number generator (the static Mersenne twister behind `random_double` and `random_int`, and `random_unit_vector`, `random_in_unit_sphere` and `random_in_unit_disk`) is left out. Its outputs are inputs of the model.
- `sqrt`, `tan`, `unit_vector` and `refract` are parameters (`Numerics`), because their results are irrational. No property of them is assumed except where a lemma states one as a hypothesis (`Spheres.ChosenRootIsNearest`).
- Floating point (rounding, infinities, NaN) is left out, because doubles are exact reals. Two consequences:
  - A sphere `hit` with a zero-length ray direction divides by zero in the source. The model treats that as a miss, since no window surrounds a NaN or infinite root.
  - `fmin` with a NaN argument is not modelled.
- `pow(x, 5)` is modelled as five multiplications.
- Integer widths are not modelled. `int` is unbounded: `image_width`, `image_height`, loop counters and the `static_cast<int>` of huge doubles cannot overflow in the model.
- The scene aggregate and bounding-volume hierarchy, `main.cc` and the scene set-ups are not part of this model. The world is any hit-query function.
- hittable.h declares `hit(ray, t_min, t_max, rec)` and a record without `u`, `v`. The primitives override `hit(ray, interval, rec)`, and the camera reads `rec.u` and `rec.v`. The model uses the interval protocol and gives the record `u` and `v` fields. Neither primitive writes them.
- Spheres.Hit: requires a non-zero radius, because the outward normal divides by it.
- Textures.NewChecker: requires a non-zero scale, because its reciprocal is stored.
- Materials.NewMetal: the default argument `f = 0` of `metal(a, f)` is not a separate member; `NewMetal(a, 0.0)` is that call.
- The dielectric's index of refraction is a positive real. `reflectance` divides by `1 + idx`.
- Cameras.Camera.Initialize: requires a non-zero `image_width` and `aspect_ratio`, because `initialize` divides by both.
- Cameras.Camera.constructor: the default `background` is taken to be black, since `vec3`'s default constructor is not part of this model.
- `pixel_sample_disk` (camera.h:114-118) is left out. Nothing calls it.
- `bounding_box()` accessors are left out. They only return the stored box.
- Memory management (`new[]`/`delete[]` in `perlin`, `shared_ptr` for materials and textures) is left out. Arrays are garbage-collected, and materials are values.
- Quads.Quad.Hit: there is no test that the plane crossing lies inside the parallelogram, because the source has none. Every crossing within the window is a hit.
- Spheres.ChooseRoot: its own contract states only that a root lies inside the window. Its case analysis is stated in `Spheres.ChooseRootCases`.
- Cameras.Setup: its contract states only the height and centre. The geometry of the frame it builds is stated in `Cameras.GridSpansViewport` and `Cameras.GridCentredOnView`.
