# Progressive ray tracer core, modelled in Dafny

This project models the core of an interactive, progressively refining ray
tracer (chin-yan/computer_graphics_final). It covers:

- **Primitive intersection** (`Sphere::hit`, `Triangle::hit`): a sphere-style
  quadratic test. It takes the nearer root when that root is inside the open
  interval `(t_min, t_max)`, and the farther root otherwise.
- **The nearest-hit scan** (`hit_world`): the ground, the spheres, the boxes and
  the mesh triangles are checked in that order, each against an upper bound that
  shrinks after every hit.
- **The material rules** (`rt_material.h`): the rejection sampler
  `random_in_unit_sphere`, `reflect`, `refract`, Schlick's approximation, the
  `Metal` constructor and the `Metal`/`Lambertian` scatter rules.
- **The radiance estimator** (`color`): a recursion bounded by `max_bounces`, with
  early returns for the debug normal view, absorption and the sky gradient.
- **The accumulation scheduler** (`RTContext`, `updateLine`, `updateImage`,
  `resetImage`, `resetAccumulation`). One tick renders one scanline into a buffer
  of `(rgb sum, weight)` entries and advances the line and frame counters.

Vectors and scalars are `real`. `glm::sqrt` is a function value `sqrt`; lemmas
that need it require `IsSqrt(sqrt)`, which says `sqrt` is exact on the
non-negative reals. `glm::normalize` is defined from `sqrt`. `pow(x, 5)` is the
exact fifth power.

The files are:

- `wrappers.dfy`: `Option`.
- `vectors.dfy`: vec3/vec4 arithmetic and the square-root axiom.
- `hitable.dfy`: `Ray`, `HitRecord`, the material variants and the open-interval
  test.
- `sphere.dfy` and `triangle.dfy`: the two `hit` tests.
- `material.dfy`: the material rules.
- `raytracing.dfy`: the scene, `hit_world` and `color`.
- `accumulation.dfy`: the render context class, whose buffer is an
  `array<Vec4>` updated in place.

## Model

| member | source | states |
|---|---|---|
| Vectors.NormalizeUnit | src/rt_raytracing.cpp:74 | normalizing a non-zero vector gives a vector of squared length exactly 1 |
| Vectors.NormalizeBounded | src/rt_raytracing.cpp:86-87 | a normalized vector has squared length at most 1, so each component, `unit_direction.y` included, lies in [-1, 1] |
| Spheres.Hit | src/rt_sphere.h:21-41 | a reported parameter lies strictly inside (t_min, t_max) |
| Spheres.HitMiss | src/rt_sphere.h:27-40 | the test fails (the record is not written) exactly when the discriminant is not positive or neither root lies in the open interval |
| Spheres.PositiveDiscriminant | src/rt_sphere.h:24-30 | a positive discriminant implies a > 0 and radius != 0, so both divisions in the test are defined |
| Spheres.HitRootChoice | src/rt_sphere.h:29-31 | the stored t is temp1 when temp1 is in range and temp2 otherwise |
| Spheres.HitRecordFill | src/rt_sphere.h:33-36 | on a hit p = origin + t·direction, radius·normal = p − center, and the material is the sphere's own |
| Spheres.SphereRoots | src/rt_sphere.h:24-30 | with an exact sqrt, temp1 <= temp2, both solve a t² + b t + c = 0, and no other t does |
| Spheres.HitSmallestRoot | src/rt_sphere.h:28-32 | the stored t solves the quadratic and is the smallest solution in the open interval |
| Spheres.HitComplete | src/rt_sphere.h:28-32 | under a positive discriminant, a solution of the quadratic in the open interval is always reported as a hit (a tangent ray is missed) |
| Spheres.HitOnSurface | src/rt_sphere.h:23-34 | the stored point is at distance radius from the centre |
| Spheres.HitUnitNormal | src/rt_sphere.h:26-35 | with an exact sqrt the stored normal has squared length 1, whatever the sign of the radius |
| Spheres.HitClip | src/rt_sphere.h:31-32 | testing against a lowered upper bound gives the full-interval report if it is below that bound, and a miss otherwise |
| Triangles.Hit | src/rt_triangle.h:19-39 | a reported parameter lies strictly inside (t_min, t_max) |
| Triangles.HitMiss | src/rt_triangle.h:25-38 | the test fails, leaving the record as it was, exactly when the discriminant is not positive or neither root is in range |
| Triangles.HitRootChoice | src/rt_triangle.h:27-29 | the smaller root when it is in range, the larger one otherwise |
| Triangles.HitRecordFill | src/rt_triangle.h:31-34 | on a hit p = point_at(t), radius·normal = p − center, and the material is the triangle's own |
| Triangles.HitClip | src/rt_triangle.h:29-30 | lowering the upper bound only drops a report that is no longer below it |
| Materials.FirstInBall | src/rt_material.h:13-19 | an accepted point is strictly inside the unit ball; it uses a positive multiple of three draws, no more than there are |
| Materials.FirstInBallIsFirst | src/rt_material.h:15-17 | the accepted point is the candidate of the last group of draws consumed and every earlier candidate was rejected; with no point, every complete group was rejected |
| Materials.CandidateRange | src/rt_material.h:16 | with drand48 values in [0, 1), each coordinate of a candidate lies in [-1, 1) |
| Materials.RandomInUnitSphere | src/rt_material.h:13-19 | the do-while loop returns the first candidate inside the ball and the number of draws consumed, or nothing when the draws run out |
| Materials.ReflectProperties | src/rt_material.h:22-24 | about a unit normal, reflect negates the normal component, keeps the squared length and is its own inverse |
| Materials.RefractFails | src/rt_material.h:27-36 | refract fails (the out-parameter is not written) exactly when 1 − η²(1 − dt²) <= 0 |
| Materials.RefractUnit | src/rt_material.h:28-32 | for a non-zero v and a unit normal, a refracted vector has unit length and normal component −sqrt(discriminant) |
| Materials.SchlickEnds | src/rt_material.h:39-43 | schlick(1, ref) = r0 and schlick(0, ref) = 1 |
| Materials.R0Range | src/rt_material.h:40-41 | for ref > 0, r0 = ((1 − ref)/(1 + ref))² lies in [0, 1) |
| Materials.Pow5Range | src/rt_material.h:42 | the fifth power of a value in [0, 1] stays in [0, 1] |
| Materials.SchlickRange | src/rt_material.h:39-43 | for cosine in [0, 1] and ref >= 0 the reflectance lies in [r0, 1] |
| Materials.MakeMetal | src/rt_material.h:52 | the stored fuzz is f when f < 1 and 1 otherwise, so fuzz <= 1 |
| Materials.MetalRule | src/rt_material.h:54-60 | attenuation is albedo; the scattered ray starts at rec.p along reflect(normalize(d), n) + fuzz·sample; it is accepted iff its direction has positive dot with the normal |
| Materials.MirrorAccepts | src/rt_material.h:56-59 | with fuzz 0 and a unit normal, a metal accepts exactly the rays arriving against the normal |
| Materials.LambertianRule | src/rt_material.h:71-77 | diffuse scattering always succeeds, with attenuation albedo, from rec.p along normal + sample |
| RayTracing.ScanOrder | src/rt_raytracing.cpp:30-55 | the scan holds 1 + #spheres + #boxes + #mesh primitives with the ground first |
| RayTracing.ScanOrderAt | src/rt_raytracing.cpp:35-55 | sphere i, box i and triangle i sit at positions 1 + i, 1 + #spheres + i and 1 + #spheres + #boxes + i |
| RayTracing.NearestIsFirstMinimum | src/rt_raytracing.cpp:28-55 | the fold finds a hit iff some report is a hit; that hit is no farther than any report, and every earlier report is strictly farther (the first of equals wins) |
| RayTracing.PrimClip | src/rt_raytracing.cpp:30-50 | every primitive's test against closest_so_far is its full-interval report clipped to that bound |
| RayTracing.PrimReport | src/rt_sphere.h:32-36 | every primitive's report lies in the interval and carries that primitive's material |
| RayTracing.ScanStep | src/rt_raytracing.cpp:36-40 | one step of the loop (test against closest_so_far, keep it on a hit) keeps the first strictly nearer full report |
| RayTracing.Advance | src/rt_raytracing.cpp:30-55 | after one more primitive, hit_anything, rec and closest_so_far describe the nearest report of the longer prefix |
| RayTracing.ScanSpheres | src/rt_raytracing.cpp:35-41 | after the sphere loop the state describes the nearest report among the ground and the spheres; no hit means the record is untouched |
| RayTracing.ScanBoxes | src/rt_raytracing.cpp:42-48 | after the box loop the state describes the nearest report of the scan so far, boxes included |
| RayTracing.ScanMesh | src/rt_raytracing.cpp:49-55 | after the mesh loop the state describes the nearest report of the whole scan |
| RayTracing.HitWorld | src/rt_raytracing.cpp:24-57 | returns true iff the first-found nearest report exists, sets rec to it, and otherwise leaves rec unchanged |
| RayTracing.WorldHitIsNearest | src/rt_raytracing.cpp:24-57 | hit_world hits iff some primitive reports a hit; the hit lies in the interval and is no farther than any primitive's report; it comes from a primitive all of whose predecessors report strictly farther or not at all, and carries that primitive's material |
| RayTracing.ColorOutOfBudget | src/rt_raytracing.cpp:70 | a negative bounce budget gives black |
| RayTracing.ColorShowNormals | src/rt_raytracing.cpp:73-75 | in debug mode a hit gives normalize(normal)·0.5 + 0.5; this lies in [0, 1]³ and does not depend on the random samples |
| RayTracing.ColorAbsorbed | src/rt_raytracing.cpp:79-82 | outside debug mode, a hit with no material or a rejected scatter gives black |
| RayTracing.ColorBounce | src/rt_raytracing.cpp:79-80 | an accepted scatter gives attenuation times the colour of the scattered ray with budget max_bounces − 1 |
| RayTracing.ColorMiss | src/rt_raytracing.cpp:85-88 | on a miss the result is (1 − t)·ground + t·sky with t in [0, 1], whatever the random samples |
| RayTracing.SkyGradient | src/rt_raytracing.cpp:86-88 | for y in [-1, 1], t = 0.5(y + 1) lies in [0, 1]; y = −1 gives the ground colour and y = 1 the sky colour |
| RayTracing.ScatterBounded | src/rt_material.h:58-75 | with albedos in [0, 1] and the dielectric's attenuation in [0, 1], every scatter's attenuation lies in [0, 1] |
| RayTracing.ColorBounded | src/rt_raytracing.cpp:68-89 | with every albedo, the dielectric attenuation and both background colours in [0, 1], every colour returned lies in [0, 1] |
| Accumulation.AtLeastOne | src/rt_raytracing.cpp:168 | glm::max(1, w) is at least 1 and is either w or 1 |
| Accumulation.RenormalizedRange | src/rt_raytracing.cpp:164-169 | the first-frame blend leaves every component, weight included, in [0, 1] |
| Accumulation.RenormalizedWeight | src/rt_raytracing.cpp:168 | an entry of weight >= 1 becomes its clamped average colour with weight exactly 1; a weight in [0, 1] is kept |
| Accumulation.RenormalizedIdempotent | src/rt_raytracing.cpp:164-169 | blending an already blended entry changes nothing |
| Accumulation.EntryAddsSample | src/rt_raytracing.cpp:164-171 | each sample adds its colour to the sum and 1 to the weight; after a blend the weight is in [1, 2], and exactly 2 when the old weight was >= 1 |
| Accumulation.CameraRayInViewport | src/rt_raytracing.cpp:143-155 | a pixel-centre ray starts at the eye and crosses z = −1 strictly inside (−aspect, aspect) × (−1, 1) |
| Accumulation.RowInBounds | src/rt_raytracing.cpp:167 | index y·nx + x of a pixel of row y is inside a buffer of width·height entries |
| Accumulation.LineUpdatedEffect | src/rt_raytracing.cpp:152-171 | updateLine(y) leaves every index outside y·width .. y·width + width − 1 unchanged and adds exactly 1 to each row entry's weight (after the blend when current_frame <= 0) |
| Accumulation.Resized | src/rt_raytracing.cpp:178 | resize keeps the first entries and fills the rest with zero vectors |
| Accumulation.NextCountersCases | src/rt_raytracing.cpp:182-188 | below max_frames a tick moves to the next line, wrapping to line 0 of frame + 1 after the last line; at or above max_frames the counters stay; the line stays in [0, height) and the frame gains at most one |
| Accumulation.FinishFrame | src/rt_raytracing.cpp:182-188 | from line l of an unfinished frame f, height − l ticks lead to line 0 of frame f + 1 |
| Accumulation.ConvergedStays | src/rt_raytracing.cpp:182 | once current_frame >= max_frames, any number of ticks leaves the counters unchanged |
| Accumulation.RTContext.constructor | src/rt_raytracing.h:11-24 | the default settings 500×500, max_frames 1000, max_bounces 3, epsilon 2e-4, the two background colours and show_normals, with an empty image, unfrozen, at frame 0, line 0 |
| Accumulation.RTContext.UpdateLine | src/rt_raytracing.cpp:139-173 | the buffer afterwards is the old one with every entry of row y blended (when current_frame <= 0) and then given one sample of its pixel's colour; nothing else changes |
| Accumulation.RTContext.ResizeImage | src/rt_raytracing.cpp:178 | the buffer becomes the resized old contents; the settings and counters are untouched |
| Accumulation.RTContext.UpdateImage | src/rt_raytracing.cpp:175-189 | when frozen, nothing changes; otherwise the buffer has width·height entries, row current_line % height has been updated as UpdateLine states, the counters take one NextCounters step, and the valid state is kept |
| Accumulation.RTContext.ResetImage | src/rt_raytracing.cpp:191-198 | an all-zero buffer of width·height entries, both counters 0, not frozen, settings unchanged |
| Accumulation.RTContext.ResetAccumulation | src/rt_raytracing.cpp:200-203 | current_frame becomes −1 and nothing else changes |

## Behaviour of the code worth knowing

The model follows the code in each of these cases.

- The first-frame blend of `updateLine` runs whenever `current_frame <= 0`
  (src/rt_raytracing.cpp:164). `resetAccumulation` sets `current_frame` to −1
  (src/rt_raytracing.cpp:202), so after it the blend runs in the pass at frame −1
  and again in the pass at frame 0 that follows; `resetImage` sets frame 0, so
  the blend also runs in the first pass after it. `RenormalizedIdempotent` shows
  that blending a blended entry changes nothing, but each pass also adds a
  sample in between.
- `RTContext` declares `samples_per_pixel` and `enable_gamma_correction`
  (src/rt_raytracing.h:26-27), but `updateLine` reads neither: it adds each
  `color` result once, with weight 1 and no gamma (src/rt_raytracing.cpp:170-171).
- A converged context (`current_frame >= max_frames`) still renders line
  `current_line % height` on every tick (src/rt_raytracing.cpp:180). Only the
  counters stop, so that one row keeps accumulating samples.
  `Accumulation.RTContext.UpdateImage` states both.
- `Sphere::hit` misses a tangent ray: it requires a strictly positive
  discriminant (src/rt_sphere.h:28), so a ray touching the sphere at a single
  in-range point is not reported. `Spheres.HitComplete` therefore requires a
  positive discriminant.
- `Triangle` is the sphere test on a centre and a radius
  (src/rt_triangle.h:10-11, 19-39). `setupScene` constructs triangles from three
  vertices and a material (src/rt_raytracing.cpp:134), which matches no
  constructor in rt_triangle.h. The model follows rt_triangle.h; `setupScene` is
  left out.
- `HitRecord` declares `mat_ptr` (src/rt_hitable.h:19), while the code writes and
  reads `rec.material` (src/rt_sphere.h:36, src/rt_raytracing.cpp:79). The model
  has one field, `material`.
- The `Metal` constructor caps the fuzz at 1 only from above
  (src/rt_material.h:52): a negative fuzz is stored as given.

## Left out

- `setupScene` (src/rt_raytracing.cpp:92-136): it loads an OBJ file, allocates
  shared materials and fills the global scene. This is I/O and library code, so
  the scene is an explicit parameter.
- rt_ray.h and rt_box.h are not part of this model. `point_at_parameter` is taken
  to be `origin + t·direction`.
- The box hit test is the oracle `boxHit`. `BoxHitContract` requires of it what
  every `hit` in the model provides: a reported t in the open interval, the box's
  own material, and stability when the upper bound is lowered.
- The dielectric scatter rule is the oracle `dielectric`: rt_material.h defines
  no `Dielectric` (its last class, `Lambertian`, ends at line 80), though
  src/rt_raytracing.cpp:100 constructs one. `ColorBounded` requires its
  attenuation to lie in [0, 1].
- RayTracing.Oracles: the `dielectric` oracle is deterministic in its arguments
  (refraction index, ray, record) and receives no random draw, so the random
  reflect-or-refract choice a dielectric makes is not modelled: two bounces with
  equal ray and record scatter the same way.
- The `Material` base class and its virtual dispatch are the datatype `Material`
  with one variant per material. The hit record holds the material value
  (`Option<Material>`), not a `Material*` or an index into the scene's list.
- The camera's `glm::inverse(rtx.view)` and the homogeneous transform
  (src/rt_raytracing.cpp:148, 156-157) are the parameter `world: Vec4 -> Vec4`;
  no matrix algebra is modelled. The `view` matrix field is therefore not part of
  `RTContext`.
- `drand48`: its distribution and its global state are not modelled.
  `RandomInUnitSphere` reads a finite sequence of draws. `Color` gets
  random_in_unit_sphere's value for each bounce from `sample`, indexed by the
  remaining budget. `UpdateLine` gets one such function per pixel.
- Materials.RandomInUnitSphere: returns no point when the finite sequence runs
  out; the source loops until it accepts a candidate. Termination of the
  rejection loop is not proved. It also takes the three draws of a group as x, y
  and z in that order, as `Materials.FirstInBallIsFirst` does.
- Materials.FirstInBallIsFirst: the model fixes left-to-right evaluation of the
  three `drand48()` arguments of `glm::vec3` (src/rt_material.h:16). C++ leaves
  that order unspecified, so the accepted point is `Block(draws, k)` only up to a
  permutation of its coordinates; `InsideBall`, `CandidateRange` and the
  multiple-of-three count do not depend on the order.
- IEEE float rounding, NaN and infinities. Everything is over `real`:
  - `glm::normalize` of the zero vector, which is NaN in glm, returns the zero
    vector;
  - `pow` is the exact fifth power;
  - `int` overflow of `width * height`, `y * nx + x` and the counters is not
    modelled.
- Materials.R0: requires ref_idx != −1, where the source's float division gives
  an infinity or NaN.
- PixelColor and CameraRay: require width > 0 and height > 0, since
  `float(nx) / float(ny)` divides by zero otherwise.
- Accumulation.RTContext.UpdateImage: requires (unless frozen) width >= 0,
  height > 0 and current_line >= 0. Otherwise `resize` of a negative size, `%`
  by zero, or a negative C++ remainder would index out of bounds.
- Accumulation.RTContext.ResetImage: requires width·height >= 0, since a
  negative size cannot be allocated; `std::vector::resize` of a negative
  `int` converts it to a huge unsigned size.
- Accumulation.RTContext.UpdateLine: requires the buffer to already hold
  width·height entries, which `updateImage` guarantees by resizing first.
- RayTracing.ColorShowNormals: the debug-mode result is proved independent
  of the random samples. Independence from the dielectric oracle holds by
  construction, since `Color` returns before any scatter call, but is not stated
  as a lemma.
- RayTracing.HitWorld: the caller's uninitialised `temp_rec` has no counterpart;
  a miss returns the caller's record `rec0` unchanged.
- The commented-out OpenMP pragma (src/rt_raytracing.cpp:151): concurrency is out
  of scope.
- The unused `RTContext` settings `samples_per_pixel`, `enable_gamma_correction`,
  `metallic_roughness` and `material_intensity` (src/rt_raytracing.h:26-29): the
  code never reads them.
- The scene's `mesh_bbox` and `materials` are kept in `Scene`, but nothing
  modelled here reads them.
