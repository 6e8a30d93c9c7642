# Pathtracer core, modelled in Dafny

This project models the renderer class of the Pathtracer repository, `src/PathtracerRunner.java`. It covers four things:

- **The Halton sampler.** `halton` advances the shared sample index `HI` and returns the radical inverse of the old index in the given base.
- **The recursive path tracer.** `trace` does the following:
  - it stops at depth 4;
  - it picks the nearest sphere the ray hits, scanning for the smallest positive distance below `Double.MAX_VALUE`, with the first index winning ties;
  - it moves the ray to the hit point and adds the sphere's emission to the accumulator;
  - for a diffuse, specular or refractive material, it sends the ray one level deeper and adds what comes back, weighted by the material.
- **The tone mapper.** `drawPixels` finds the per-channel brightest and darkest values of the frame. It then turns each pixel into a glyph index and the index of the nearest palette color.
- **`setColors`**, which fills the nine-entry palette table.

The files:

- `vectors.dfy` (module `Vectors`): the three-component real vector used for points, directions and colors, and `Double.MAX_VALUE` written out exactly.
- `sampler.dfy` (module `Sampler`): the radical inverse as a function, its digit-reversal characterisation, its bounds, and one iteration of the sampler loop.
- `tracing.dfy` (module `Tracing`): spheres and materials, and the nearest-hit scan with its specification `IsNearest`. Also the predicate `TracedPath`, which says which sequence of bounces a trace follows, and `Radiance`, what such a path gathers.
- `tonemap.dfy` (module `ToneMap`): the brightest and darkest scans as folds over a channel's values, the glyph index, and the palette with its nearest-color scan.
- `runner.dfy` (module `Runner`): the class `PathtracerRunner` with the fields `HI`, `colors` and `pixels`, and the mutable `Ray` and `Vector` objects the tracer updates in place.

`Trace` has a ghost result: the path of bounces it followed. Its contract ties the new state to that path:

- the path satisfies `TracedPath` for the old ray and the old sample index;
- the accumulator grows by `Radiance(path)`;
- the ray ends at the last bounce's hit point and outgoing direction;
- `HI` grows by two for each diffuse bounce.

Two kinds of operation are parameters:

- The sphere intersection, the surface normal and the hemisphere sample are function fields of the `Externals` value.
- The logarithmic tone curve `globalHDRMap` is the function parameter `hdr` of `DrawPixels`.

## Model

| member | source | states |
|---|---|---|
| Runner.PathtracerRunner.Halton | src/PathtracerRunner.java:28-41 | The returned sample is the radical inverse of the old index in base `b`. The index advances by exactly one. The sample lies in [0, 1), and is strictly positive when the old index is at least 1. |
| Sampler.DigitStep | src/PathtracerRunner.java:33-37 | One iteration of the sampler loop. The index strictly decreases, the weight stays positive, and r + f * (radical inverse of i) is unchanged. |
| Sampler.RadicalInverseBounds | src/PathtracerRunner.java:28-41 | The radical inverse lies in [0, 1), and is strictly positive for an index of at least 1. |
| Sampler.RadicalInverseIsDigitReversal | src/PathtracerRunner.java:33-37 | The radical inverse of n is the number whose base-b digits are those of n reversed, divided by b to the number of digits. |
| Sampler.DigitsRoundTrip | src/PathtracerRunner.java:33-37 | The digits the loop extracts are all below the base and add back up to the index. |
| Sampler.BaseTwoPrefix | src/PathtracerRunner.java:28-41 | In base 2, indices 1 to 6 give 0.5, 0.25, 0.75, 0.125, 0.625, 0.375. |
| Tracing.NearestUpTo | src/PathtracerRunner.java:62-69 | The scan's index after k spheres is -1 or below k. When it is an index, that sphere's distance is a hit: positive and below `Double.MAX_VALUE`. |
| Tracing.NearestHit | src/PathtracerRunner.java:62-69 | The scan loop returns the index its specification function gives. `mint` stays `Double.MAX_VALUE` on a miss and is that sphere's distance otherwise. |
| Tracing.NearestUpToIsNearest | src/PathtracerRunner.java:66-69 | After k spheres, the scan holds the nearest hit among them. |
| Tracing.NearestIndexIsNearest | src/PathtracerRunner.java:62-71 | The scan finds the nearest hit: -1 exactly when no distance is a hit, otherwise the least hit distance, and the earliest index among equal ones. |
| Tracing.NearestIsUnique | src/PathtracerRunner.java:62-71 | The nearest-hit specification determines the index: two indices that both satisfy it are equal. |
| Runner.PathtracerRunner.Trace | src/PathtracerRunner.java:59-134 | The trace follows a path that satisfies `TracedPath`: nothing at depth 4 or on a miss; otherwise the nearest hit, the hit point origin + direction * mint, the unit normal there, the diffuse direction from the next two samples, and one level deeper for scattering materials. The accumulator grows by that path's radiance, emission first. The ray ends at the last bounce. HI grows by 2 per diffuse bounce. |
| Runner.PathtracerRunner.TraceHit | src/PathtracerRunner.java:73-133 | After the hit on sphere `id` at distance `mint`, the same four facts as `Trace`, with the bounce at that hit as the first step of the path. |
| Runner.PathtracerRunner.Scatter | src/PathtracerRunner.java:78-133 | A diffuse bounce leaves along normal + hemisphere(sample(HI, 3), sample(HI + 1, 2)). The deeper trace from the hit point follows a traced path at depth + 1. What it gathers comes back scaled by the material: color times cos * 0.1 (diffuse), unchanged (specular), times 1.15 (refractive). |
| Runner.PathtracerRunner.DiffuseDirection | src/PathtracerRunner.java:79 | The diffuse direction is the normal plus the hemisphere sample of the next base-3 and base-2 samples, and it uses up two indices. |
| Runner.PathtracerRunner.TraceDeeper | src/PathtracerRunner.java:81-84 | The recursive call into a fresh zero accumulator: it returns exactly the radiance of the deeper path. |
| Tracing.HitPath | src/PathtracerRunner.java:73-133 | After a hit, the first bounce followed by the deeper path is a traced path. The accumulator has grown by emission first, then the weighted deeper radiance, which is that path's radiance. The ray and the sample index end as that path says. |
| Tracing.PathIsShort | src/PathtracerRunner.java:59-60 | A traced path is empty at depth 4 or more, and has at most 4 - depth bounces otherwise. So the recursion is at most four levels deep. There are no more diffuse bounces than bounces. |
| Tracing.EmptySceneIsBlack | src/PathtracerRunner.java:66-71 | With no spheres the trace returns at once and gathers nothing. |
| Tracing.MissIsBlack | src/PathtracerRunner.java:62-71 | On a ray that hits no sphere (no distance in (0, `Double.MAX_VALUE`)), the trace follows no bounce. It gathers nothing and leaves the ray and the sample index unchanged. |
| Tracing.NoEmissionIsBlack | src/PathtracerRunner.java:76-133 | A path on which no sphere emits gathers zero radiance, whatever the materials' weights. |
| ToneMap.BrightestIsClampedMax | src/PathtracerRunner.java:142-162 | The brightest value of a channel is max(0, largest value): non-negative, no value exceeds it, and unless it is 0 some value equals it. |
| ToneMap.DarkestIsClampedMin | src/PathtracerRunner.java:143-165 | The darkest value of a channel lies in [0, `Double.MAX_VALUE`] and is at most max(0, v) for every value v. Unless it is still `Double.MAX_VALUE`, it equals max(0, v) for some v. |
| ToneMap.DarkestBelowBrightest | src/PathtracerRunner.java:142-166 | For a non-empty frame, 0 <= darkest <= brightest in every channel. |
| ToneMap.UniformFrameBounds | src/PathtracerRunner.java:142-166 | A channel with the same value v everywhere (v <= `Double.MAX_VALUE`) has brightest == darkest == max(0, v). |
| ToneMap.BoundsMeet | src/PathtracerRunner.java:137-166 | For a non-empty channel whose values are at most `Double.MAX_VALUE`, brightest == darkest (the case in which the logarithmic map divides 0 by 0) holds exactly when every value is at most 0 or all values are equal. |
| Runner.ScanStep | src/PathtracerRunner.java:150-166 | Scanning one more pixel updates a channel's bounds with that pixel's value: max for brightest, min and then a reset of negatives to 0 for darkest. |
| Runner.ScannedHolds | src/PathtracerRunner.java:147-149 | Every pixel in the scanned part of the frame contributes its channel value to the scan. |
| Runner.ScannedFrom | src/PathtracerRunner.java:147-149 | Every scanned value of a channel is that channel of some pixel of the frame. |
| Runner.FrameBounds | src/PathtracerRunner.java:142-170 | Over the whole frame, in each channel, no pixel exceeds the brightest value. The darkest value is at most any pixel's value clamped at 0, and 0 <= darkest <= brightest. |
| Runner.FrameBoundsReached | src/PathtracerRunner.java:142-170 | The bounds are reached: per channel, brightest is 0 or some pixel's value, and darkest is `Double.MAX_VALUE` (an empty frame) or some pixel's value clamped at 0. |
| Runner.PathtracerRunner.FindBounds | src/PathtracerRunner.java:142-170 | The bounds loop returns, per channel, the brightest and darkest folds over every pixel in row-by-row order. |
| ToneMap.BandWidth | src/PathtracerRunner.java:183 | 255 divided by the 96-character glyph ramp, in integer division, is 2. |
| ToneMap.GlyphIndexRange | src/PathtracerRunner.java:183-184 | The glyph index never passes the last glyph. It is a valid index exactly when the grayscale value is above -2, since there is no lower clamp. |
| ToneMap.GlyphIndexMonotone | src/PathtracerRunner.java:183-184 | A brighter grayscale never selects a darker glyph. |
| ToneMap.NearestColor | src/PathtracerRunner.java:186-191 | The palette scan returns the entry at least squared distance, the earliest among equal ones. It returns 0 when no distance is below `Double.MAX_VALUE`. |
| ToneMap.PaletteEntryIsItsOwnNearest | src/PathtracerRunner.java:186-211 | A pixel equal to a palette entry is mapped to that entry's index. |
| Runner.PathtracerRunner.DrawPixels | src/PathtracerRunner.java:140-197 | One cell per pixel, rows in frame order. Each cell holds the glyph index of the pixel's grayscale (mapped with the frame's darkest and brightest values) and the index of the nearest palette color to the raw pixel. |
| Runner.PathtracerRunner.SetColors | src/PathtracerRunner.java:201-211 | The nine-entry palette table holds the nine fixed colors in order, and nothing else changes. |
| Runner.PathtracerRunner.AddSample | src/PathtracerRunner.java:259 | One pixel grows by the sample divided by the 1024 samples per pixel. Every other pixel is unchanged. |
| Runner.PathtracerRunner.constructor | src/PathtracerRunner.java:4-19 | The sample index starts at 1, and the table and frame have the sizes `Valid` names. There is a nine-entry palette table and a 500 x 500 frame of zero vectors, as `setup` leaves it (lines 214-218). |
| Runner.Vector.Add | src/PathtracerRunner.java:76 | Adding to an accumulator adds component-wise. |
| Runner.Vector.constructor | src/PathtracerRunner.java:81 | A fresh accumulator is the zero vector. |

## Left out

- Console output (lines 193-195): `DrawPixels` returns the cells instead of printing them. The ANSI color escape and the doubled glyph are not modelled.
- `DrawPixels` does not model the exception `charAt` throws at line 193 for a negative glyph index. `ToneMap.GlyphIndexRange` states exactly when the index is negative: grayscale at or below -2.
- ToneMap.Truncate: Java's `(int)` cast saturates at `Integer.MIN_VALUE` and `Integer.MAX_VALUE`, but `Truncate` does not. This matters only far outside the ramp's range, where the upper clamp or the negative index already applies.
- `globalHDRMap` (lines 136-138) uses `Math.log` on doubles. It is the function parameter `hdr`, so the 0/0 it produces when a channel's darkest and brightest values coincide is not modelled. `ToneMap.BoundsMeet` states exactly when that happens.
- `ofProjection`, `setup`'s scene literals, `draw`'s sampling loop with its random jitter, and `main` (lines 21-26, 43-51, 213-265) are not modelled, except `AddSample`, the per-sample pixel update at line 259.
- `hemisphere` (lines 53-57) uses trigonometry on doubles. It is the function field `Externals.hemisphere`.
- The specular and refractive direction arithmetic (lines 88-95 and 103-128) is not modelled. It includes Schlick's reflectance, `Math.pow`, `Math.sqrt`, `Math.random` and `Vector.random3D`. `Scatter` sets the direction to an arbitrary value, so only what follows from the direction is modelled.
- `Vector.java`, `Ray.java`, `Sphere.java` and `Material.java` are not part of this model.
  - `Sphere.intersection` and `surfaceNormal(...).norm()` are the function fields `Externals.intersect` and `Externals.normal`.
  - `Vector` operations are the exact component-wise operations of `Vectors.Vec3`.
  - The mutable ray and accumulator are the classes `Runner.Ray` and `Runner.Vector`. No ray is created in the model, because `draw` is not modelled.
- The unused `average` accumulation (lines 144-145, 168) is not modelled.
- Doubles are exact reals throughout. Rounding, infinities and NaN are not modelled. `Double.MAX_VALUE` is kept as an exact constant wherever the source starts a minimum scan with it.
- Runner.PathtracerRunner.Halton: the base is an integer of at least 2, where the source takes a double. The source calls it only with 3 and 2. Its loop would not terminate for a base of 1.
- Runner.PathtracerRunner.Halton: `HI` is an unbounded integer. A full render draws at most 500 * 500 * 1024 * 8 samples, which is below 2^31, so the source's `int` does not wrap.
- Runner.PathtracerRunner.SetColors: the palette is an array of RGB triples. The source's table is `new int[9][4]`, whose rows `setColors` replaces with three-element arrays.
- Runner.PathtracerRunner.Trace: the path it returns is ghost. The aliasing of the source's mutable vectors (the normal `N` scaled in place in the specular and refractive branches) is not modelled, because those values are not used afterwards.
