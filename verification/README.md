# ceres-raytracer core in Dafny

This project models the deterministic core of the ceres-raytracer, a path
tracer and lidar simulator for planetary-science scenes.

- **Rendering.** It covers the per-pixel adaptive sampling loop with its
  running mean and early exit, and the bounce loop with its miss exit, its
  clamp from the second bounce on and its normal-visualisation fallback.
  It also covers the RGBA float buffer, the 8-bit and 16-bit quantisation,
  and the intersection pass.
- **Cameras and lights.** The pinhole camera's intrinsics, `pixel_to_ray`
  with its transpose-rotation convention, the capped point light, and the
  square light with its cached sample point.
- **Geometry.** Vector and triangle transforms, the `Entity` pose setters
  that bake the pose into the vertices, material selection, and
  `load_model`. Also the UV maps, including the image map's unchecked texel
  index.
- **Ranging.** `do_lidar` and the single-beam `SimpleLidar`.
- **Configuration.** The `SceneConfig` reader: bracketed list parsing,
  defaults, section-prefix dispatch, and the quaternion that is always
  overwritten.
- **The CRTB container.** The `.crtb` header and block layout of the mesh
  tools, `read_obj` grouping and `print_faces`.
- **The body-fixed frame.** The `BodyFixedEntity` record and the re-posing
  of camera and lights that `BodyFixedGroup.render` and `normal_pass` do.

**How the model is built.**

- Every scalar is a `real`.
- `length`, `normalize` and `sqrt` are an oracle record, `LinAlg.Numerics`.
  `LinAlg.Sound` states what a faithful implementation satisfies, and it
  is used only as a lemma hypothesis.
- Other code the core calls is a function-typed parameter:
  - the BVH's closest-hit and any-hit queries (`Integrator.Tracer`);
  - material `compute`/`sample` (`Integrator.Shader`);
  - the random draws, keyed by pixel, sample, bounce and light
    (`Integrator.Draws`);
  - the OBJ loader (`Entities.Loader`);
  - the INI reader's conversions (`Config.Parsers`);
  - Euler and quaternion conversions (`Config.Rotations`);
  - `do_render` (`Scenes.Tracing`);
  - zstd and the `double` byte codec (`Crtb.Codecs`).
- Storage the source leaves uninitialised comes in as an explicit `unset`
  argument.
- Undefined behaviour is reported as `None` or `Err` instead of being given
  a value. This covers division by zero, reading past an array, and
  `fread` from a short file.

Modules follow the source files:

| module | source |
|---|---|
| `LinAlg`, `Geometry`, `Wrappers` | vectors, matrices, rays, triangles, `Option`/`Result` |
| `Transform` | `src/crt/transform.hpp` |
| `Cameras` | `src/crt/cameras.hpp` |
| `Lighting` | `src/crt/lighting.hpp` |
| `UVMaps` | `src/crt/materials/uvmaps.hpp` |
| `Entities` | `src/crt/entity.hpp` |
| `LoadModel` | `src/crt/load_model.hpp` |
| `Integrator`, `Sampler`, `Renderer` | `src/crt/ray_tracer.hpp` |
| `CeresRender` | `src/crt/ceres_ray_tracer.hpp` |
| `Scenes` | `src/crt/scene.hpp` |
| `Lidars` | `src/crt/do_lidar.hpp`, `src/crt/lidars/simple_lidar.hpp` |
| `Text`, `Config` | `src/crt/sceneconfig.hpp` |
| `Crtb` | `binary_test/crtb_file.cpp` |
| `BodyFixed` | `src/crt/rendering_body_fixed/body_fixed_entity.hpp`, `crt/body_fixed.py` |

**Decisions where the source is inconsistent.**

- `entity.hpp` calls `resize_triangles` and `rotate_triangles` with one
  argument fewer than `transform.hpp` declares. The model uses the origin
  as the pivot of those calls. `set_rotation` therefore turns the mesh about
  the stored position, through its own un-translate and re-translate.
- `PinholeCamera` declares its own `center`, `scale` and `K`, which shadow
  the base class fields. Only the subclass values are modelled.
- `load_model.hpp:59` calls `Entity(triangles, path_to_model, smooth, color)`,
  a four-argument constructor that `entity.hpp` does not declare. Its only
  constructor is the three-argument one at `entity.hpp:34`, which loads the
  path itself. The model takes the already placed triangles as the mesh. It
  sets their parents and one coloured material, as the path constructor
  does, and leaves the pose unset.

**Behaviour of the code worth noting.**

- The shading point is moved back along the face normal whatever the
  direction of the incoming ray.
- `SimpleLidar::cast_rays` returns one ray, whatever the number of rays
  asked for.
- With `max_samples` below 1 the sample loop does not run, and the pixel
  stays black with a count of 0.
- A camera with a zero sensor dimension or zero resolution divides by zero.
  The model reports that as `None`.

## Model

| member | source | states |
|---|---|---|
| LinAlg.NormalizeIsUnit | src/crt/cameras.hpp:101 | a sound `normalize` of a non-zero vector has unit squared length |
| Transform.Resize | src/crt/transform.hpp:9-14 | every component is multiplied by the scale |
| Transform.Translate | src/crt/transform.hpp:17-19 | every component is the sum of the two inputs' components |
| Transform.Rotate | src/crt/transform.hpp:22-28 | component i is row i of the matrix dotted with the vector |
| Transform.TransformIsComposition | src/crt/transform.hpp:31-40 | `transform(v, R, p, s)` is `translate(rotate(resize(v, s), R), p)` |
| Transform.TranslateInverse | src/crt/transform.hpp:17-19 | translating by p and then by -p gives the vector back |
| Transform.TranslateTwice | src/crt/transform.hpp:17-19 | translating by p then q is translating by p + q |
| Transform.TranslateTriangles | src/crt/transform.hpp:66-76 | same count and order; each vertex shifted by p; normals, colours, uvs and parent unchanged |
| Transform.RotateTriangles | src/crt/transform.hpp:79-105 | same count and order; vertices rotated about the pivot; vertex normals rotated without translation; the rest unchanged |
| Transform.ResizeTriangles | src/crt/transform.hpp:43-63 | same count and order; vertices scaled about the pivot; normals untouched |
| Transform.RotateAboutFixesPivot | src/crt/transform.hpp:79-95 | a vertex at the pivot stays where it is under rotation |
| Transform.ResizeAboutFixedPoints | src/crt/transform.hpp:43-58 | the pivot is fixed by resizing, and scale 1 fixes every point |
| Transform.ResizeAboutInverse | src/crt/transform.hpp:43-58 | resizing by s and then by 1/s about the same pivot is the identity |
| Transform.RotateAboutInverse | src/crt/transform.hpp:79-95 | for orthonormal R, rotating by R^T and then by R about the same pivot is the identity |
| Transform.FaceNormalTranslationInvariant | src/crt/transform.hpp:66-76 | translating a triangle's vertices leaves its face normal unchanged |
| Transform.TranslateTrianglesInverse | src/crt/transform.hpp:66-76 | translating all triangles by p and then by -p restores them |
| Transform.TranslateTrianglesTwice | src/crt/transform.hpp:66-76 | two triangle translations compose into one by the sum |
| Transform.RotateTrianglesInverse | src/crt/transform.hpp:79-105 | for orthonormal R, rotating all triangles by R^T then R about the same pivot restores them, normals included |
| Transform.ResizeTrianglesUnit | src/crt/transform.hpp:43-63 | resizing by 1 leaves every triangle unchanged |
| Cameras.NewPinhole | src/crt/cameras.hpp:56-89 | center = res/2, scale x sensor = res, K = [[f,0,cx],[0,f,cy],[0,0,1]], pose at the origin with identity rotation; `None` exactly when a sensor dimension is 0 |
| Cameras.SetPosition | src/crt/cameras.hpp:25-27 | stores the position; rotation and intrinsics unchanged |
| Cameras.SetRotation | src/crt/cameras.hpp:33-39 | stores the rotation; position and intrinsics unchanged |
| Cameras.SetPose | src/crt/cameras.hpp:41-44 | stores position and rotation; intrinsics unchanged |
| Cameras.SetPoseEitherOrder | src/crt/cameras.hpp:41-44 | the two setters give the same camera in either order |
| Cameras.CameraDirection | src/crt/cameras.hpp:101 | the camera-frame direction satisfies sx·dx = u - cx, sy·dy = cy - v, dz = -f |
| Cameras.PixelToRay | src/crt/cameras.hpp:99-114 | origin is the camera position; for an orthonormal R, R times the direction is the normalised camera-frame direction (so the direction is R^T of it); `None` exactly on a zero pixel scale |
| Cameras.Project | src/crt/cameras.hpp:99-108 | the inverse projection is defined exactly when the direction has non-zero camera-frame depth |
| Cameras.ImageOf | src/crt/cameras.hpp:99-108 | a camera-frame direction has a pixel image exactly when its depth is non-zero |
| Cameras.PixelRayIsUnit | src/crt/cameras.hpp:99-108 | with a sound `normalize`, orthonormal R and f != 0, every ray direction has unit length |
| Cameras.PrincipalRay | src/crt/cameras.hpp:99-108 | the ray through the principal point points along the negated third row of R |
| Cameras.ProjectPixelRay | src/crt/cameras.hpp:99-108 | projecting the ray through (u, v) gives (u, v) back: `pixel_to_ray` inverts the pinhole projection |
| Cameras.ImageOfScaledDirection | src/crt/cameras.hpp:101 | every non-zero multiple of the camera-frame direction through (u, v) images to (u, v) |
| Lighting.NewPointLight | src/crt/lighting.hpp:44-46 | a point light with the given intensity; the pose is whatever storage held |
| Lighting.CopyPointLight | src/crt/lighting.hpp:49-52 | copies intensity and position only; the rotation is left uninitialised |
| Lighting.NewSquareLight | src/crt/lighting.hpp:74-84 | stores size and intensity; the pose and the sampled point are left uninitialised |
| Lighting.SetPosition | src/crt/lighting.hpp:21-23 | the position becomes the argument; rotation, intensity, kind, size and sampled point stay as they were |
| Lighting.SetRotation | src/crt/lighting.hpp:25-31 | the rotation becomes the argument; position, intensity, kind, size and sampled point stay as they were |
| Lighting.SetPose | src/crt/lighting.hpp:33-36 | sets both; intensity, kind, size and sampled point unchanged |
| Lighting.SetPoseEitherOrder | src/crt/lighting.hpp:33-36 | the two setters give the same light in either order |
| Lighting.LocalSample | src/crt/lighting.hpp:88-90 | the local point is (s0·r0 - s0/2, s1·r1 - s1/2, 0) |
| Lighting.LocalSampleInSquare | src/crt/lighting.hpp:88-90 | draws in [0,1) select a point in [-s/2, s/2) on each axis |
| Lighting.SquareCentreSample | src/crt/lighting.hpp:88-95 | the draw (1/2, 1/2) selects the light's position |
| Lighting.SampleInLightPlane | src/crt/lighting.hpp:88-95 | for an orthonormal R the sampled point lies in the light's plane at the local sample's distance from the position |
| Lighting.SampleRay | src/crt/lighting.hpp:86-102 | the ray keeps the origin and has tmin 0; direction and tmax are towards and up to the target; a square light caches the new target and a point light is unchanged |
| Lighting.ShadowRayEndsOnLight | src/crt/lighting.hpp:54-57 | with sound numerics, origin + tmax·direction is the target and the direction is a unit vector |
| Lighting.GetIntensity | src/crt/lighting.hpp:59-61 | intensity times squared distance is I, except the point light's cap at 10000, which it never exceeds; `None` exactly for a zero distance the cap does not absorb |
| Lighting.PointLightFallsOff | src/crt/lighting.hpp:59-61 | for I >= 0 the point light is never brighter at a greater distance |
| Lighting.SquareIntensityFollowsSample | src/crt/lighting.hpp:95-106 | after `sample_ray`, the square light's intensity is measured from the newly sampled point |
| Geometry.MaterialAt | src/crt/entity.hpp:92-94 | the material is the one the UV map's index selects, and is `None` exactly when that index is out of range |
| UVMaps.ToSize | src/crt/materials/uvmaps.hpp:36-37 | the `size_t` cast truncates toward zero; a value at or below -1 is undefined |
| UVMaps.ImageAt | src/crt/materials/uvmaps.hpp:35-46 | channels are byte/255 in [0, 1]; defined only when both texel coordinates are |
| UVMaps.ClampedImageAt | src/crt/materials/uvmaps.hpp:35-46 | the bounds-checked read: channels in [0, 1] |
| UVMaps.ImageIndexAt | src/crt/materials/uvmaps.hpp:55-59 | the index is defined exactly when the image read is; it is the red channel times `range` rounded to nearest (the floor of c·range + 0.5), and never exceeds `range` |
| UVMaps.TexelInside | src/crt/materials/uvmaps.hpp:39-45 | for x < w and y < h the texel's four bytes lie inside the pixel buffer |
| UVMaps.TexelIndexInBounds | src/crt/materials/uvmaps.hpp:39-45 | idx + 2 is inside the buffer exactly when w·y + x < w·h |
| UVMaps.ImageIndexInside | src/crt/materials/uvmaps.hpp:55-59 | inside the image the index is the texel's red byte over 255, times `range`, rounded to nearest |
| UVMaps.ImageAtInside | src/crt/materials/uvmaps.hpp:35-46 | inside the image the read is the texel's three channels divided by 255 |
| UVMaps.ClampedImageAtTotal | src/crt/materials/uvmaps.hpp:35-46 | the bounds-checked read is defined for every non-negative (u, v) of a non-empty image |
| UVMaps.ClampedAgreesInside | src/crt/materials/uvmaps.hpp:35-46 | inside the image the bounds-checked read equals the unchecked one |
| UVMaps.ImageAtReadsPastEnd | src/crt/materials/uvmaps.hpp:36-45 | u = v = 1 on a 2x2 image indexes past the buffer |
| UVMaps.ImageAtWrapsToNextRow | src/crt/materials/uvmaps.hpp:36-45 | u = 1 with v = 0 on a 2x2 image reads the first texel of the next row |
| Entities.FileName | src/crt/entity.hpp:37 | the file name is the slash-free suffix after the last '/' |
| Entities.LastDot | src/crt/entity.hpp:37 | the position of the last '.', or `None` when there is none |
| Entities.NameExtension | src/crt/entity.hpp:37 | the extension is empty or a dot-led suffix of the name |
| Entities.Extension | src/crt/entity.hpp:37 | the extension is empty or starts with '.', and holds no '/' |
| Entities.ToLower | src/crt/entity.hpp:38 | same length; upper-case ASCII letters lowered, every other character kept |
| Entities.FileNameWithoutSlash | src/crt/entity.hpp:37 | a slash-free path is its own file name |
| Entities.FileNameAfterSlash | src/crt/entity.hpp:37 | the file name of dir/name is name |
| Entities.LastDotOf | src/crt/entity.hpp:37 | the last dot of stem.ext is the one before ext |
| Entities.ExtensionAfterDot | src/crt/entity.hpp:37 | the extension of dir/stem.ext is ".ext" |
| Entities.NameExtensionAfterDot | src/crt/entity.hpp:37 | the extension of the name stem.ext is ".ext" |
| Entities.ObjPathByExtension | src/crt/entity.hpp:37-39 | dir/stem.ext is loaded exactly when ext lower-cases to "obj" |
| Entities.LowerDotted | src/crt/entity.hpp:38-39 | ".ext" lower-cases to ".obj" exactly when ext lower-cases to "obj" |
| Entities.HiddenFileRefused | src/crt/entity.hpp:37-45 | a dot-file such as dir/.obj has an empty extension and loads nothing |
| Entities.UpperCaseObj | src/crt/entity.hpp:38-39 | "OBJ" lower-cases to "obj", so .OBJ files load |
| Entities.Adopt | src/crt/entity.hpp:48-51 | same triangles in the same order, each with this entity as parent |
| Entities.NewEntity | src/crt/entity.hpp:34-58 | an .obj path gives the loaded triangles in order, parented here; any other extension gives none; one coloured Lambertian material with constant map 0 |
| Entities.NewEntityMaterial | src/crt/entity.hpp:53-57 | `get_material` of a new entity is its coloured Lambertian material for every (u, v) |
| Entities.NewEntityParents | src/crt/entity.hpp:48-51 | every triangle of a new entity has the entity's surface as parent |
| Entities.SetScale | src/crt/entity.hpp:60-63 | stores the scale; every vertex scaled about the origin; normals untouched; pose otherwise unchanged |
| Entities.SetPosition | src/crt/entity.hpp:65-68 | stores p and shifts every triangle by p |
| Entities.SetRotation | src/crt/entity.hpp:70-81 | stores R; same triangle count; position, scale and surface unchanged |
| Entities.SetPose | src/crt/entity.hpp:83-86 | stores p and R; same triangle count; scale and surface unchanged |
| Entities.SetPositionTwice | src/crt/entity.hpp:65-68 | positions are relative: two calls shift by the sum, and the last one is stored |
| Entities.SetRotationAboutPosition | src/crt/entity.hpp:70-81 | the rotation turns the mesh about the stored position |
| Entities.ScalePositionRotation | src/crt/entity.hpp:60-81 | scale, then position, then rotation places each vertex at `transform(v, R, p, s)` |
| Entities.SetPosePlacesMesh | src/crt/entity.hpp:83-86 | `set_pose` places each vertex at `transform(v, R, p, 1)` |
| LoadModel.Load | src/crt/load_model.hpp:12-62 | exactly one entity; an .obj path gives the loaded triangles in order; vertices transformed, normals only rotated, colours and uvs copied |
| LoadModel.LoadAgreesWithSetters | src/crt/load_model.hpp:31-56 | the loaded mesh equals a new entity given scale, position and rotation in that order |
| Integrator.ShadingNormal | src/crt/ray_tracer.hpp:164-171 | the normalised interpolated vertex normal when smooth shaded, else the normalised face normal |
| Integrator.ShadeAt | src/crt/ray_tracer.hpp:160-178 | the shading point is the hit point moved back by 0.0001 along the face normal, with the material the interpolated uv selects; `None` when the hit names no triangle, no parent or no material |
| Integrator.ShadingPointOffset | src/crt/ray_tracer.hpp:176-178 | with sound numerics, the shading point lies exactly 0.0001 behind the hit point |
| Integrator.Illumination | src/crt/ray_tracer.hpp:32-41 | black when the shadow ray is blocked, otherwise the material's `compute` |
| Integrator.DirectLight | src/crt/ray_tracer.hpp:181-188 | defined exactly when every light's term is; the sum of the terms in light order |
| Integrator.ClampColor | src/crt/ray_tracer.hpp:190-194 | every channel in [0, 1], and a colour already there is unchanged |
| Integrator.Gather | src/crt/ray_tracer.hpp:181-194 | the direct light, clamped into the unit cube from bounce 1 on |
| Integrator.NextRay | src/crt/ray_tracer.hpp:205-206 | the next ray starts at the shading point with an unbounded range |
| Integrator.NormalVisual | src/crt/ray_tracer.hpp:141-151 | black on a miss, otherwise the absolute shading normal, never negative |
| Integrator.NormalVisualInUnitCube | src/crt/ray_tracer.hpp:141-151 | with a sound `normalize`, the normal visualisation stays inside the unit cube |
| Integrator.MissIsBlack | src/crt/ray_tracer.hpp:138-159 | a camera ray that hits nothing contributes black, whatever the settings |
| Integrator.NoLightsKeepPath | src/crt/ray_tracer.hpp:156-209 | with no lights the bounce loop returns the radiance it started with |
| Integrator.NoLightsKeepPathAtHit | src/crt/ray_tracer.hpp:156-209 | the same at a hit, one bounce at a time |
| Integrator.NoLightsGatherNothing | src/crt/ray_tracer.hpp:181-194 | with no lights a bounce gathers black |
| Integrator.BouncesAtHit | src/crt/ray_tracer.hpp:160-209 | one bounce adds gathered light times weight, then stops at the last bounce or continues from the next ray |
| Integrator.SingleBounceIsDirectLight | src/crt/ray_tracer.hpp:154-202 | with one bounce a sample is the unclamped direct light times 2π |
| Integrator.ShadowedIsBlack | src/crt/ray_tracer.hpp:183-188 | when every shadow ray is blocked the direct light is black |
| Integrator.ShadowedTermIsBlack | src/crt/ray_tracer.hpp:184-187 | a blocked light contributes black |
| Integrator.DirectLightNonNeg | src/crt/ray_tracer.hpp:181-188 | non-negative materials and intensities give non-negative direct light |
| Integrator.LightTermNonNeg | src/crt/ray_tracer.hpp:184-187 | each light's term is non-negative in a non-negative scene |
| Integrator.IntensityNonNeg | src/crt/lighting.hpp:59-61 | a non-negative intensity gives a non-negative `get_intensity` |
| Integrator.BouncesNonNeg | src/crt/ray_tracer.hpp:154-209 | the bounce loop keeps the path radiance non-negative |
| Integrator.Bounces | src/crt/ray_tracer.hpp:154-209 | after the last bounce or a miss the radiance is the one carried in; a continued bounce needs a defined shading record |
| Integrator.PathRadiance | src/crt/ray_tracer.hpp:137-209 | black on a miss or for a negative bounce count; the normal visualisation for 0 bounces; black for a scene without lights |
| Integrator.PathRadianceNonNeg | src/crt/ray_tracer.hpp:137-209 | every sample's radiance is non-negative in a non-negative scene |
| Sampler.SumUpto | src/crt/ray_tracer.hpp:212-213 | the reference sum of samples 1..n is defined exactly when every sample is |
| Sampler.MeanOf | src/crt/ray_tracer.hpp:212-213 | the reference mean is defined exactly when the sum is |
| Sampler.MeanStep | src/crt/ray_tracer.hpp:212-213 | mean(n) = mean(n-1) + (p - mean(n-1))/n: the running update computes the true mean |
| Sampler.Accumulate | src/crt/ray_tracer.hpp:126-220 | the result is the mean of the samples taken; the count lies in [s, max_samples]; stopping early means count >= min_samples and the last move was below the threshold; no earlier eligible sample was below it |
| Sampler.CameraRay | src/crt/ray_tracer.hpp:128-136 | the unjittered ray through (i, j) exactly when max_samples is 1, otherwise one jittered by draws in [-0.5, 0.5) |
| Sampler.CameraRayInPixel | src/crt/ray_tracer.hpp:128-136 | with jitter draws in [-0.5, 0.5), every sample ray projects back into the half-pixel box around (i, j), and onto (i, j) itself when max_samples is 1 |
| Sampler.SamplePixel | src/crt/ray_tracer.hpp:121-226 | the pixel is the mean of its samples; between 1 and max_samples of them, or none when max_samples < 1; the early-exit rule as for `Accumulate` |
| Sampler.NoThresholdTakesAllSamples | src/crt/ray_tracer.hpp:214-218 | a threshold <= 0 never stops early |
| Sampler.MinAboveMaxTakesAllSamples | src/crt/ray_tracer.hpp:214-218 | min_samples above max_samples never stops early |
| Sampler.SingleSampleIsUnjittered | src/crt/ray_tracer.hpp:131-133 | with one sample the pixel is the radiance of the unjittered ray |
| Sampler.PixelNonNeg | src/crt/ray_tracer.hpp:121-225 | every stored pixel colour is non-negative in a non-negative scene |
| Renderer.FloorToSize | src/crt/ray_tracer.hpp:52-53 | floor of a non-negative real; a negative value is undefined |
| Renderer.ImageSize | src/crt/ray_tracer.hpp:52-53 | width and height are the floors of the resolution, defined when both are non-negative |
| Renderer.SlotPixel | src/crt/ray_tracer.hpp:123 | a buffer slot maps back to a column below width and a channel below the stride |
| Renderer.SlotInside | src/crt/ray_tracer.hpp:123 | slot stride·(w·j + i) + c lies inside the buffer and maps back to (i, j, c) |
| Renderer.SlotsDistinct | src/crt/ray_tracer.hpp:121-123 | distinct (pixel, channel) pairs use distinct slots |
| Renderer.PixelBuffer | src/crt/ray_tracer.hpp:95 | the float buffer has 4·w·h entries, defined exactly when every pixel is |
| Renderer.BufferSlot | src/crt/ray_tracer.hpp:222-225 | slot 4(w·j + i) + c holds channel c of pixel (i, j); alpha is 1 |
| Renderer.Quantize | src/crt/ray_tracer.hpp:239 | the byte is floor(256·x) clamped to [0, 255] |
| Renderer.QuantizeValues | src/crt/ray_tracer.hpp:239 | 1.0 gives 255 (alpha), 0 gives 0, 0.5 gives 128 |
| Renderer.QuantizeMonotone | src/crt/ray_tracer.hpp:239 | quantisation never reverses the order of two values |
| Renderer.QuantizeImage | src/crt/ray_tracer.hpp:235-240 | one byte per float, each its quantisation |
| Renderer.RewritePixel | src/crt/ray_tracer.hpp:242-250 | the per-pixel rewrite leaves an already quantised image unchanged |
| Renderer.Render | src/crt/ray_tracer.hpp:44-252 | 4·w·h bytes, byte 4(w·j + i) + c the quantised channel c of pixel (i, j); `None` exactly when the size or a pixel is undefined |
| Renderer.HitPoint | src/crt/ray_tracer.hpp:324-341 | u·p1 + v·p2 + (1-u-v)·p0 on a hit, (0,0,0) on a miss |
| Renderer.Intersections | src/crt/ray_tracer.hpp:317-346 | the corrected pass: a buffer of 3·w·h entries |
| Renderer.IntersectionSlot | src/crt/ray_tracer.hpp:344-346 | slot 3(w·j + i) + c of the corrected pass holds component c of pixel (i, j)'s hit point |
| Renderer.IntersectionsAsWritten | src/crt/ray_tracer.hpp:317-353 | the pass as written returns an empty vector |
| Renderer.IntersectionsAsWrittenLosesHits | src/crt/ray_tracer.hpp:317-353 | for a non-empty image the pass as written returns nothing while 3·w·h values were meant |
| CeresRender.Settings | src/crt/ceres_ray_tracer.hpp:15-18 | the self-assignments leave the four knobs as passed |
| CeresRender.Ingest | src/crt/ceres_ray_tracer.hpp:19-26 | exactly one light and one entity; the triangles are the entity's, in order |
| CeresRender.IngestIsSceneBuild | src/crt/ceres_ray_tracer.hpp:19-26 | ingestion equals adding camera, light and entity to a new scene, and the result is consistent |
| CeresRender.Render | src/crt/ceres_ray_tracer.hpp:13-99 | 4·w·h bytes, each the quantised float the tracing step left in that slot; `None` exactly when the size is undefined |
| CeresRender.SetupFor | src/crt/ray_tracer.hpp:52-59 | the traced setup keeps camera, lights and knobs and holds every entity's triangles |
| CeresRender.SetupTrianglesInOrder | src/crt/ray_tracer.hpp:56-59 | the traced triangles are those of the entities in order, triangle m of entity j right after the entities before it |
| Scenes.Flatten | src/crt/ray_tracer.hpp:56-59 | no entities give no triangles |
| Scenes.FlattenAppend | src/crt/scene.hpp:39-42 | one more entity appends its triangles at the end |
| Scenes.FlattenPlacesEntity | src/crt/ray_tracer.hpp:56-59 | triangle m of entity k sits after the triangles of the entities before it |
| Scenes.NewScene | src/crt/scene.hpp:25-28 | an empty scene with max 25, min 3, threshold 1e-5 and 2 bounces |
| Scenes.AddCamera | src/crt/scene.hpp:30-33 | replaces the camera and nothing else |
| Scenes.AddLight | src/crt/scene.hpp:35-37 | appends exactly one light at the end and nothing else |
| Scenes.AddEntity | src/crt/scene.hpp:39-42 | appends the entity, and its triangles in order at the end of the list |
| Scenes.OperationsKeepConsistent | src/crt/scene.hpp:25-42 | the triangle list stays the concatenation of the entities' triangles |
| Scenes.AddEntitiesToNewScene | src/crt/scene.hpp:39-42 | adding entities one by one to a new scene gives them and their triangles in order |
| Scenes.Quantum | src/crt/scene.hpp:103-105 | clamp(x, 0, 1)·65535, always in [0, 65535] |
| Scenes.QuantumInverse | src/crt/scene.hpp:103-105 | dividing by 65535 recovers x in [0, 1], and the map is monotone |
| Scenes.Render16 | src/crt/scene.hpp:44-109 | 3·w·h samples, each the 16-bit quantum of the traced float in that slot; `None` without a camera or a size |
| Lidars.NewSimpleLidar | src/crt/lidars/simple_lidar.hpp:11-13 | only the beam flag is set |
| Lidars.CopyLidar | src/crt/lidars/simple_lidar.hpp:16-26 | the copy equals the original: flag, position and all nine entries |
| Lidars.CastRays | src/crt/lidars/simple_lidar.hpp:28-50 | exactly one ray from the lidar position along R^T times the normalised beam |
| Lidars.CastRaysIgnoresCount | src/crt/lidars/simple_lidar.hpp:28-50 | the requested ray count does not change the rays |
| Lidars.BeamIsThirdRow | src/crt/lidars/simple_lidar.hpp:32-44 | with a sound `normalize` the beam is plus or minus the third row of R |
| Lidars.HitDistance | src/crt/do_lidar.hpp:36-47 | the distance from the lidar to the hit point, never negative; 0 on a miss |
| Lidars.Distances | src/crt/do_lidar.hpp:31-50 | one distance per ray, in ray order |
| Lidars.MeanRange | src/crt/do_lidar.hpp:52-59 | mean times count equals the sum; `None` exactly for no distances |
| Lidars.MeanRangeCases | src/crt/do_lidar.hpp:44-59 | the mean is non-negative, and all distances equal to d give d (so all misses give 0) |
| Lidars.SumOrderFree | src/crt/do_lidar.hpp:28-50 | the sum does not depend on the order the parallel loop pushes distances in |
| Lidars.DoLidar | src/crt/do_lidar.hpp:12-60 | with a `SimpleLidar`, the range is the hit distance of its single ray |
| Text.StripSpace | src/crt/sceneconfig.hpp:68 | the result holds no whitespace and is no longer than the input |
| Text.StripSpaceKeepsText | src/crt/sceneconfig.hpp:68 | text without whitespace is unchanged |
| Text.StripSpaceConcat | src/crt/sceneconfig.hpp:68 | stripping distributes over concatenation |
| Text.Find | src/crt/sceneconfig.hpp:69 | the first position of the character, `None` exactly when it is absent |
| Text.FindAfter | src/crt/sceneconfig.hpp:69 | in a + d + b with d not in a, d is found at a's length |
| Text.Split | src/crt/sceneconfig.hpp:71 | the pieces `getline` yields hold no delimiter |
| Text.SplitJoin | src/crt/sceneconfig.hpp:71 | splitting joined pieces gives them back (last piece non-empty) |
| Text.JoinSplit | src/crt/sceneconfig.hpp:71 | joining the pieces of a text not ending in the delimiter gives it back |
| Text.Decimal | binary_test/crtb_file.cpp:265 | a non-empty run of digits |
| Text.DecimalValue | binary_test/crtb_file.cpp:265 | the digits read back as the number |
| Text.LeadingNumber | src/crt/sceneconfig.hpp:72 | a number is read only from text containing a digit |
| Text.LeadingDecimal | src/crt/sceneconfig.hpp:72 | a decimal followed by a non-number character reads as that number |
| Text.LeadingFraction | src/crt/sceneconfig.hpp:72 | an optionally negative decimal fraction followed by a non-number character reads as its whole part plus its fraction, negated after the sign |
| Text.NoLeadingNumber | src/crt/sceneconfig.hpp:72 | text starting with no digit, sign or dot is refused |
| Config.Typed | src/crt/sceneconfig.hpp:28-32 | a missing key gives the default |
| Config.Bracketed | src/crt/sceneconfig.hpp:69 | the `substr` after '[' is no longer than the text, and bracket-free text is kept whole |
| Config.BracketedWhole | src/crt/sceneconfig.hpp:69 | "[body]" yields body + "]", or body with the quaternion's cut of one |
| Config.BracketedCut | src/crt/sceneconfig.hpp:263 | a bracketed text loses its opening bracket, and its closing one too with a cut of one |
| Config.ReadList | src/crt/sceneconfig.hpp:70-74 | succeeds exactly when the pieces fit the array and each reads as a number; piece k fills entry k and the rest keep their old values |
| Config.ParseList | src/crt/sceneconfig.hpp:67-74 | the same for a whole value: strip, cut after '[', split on ',' and read |
| Config.ReadAll | src/crt/sceneconfig.hpp:70-74 | numbers read from every piece fill the front of the array |
| Config.ListRoundTrip | src/crt/sceneconfig.hpp:67-74 | "[n0,...,nk]" reads back as n0..nk with the array's tail unchanged |
| Config.ListPieces | src/crt/sceneconfig.hpp:68-71 | the pieces of "[n0,...,nk]" are the decimals, the last with its ']' |
| Config.ListPiecesRead | src/crt/sceneconfig.hpp:72 | every such piece reads as its number |
| Config.MissingListFails | src/crt/sceneconfig.hpp:67-72 | the default "UNKNOWN" makes `stod` throw |
| Config.PlainTextFails | src/crt/sceneconfig.hpp:67-72 | an unbracketed upper-case word is one piece that does not read |
| Config.GetPair | src/crt/sceneconfig.hpp:190-205 | a two-entry list is the parsed list of its key's value |
| Config.GetTriple | src/crt/sceneconfig.hpp:208-223 | a three-entry list is the parsed list of its key's value |
| Config.GetRotation | src/crt/sceneconfig.hpp:254-304 | the quaternion is read, but the rotation is the Euler conversion when angles are given, else the identity quaternion's |
| Config.QuaternionIgnored | src/crt/sceneconfig.hpp:261-273 | without Euler angles, the quaternion text has no effect on the rotation |
| Config.LoadCamera | src/crt/sceneconfig.hpp:45-102 | a pinhole camera with the intrinsics `PinholeCamera(focal_length, resolution, sensor_size)` builds, at the configured position and rotation; no camera exactly when the type is not "PinholeCamera" |
| Config.MissingKeysFail | src/crt/sceneconfig.hpp:67-84 | a missing resolution, sensor size or colour stops loading |
| Config.FirstWanted | src/crt/sceneconfig.hpp:115-116 | the first section a predicate holds for, `None` exactly when none |
| Config.FirstOf | src/crt/sceneconfig.hpp:115-143 | the item built from the first wanted section; nothing when none is wanted |
| Config.LightFrom | src/crt/sceneconfig.hpp:116-140 | a point light with intensity and position, or a square light that also has size and rotation |
| Config.LoadLightFrom | src/crt/sceneconfig.hpp:105-144 | the light of the first "lgt" section typed PointLight or SquareLight; none when no such section |
| Config.EntityFrom | src/crt/sceneconfig.hpp:158-181 | the model at `path`, smooth by default, with the configured scale, position and rotation, and every loaded vertex scaled, rotated and then moved to the position |
| Config.LoadEntityFrom | src/crt/sceneconfig.hpp:147-185 | the entity of the first "obj" section, none when no such section |
| Config.LoadConfig | src/crt/sceneconfig.hpp:25-42 | the settings with their defaults, then camera, light and entity |
| Config.SettingsDefaults | src/crt/sceneconfig.hpp:28-32 | no settings keys give "render.png", 1, 1, 0.0 and 1 |
| Crtb.ToU32 | binary_test/crtb_file.cpp:117-118 | the `uint32_t` conversion wraps modulo 2^32 |
| Crtb.LeBytes | binary_test/crtb_file.cpp:163-166 | `count` bytes, least significant first |
| Crtb.LeValue | binary_test/crtb_file.cpp:199-202 | the bytes read as a number below 256^count |
| Crtb.U32Bytes | binary_test/crtb_file.cpp:163-166 | a `uint32_t` writes as four bytes |
| Crtb.LeRoundTrip | binary_test/crtb_file.cpp:163-202 | a number below 256^count survives writing and reading |
| Crtb.LeBytesOf | binary_test/crtb_file.cpp:163-202 | bytes survive reading and writing back |
| Crtb.U32RoundTrip | binary_test/crtb_file.cpp:163-202 | a `uint32_t` written and read back is unchanged |
| Crtb.U32BytesOf | binary_test/crtb_file.cpp:163-202 | four bytes read and written back are unchanged |
| Crtb.EncodeHeader | binary_test/crtb_file.cpp:162-166 | 22 bytes beginning with "CRTOBJ" |
| Crtb.DecodeHeader | binary_test/crtb_file.cpp:198-207 | refused exactly for a short file or another magic; otherwise the fields re-encode to the first 22 bytes |
| Crtb.HeaderRoundTrip | binary_test/crtb_file.cpp:162-202 | a header reads back as written, whatever follows |
| Crtb.FileHeader | binary_test/crtb_file.cpp:162-170 | a header followed by the two blocks reads back as the header |
| Crtb.OtherMagicRefused | binary_test/crtb_file.cpp:205-207 | a file with another magic is refused |
| Crtb.Flatten3 | binary_test/crtb_file.cpp:124-135 | the first three entries of every row, row after row; refused when a row is shorter |
| Crtb.Unflatten3 | binary_test/crtb_file.cpp:230-245 | consecutive triples as rows |
| Crtb.UnflattenFlatten | binary_test/crtb_file.cpp:124-245 | rows flattened and cut into triples keep their first three entries |
| Crtb.FlattenUnflatten | binary_test/crtb_file.cpp:124-245 | a list of whole triples is restored |
| Crtb.ValuesOfBytes | binary_test/crtb_file.cpp:140-213 | fixed-width encodings one after the other decode one after the other |
| Crtb.VertexBytesRead | binary_test/crtb_file.cpp:140-213 | with a sound codec the vertex doubles read back |
| Crtb.FaceBytesRead | binary_test/crtb_file.cpp:150-222 | the face `uint32_t`s read back |
| Crtb.WriteCrtb | binary_test/crtb_file.cpp:107-175 | defined when the written rows have three entries; the header holds the wrapped counts and the file is header plus both blocks |
| Crtb.WriteLayout | binary_test/crtb_file.cpp:162-170 | the file is the header, then the vertex block, then the face block |
| Crtb.ReadCrtb | binary_test/crtb_file.cpp:177-249 | the header's faults pass through; success gives numV vertex rows and numF face rows |
| Crtb.ReadBody | binary_test/crtb_file.cpp:209-245 | success gives numV vertex rows and numF face rows |
| Crtb.HeaderThenBody | binary_test/crtb_file.cpp:198-213 | after a well-formed header the rest is read as the body |
| Crtb.ReadLayout | binary_test/crtb_file.cpp:209-245 | the vertex block is read first, then the face block, each cut into triples |
| Crtb.CrtbRoundTrip | binary_test/crtb_file.cpp:107-249 | with sound codecs and counts below 2^32, reading a written file gives each row's first three entries |
| Crtb.ShapeFaces | binary_test/crtb_file.cpp:84-96 | one face per face size with that many corners; their concatenation is the shape's wrapped index list; `None` when the corners run out |
| Crtb.ShapeFacesInOrder | binary_test/crtb_file.cpp:84-96 | face by face, the corners are the index list in order |
| Crtb.Wrap | binary_test/crtb_file.cpp:92 | every index converted to `uint32_t` |
| Crtb.ObjVertices | binary_test/crtb_file.cpp:69-78 | consecutive triples, defined exactly when the count is a multiple of 3 |
| Crtb.ObjVerticesFlatten | binary_test/crtb_file.cpp:69-78 | flattening the grouped vertices gives the coordinate list back |
| Crtb.ObjFaces | binary_test/crtb_file.cpp:81-100 | defined exactly when no shape runs out of corners; then one face per face of every shape |
| Crtb.ObjFacesInOrder | binary_test/crtb_file.cpp:81-100 | the faces' corners, read in order, are each shape's used indices, wrapped to 32 bits, shape after shape |
| Crtb.ObjFacesPlacesShape | binary_test/crtb_file.cpp:81-100 | face f of shape s sits at position (faces of the shapes before s) + f, and is that shape's face f |
| Crtb.OneBased | binary_test/crtb_file.cpp:264-266 | the decimal form of every index plus one, wrapped to 32 bits |
| Crtb.PrintFace | binary_test/crtb_file.cpp:262-268 | one line: "f " and the face's numbers, ended by the only newline |
| Crtb.FaceNumbers | binary_test/crtb_file.cpp:264-266 | only digits and spaces |
| Crtb.PrintFaces | binary_test/crtb_file.cpp:261-269 | one line per face, line k being "f " and the numbers of face k |
| Crtb.FaceNumbersSplit | binary_test/crtb_file.cpp:261-269 | the printed numbers, split at spaces, are those decimals |
| Crtb.PrintedIndex | binary_test/crtb_file.cpp:265 | an index below 2^32 - 1 prints as itself plus one; the largest prints as 0 |
| BodyFixed.NewBodyFixedEntity | src/crt/rendering_body_fixed/body_fixed_entity.hpp:18-36 | stores path, type, smooth flag and colour, with scale 1, position 0 and identity rotation |
| BodyFixed.SetScale | src/crt/rendering_body_fixed/body_fixed_entity.hpp:39-41 | the scale becomes the argument; position, rotation, path, type, smooth flag and colour stay as they were |
| BodyFixed.SetPosition | src/crt/rendering_body_fixed/body_fixed_entity.hpp:42-44 | the position becomes the argument; scale, rotation, path, type, smooth flag and colour stay as they were |
| BodyFixed.SetRotation | src/crt/rendering_body_fixed/body_fixed_entity.hpp:45-51 | all nine rotation entries are copied; scale, position, path, type, smooth flag and colour stay as they were |
| BodyFixed.SetPose | src/crt/rendering_body_fixed/body_fixed_entity.hpp:52-55 | stores position and rotation; everything else unchanged |
| BodyFixed.SetPoseEitherOrder | src/crt/rendering_body_fixed/body_fixed_entity.hpp:52-55 | rotation then position equals position then rotation |
| BodyFixed.RelativePose | crt/body_fixed.py:16-18 | position R_b(p - p_b), rotation R R_b^T |
| BodyFixed.RelativeToIdentity | crt/body_fixed.py:16-19 | a body at the origin with identity rotation leaves the pose unchanged |
| BodyFixed.RelativePoseKeepsView | crt/body_fixed.py:16-19 | for an orthonormal body rotation, the relative pose sees every body-frame point where the world pose saw it |
| BodyFixed.Repose | crt/body_fixed.py:14-27 | camera and each light re-posed to the relative pose, intrinsics kept, lights in order |
| BodyFixed.ReposeTwice | crt/body_fixed.py:14-27 | a second call composes the transform again on the already re-posed camera |
| BodyFixed.NormalImage | crt/body_fixed.py:40-43 | each entry is 255 times the magnitude of its normal component |
| BodyFixed.NormalImageInRange | crt/body_fixed.py:40-43 | components in [-1, 1] give image values in [0, 255] |

## Findings

| source | as written | input that shows it | evidently intended | confidence | as-written member | corrected member |
|---|---|---|---|---|---|---|
| src/crt/ray_tracer.hpp:317-353 | `get_intersections` only `reserve`s the vector, writes through `operator[]` past its size, and returns a vector of size 0 | any camera with width and height at least 1 | a vector of 3·w·h values holding each pixel's hit point at 3(w·j + i) + c | not executed | Renderer.IntersectionsAsWritten, Renderer.IntersectionsAsWrittenLosesHits | Renderer.Intersections, Renderer.IntersectionSlot |
| src/crt/materials/uvmaps.hpp:36-45 | `ImageUVMap` rounds u·width + 0.5 and indexes without a bounds check, so u or v near 1 reads the next row or past the buffer | a 2x2 image with u = v = 1 (index 24 of 16 bytes); u = 1, v = 0 (the next row's first texel) | coordinates clamped to the last texel | not executed | UVMaps.ImageAt, UVMaps.ImageAtReadsPastEnd, UVMaps.ImageAtWrapsToNextRow | UVMaps.ClampedImageAt, UVMaps.ClampedImageAtTotal, UVMaps.ClampedAgreesInside |

## Left out

- Concurrency: the OpenMP loops are modelled sequentially. The shared `minstd_rand` and the racy `push_back` in `do_lidar` are replaced by keyed draws and by ray order. `Lidars.SumOrderFree` shows that the order does not change the range.
- Floating point: IEEE rounding, NaN and infinity, and `float`/`double` widths are not modelled. Byte conversion is the floor of a clamped real.
- The BVH build and traversal are the `Tracer` oracle, and material `compute`/`sample` are the `Shader` oracle. These files are not part of this model.
- `do_render` is not part of this model. `CeresRender.Render` and `Scenes.Render16` take its result as the `Tracing` parameter.
- `src/crt/rotations.hpp` is not modelled, because its helpers are defective and unused. Euler and quaternion conversion are the `Rotations` oracle.
- I/O is not modelled: lodepng decoding, ImageMagick writing, `fopen`/`fread`/`fwrite`, tinyobj parsing, the INI reader's internals, and timing and log output. The INI file is a map from (section, key) to text.
- zstd and the byte layout of `double` are the `Codecs` oracle.
- `Crtb.LeValue` and `Crtb.LeBytes` assume a little-endian host.
- The Python wrappers, bindings and CLI are not modelled, apart from the re-posing in `crt/body_fixed.py`.
- The `SquareLight` constructor declares a local generator and local distributions that shadow its members. The draws come in as parameters instead, so the members' default state is not modelled.
- Storage the source reads before writing it has no value of its own in the model. It is an `unset` argument where the source reads it into a result, and an error where a read would fail.
- Scenes.Render16: the conversion of `float` to `Magick::Quantum` is not modelled. The sample is the real clamp(x, 0, 1)·65535.
- Lighting.GetIntensity: at zero distance the model gives `None` for the square light and for a non-positive point-light intensity. The source gives an infinity or NaN there.
- Config.LoadCamera: the camera is an `Option`, because the source returns `nullptr` for an unknown type. Using that null pointer afterwards is not modelled.
- Config.ReadList: a list with more entries than the array is an error in the model. The source writes past the array.
- Crtb.ReadCrtb: a magic mismatch is the `BadMagic` error. The source's `assert` is compiled out under `NDEBUG`, and the read would then go on.
- Crtb.WriteCrtb: a written row with fewer than three entries is `None`. The source reads past that row.
- Sampler.SumUpto: its own contract states only when the sum is defined. Its value is pinned down by `Sampler.MeanStep` and used through `Sampler.Accumulate`.
- Scenes.Flatten: its own contract covers only the empty case. Its content is stated by `Scenes.FlattenAppend` and `Scenes.FlattenPlacesEntity`.
- Text.Split: its own contract states only that no piece holds the delimiter. `Text.SplitJoin` and `Text.JoinSplit` make it the inverse of joining.
- Text.LeadingNumber: the prefix that `std::stod` reads is modelled for decimals with an optional sign, fraction and exponent. Hexadecimal, `inf` and `nan` forms are not modelled. The value is proved for natural numbers (`Text.LeadingDecimal`) and for signed fractions without exponent (`Text.LeadingFraction`), not for numbers with an exponent.
- Entities.ToLower, Text.StripSpace: these work on characters. The source applies `::tolower` and `::isspace` to bytes. The two agree on ASCII text; locale-dependent and non-ASCII behaviour is not modelled.
