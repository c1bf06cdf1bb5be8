# A verified model of the ray tracer's scene queries, camera and pixel buffers

This project models the core of a small Rust ray tracer ("ray tracing in
one weekend") in Dafny and proves what that core promises. Four source files
are modelled, each in its own module:

- `src/scene.rs` → module `Scene`. The scene holds a list of
  (geometry, material) entities. `ray_cast` tests every entity over
  `0.001..INFINITY` and keeps the hit with the smallest `t`. A later hit
  replaces the kept one only when it is strictly nearer.
- `src/renderer.rs` → module `Renderer`. This is an older scene type whose
  `ray_cast` returns the hit of the *first* geometry, in insertion order,
  that reports a hit in `0.0..5.0`. The module also has a fixed 1280 × 720
  camera and the render pass. That pass shades one pixel per camera ray, row
  by row, and then packs the pixels into RGBA8 bytes.
- `src/camera.rs` → module `Camera`. The camera is a class whose
  `move_to` and `look_at` update its pixel grid in place.
- `src/image.rs` → module `Image`. It holds an image and the byte buffer
  that its writer hands to the PNG encoder.

Four support modules stand in for the renderer's library (`lib_rs`), which
is not part of this model: `Wrappers` (Option), `LinearAlgebra` (vectors over
the reals), `Rays` (rays, hit records, intervals, geometries, materials) and
`Colors` (colours, RGBA8 bytes and the flattened byte buffer).

Three library operations are passed in as parameters, because their code is
not available:

- the hit test, `HitTest = (Geometry, Ray, Interval) -> Option<HitRecord>`;
- the reciprocal length that `normalize` scales by, `ReciprocalLength`;
- `as_rgba8_bytes`, `Rgba8Encoder = Color -> Rgba8`.

`Normalize(v)` is modelled as `v` scaled by an unspecified factor. That is
enough to prove the camera facts exactly: the grid is centred on the view
direction, and the pixel steps are orthogonal to it.

Points to note about the code:

- The camera takes no field of view. The near plane is always 2 units high,
  one unit in front of the camera.
- The scene in `src/renderer.rs` answers with the first geometry hit, not the
  nearest one. The lemma `FirstHitIgnoresDistance` states this.
- In `src/scene.rs` the *distance* of the answer does not depend on the
  entity order (`NearestOrderFree`). Which material wins a tie does depend
  on it: the earliest entity wins.
- The files are out of step with each other. `main.rs` calls `Camera::new`
  and `Renderer::new` with three arguments, but the definitions take two.
  Each file's own definitions are modelled as written.

## Model

| member | source | states |
|---|---|---|
| `Scene.Scene.New` | src/scene.rs:10-12 | `_new` makes a scene with no entities |
| `Scene.Scene.FromList` | src/scene.rs:13-15 | `from_list` stores the given list unchanged |
| `Scene.Scene.Add` | src/scene.rs:32-34 | `_add(g, m)` appends `(g, m)` at the end; the earlier entities stay as they were |
| `Scene.Scene.RayCast` | src/scene.rs:16-31 | the loop returns `None` exactly when no entity's test over `0.001..INFINITY` reports a hit. Otherwise it returns the record and material of an entity whose `t` is ≤ every reported `t` and strictly < the `t` of every earlier hit, so ties go to the earliest entity. The result equals the reference fold `Nearest` |
| `Scene.NearestCharacterised` | src/scene.rs:19-30 | the reference right fold `Nearest` returns an entity's own record and material. Its `t` is minimal over all hits, and earlier hits are strictly farther. `None` means nothing was hit |
| `Scene.NearestUnique` | src/scene.rs:21-27 | that characterisation admits one answer only, because of the strict `<` in the replacement test |
| `Scene.NearestNoneIff` | src/scene.rs:18-30 | the query gives `None` if and only if every entity's hit test gives `None` |
| `Scene.NearestOrderFree` | src/scene.rs:19-30 | any reordering of the entities (same multiset) hits exactly when the original does, at the same nearest `t` |
| `Scene.NearestBeyondEpsilon` | src/scene.rs:20 | if the hit test honours its range, no hit with `t < 0.001` is ever returned |
| `Scene.EmptySceneMisses` | src/scene.rs:10-30 | `ray_cast` on a scene made by `_new` returns `None` for every ray |
| `Renderer.NewCamera` | src/renderer.rs:13-35 | the fixed camera has a 1280 × 720 frame, centre at the origin and aspect 16/9. Its viewport is (32/9, 2), its pixel steps are (1/360, 0, 0) and (0, −1/360, 0), and its first pixel centre is (−16/9 + 1/720, 1 − 1/720, −1) |
| `Renderer.FixedGridPixelCentre` | src/renderer.rs:19-25 | with that grid, pixel (u, v) is centred at (−16/9 + (2u+1)/720, 1 − (2v+1)/720, −1). The pixel centres are symmetric about the −z axis |
| `Renderer.CameraRayAt` | src/renderer.rs:36-44 | `get_ray_at` gives a ray from the camera centre toward the centre of pixel (u, v) |
| `Renderer.Scene.constructor` | src/renderer.rs:61-63 | `new` starts with no geometries |
| `Renderer.Scene.Add` | src/renderer.rs:77-79 | `add` appends the geometry at the end; the earlier geometries stay as they were |
| `Renderer.Scene.RayCast` | src/renderer.rs:64-76 | the scan with early return equals `FirstHit`. It is `None` exactly when no geometry is hit in `0.0..5.0`. Otherwise it is the hit of a geometry with no hit before it |
| `Renderer.FirstHitCharacterised` | src/renderer.rs:64-76 | `FirstHit` is `None` if and only if no geometry's test succeeds. Otherwise it is the record of the first geometry, in insertion order, whose test succeeds |
| `Renderer.FirstHitAppend` | src/renderer.rs:66-70 | geometries after the first one hit are never consulted. If none of a prefix is hit, the answer is that of the rest |
| `Renderer.FirstHitIgnoresDistance` | src/renderer.rs:67-69 | of two geometries that are both hit, the one added first wins whatever its `t`, so insertion order decides the result |
| `Renderer.FirstHitWithinRange` | src/renderer.rs:68 | if the hit test honours its range, the returned `t` lies in `[0, 5)` |
| `Renderer.Shade` | src/renderer.rs:99-108 | a miss shades white. A hit shades the normal mapped by `n·0.5 + 0.5`, so `2c − 1` gives back each normal component. Alpha is always 1 |
| `Renderer.ShadeInRange` | src/renderer.rs:99-108 | a normal with components in [−1, 1] gives colour components in [0, 1] |
| `Renderer.PixelIndex` | src/renderer.rs:94-110 | the row-major index `j·w + i` of a pixel inside a `w` × `h` frame is below `w·h` |
| `Renderer.RowsLength` | src/renderer.rs:91-112 | `n` rows of width `w` hold exactly `n·w` pixels |
| `Renderer.RowsAt` | src/renderer.rs:94-110 | in the row-by-row frame, pixel (i, j) sits at index `j·w + i` |
| `Renderer.Renderer.constructor` | src/renderer.rs:87-89 | `new` keeps the camera and the scene it is given |
| `Renderer.Renderer.Render` | src/renderer.rs:90-119 | `render` pushes exactly `width·height` colours. The colour at `j·width + i` is the shade of the scene's first hit for `get_ray_at(i, j)`. The byte buffer is the pixels' RGBA8 bytes in pixel order, four per pixel |
| `Camera.PlaneFromTranslates` | src/camera.rs:46-51 | moving the centre by an offset moves the first pixel centre by the same offset and leaves the steps and viewport alone |
| `Camera.PlaneFromCentred` | src/camera.rs:46-51 | when the aspect ratio is width/height, the middle of the pixel grid is exactly `center + dir`, whatever the normalised left vector is |
| `Camera.PlaneFromOrthogonal` | src/camera.rs:43-50 | when `left` is a multiple of `up × dir`, both pixel steps are orthogonal to the view direction and to each other |
| `Camera.CalcNearPlaneValues` | src/camera.rs:36-53 | the viewport is (2·aspect, 2). The steps are `(2/height)·(−left)` and `(2/height)·(−up)`, and the first pixel centre is the top-left corner plus half of both steps. Both steps are orthogonal to the view direction and to each other. With aspect = width/height the grid is centred on `center + dir` |
| `Camera.VerticalViewCollapses` | src/camera.rs:43-51 | for a view direction along (0, 1, 0), `cross((0, 1, 0), dir)` is zero, so over the reals both pixel steps are zero and the whole grid sits at `center + dir` |
| `Camera.Camera.constructor` | src/camera.rs:17-34 | `new(w, h)` puts the camera at the origin with `frame_size = (w, h)`, `aspect_ratio = w/h` and view direction (0, 0, −1). The grid is `calc_near_plane_values` of those, and the camera invariant holds |
| `Camera.Camera.MoveTo` | src/camera.rs:54-57 | `move_to(pos)` sets `position = pos` and shifts `pixel_0_loc` by `pos − old position`. The steps, orientation, `frame_size`, `aspect_ratio` and `viewport_size` are unchanged, and the invariant is kept |
| `Camera.Camera.LookAt` | src/camera.rs:58-65 | `look_at(target)` keeps `position`, `frame_size`, `aspect_ratio` and `viewport_size`. The view direction becomes `normalize(target − position)`, and the three grid fields become `calc_near_plane_values` at the current position |
| `Camera.Camera.GetRayAt` | src/camera.rs:66-83 | `get_ray_at` gives a ray from `position` along the normalised `pixel_0_loc + (u + rx)·Δu + (v + ry)·Δv − position`, with `rx = drawX − 0.5` and `ry = drawY − 0.5` |
| `Camera.Camera.FrameSize` | src/camera.rs:84-86 | `frame_size()` returns the size given to `new`; no method changes it |
| `Camera.Camera.CentreRayFollowsView` | src/camera.rs:74-82 | for a consistent camera, the unjittered ray through the middle of the frame points exactly along the view direction, and both pixel steps are orthogonal to it |
| `Camera.MoveThenLook` | src/camera.rs:54-65 | after `move_to(pos)` and then `look_at(target)`, the middle of the frame lies at `pos + normalize(target − pos)`, so the camera aims at the target |
| `Image.New` | src/image.rs:13-15 | `Image::new(w, h, p)` stores `dimension = (w, h)` and `pixels = p` unchanged |
| `Image.WriteToFile` | src/image.rs:16-20 | the buffer is 4 × the pixel count long. Bytes `4k .. 4k+3` are `as_rgba8_bytes(pixels[k])` |
| `Colors.FlattenAppend` | src/image.rs:18-19 | appending a pixel appends its four bytes and leaves every earlier byte in place |
| `Colors.FlattenLength` | src/image.rs:17-20 | the flattened buffer has four bytes per pixel |
| `Colors.FlattenAt` | src/image.rs:18-19 | bytes `4k .. 4k+3` of the flattened buffer are the encoding of pixel `k` |
| `Colors.FlattenPrefix` | src/image.rs:17-20 | the buffer of any prefix of the pixels is a prefix of the whole buffer, so the buffer only ever grows at its end |

## Left out

- Floating point: every `f32` is an idealised `real`. Only properties that hold exactly over the reals are claimed. Rounding, NaN and infinities are not modelled.
- Library code (`lib_rs`): the intersection tests (sphere, box, parallelogram), `normalize` and `Color::as_rgba8_bytes` are parameters. No ray–shape intersection maths or unit length is proved. `normalize` is taken to scale its argument by some factor.
- `Camera::new` with height 0: the `f32` division gives an infinite or NaN aspect ratio, which reals cannot represent. The model requires a positive height.
- CalcNearPlaneValues: a view direction parallel to (0, 1, 0) makes `cross((0, 1, 0), dir)` the zero vector. The `f32` library then most likely gives NaN for `left`. Over the reals, `Normalize` scales zero to zero, so the model turns this case into a grid whose two pixel steps are zero (`VerticalViewCollapses`). The orthogonality clauses then hold only because the steps are zero.
- LookAt: looking at the camera's own position normalises the zero vector, which the `f32` library most likely turns into NaN. The model fixes the view direction at zero instead, so the grid collapses to a zero-step grid centred on the position, and `MoveThenLook` gives `centre == pos`. NaN is not represented.
- Integer widths: frame sizes are `nat` rather than `u32`. The `u32` product in the capacity hint of `render` is not modelled, and neither are capacity hints in general.
- Range ends in the older scene: `ray.hit(s, 0.0, 5.0)` takes the range as two numbers, and the library code that reads them is not available. The model reads the range as half-open, `[0, 5)`, like the `Range` that `src/scene.rs` passes.
- Randomness: `get_ray_at` in `src/camera.rs` takes the two random draws as parameters instead of a `ThreadRng`.
- WriteToFile: `write_to_file` opens `output.png` with `File::open` (`src/image.rs:21`). That opens an existing file read-only and creates nothing. So it panics at that line's `unwrap` when the file is missing. Otherwise the PNG write through the read-only handle fails and panics at the `unwrap` on line 22. The model stops at the byte buffer that would be written and does not model these panics.
- I/O and progress reporting: file creation and PNG encoding in `render` (`src/renderer.rs:120-129`), the `ProgressBar`, the `Result` of `render` and the timing in `src/main.rs` are left out. `Render` and `WriteToFile` return the pixel and byte buffers they would hand to the encoder.
- Update in place of Rust's `Vec`: vectors are modelled as `seq` values that the methods reassign.
- `src/main.rs` (a hard-coded scene) and `src/parser.rs` (deserialisation that ends in `todo!()`) hold no logic of the core and are not modelled.
