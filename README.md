# lab4_shaders: a verified model of the render pipeline and its shaders

lab4_shaders is a small software renderer written in Rust. It does not use a GPU. For each frame it:

- takes the vertex array of one selected object;
- runs every vertex through a vertex shader;
- groups the shaded vertices into triangles and rasterises them into fragments;
- shades each fragment that falls inside the framebuffer and writes it with `point(x, y, depth)`.

Around the pipeline sit the scene (seven objects sharing a sphere mesh), the per-frame selection of the object to draw from the number keys 1 to 7, and the keyboard controls of the camera.

This project models that core in Dafny:

- `render` and `create_viewport_matrix`;
- the selection chain, the scene list and `handle_input` from `src/main.rs`;
- `vertex_shader`, `fragment_shader`, `sun_shader` and `planet1` from `src/shaders.rs`.

## Structure

| file | module | what it holds |
|---|---|---|
| `numerics.dfy` | `Numerics` | `u32`, the saturating `f32 as usize` cast, π, and the `sqrt`/`sin` functions with the laws lemmas may assume |
| `linalg.dfy` | `Linalg` | vectors, matrices stored by rows, products, transposition, the upper-left block, determinant, adjugate, `try_inverse` and the two-sided inverse laws |
| `colors.dfy` | `Colors` | 8-bit RGB colours and the colour operations the shaders call |
| `primitives.dfy` | `Primitives` | `Vertex`, `Fragment` and `Uniforms` |
| `transforms.dfy` | `Transforms` | `create_viewport_matrix` and where it sends the device square |
| `shaders.dfy` | `Shaders` | the vertex shader, the normal matrix, the sun gradient and the striped planet |
| `framebuffer.dfy` | `Frame` | the framebuffer as a class that records its `point` calls and current colour |
| `camera.dfy` | `Cameras` | the camera as a class that records its `orbit`, `move_center` and `zoom` calls |
| `render.dfy` | `Render` | the four stages of `render`, each a loop proved against a specification function |
| `app.dfy` | `App` | the scene, key selection, the main loop and `handle_input` |

## How the model is built

- **Numbers.** `f32` is idealised as `real`. The `f32 as usize` cast is written out as Rust defines it. It saturates: negative values go to 0, values past the range go to `usize::MAX`, and everything else is truncated. The fragment bounds test therefore has no lower bound. A fragment left of or above the screen lands in column or row 0 (`Render.AcceptsExactly`).
- **Functions from other files.** `sqrt` and `sin` (`Numerics.Libm`), the `Color` operations `lerp`, `* f32` and `to_hex` (`Colors.ColorOps`), and the triangle rasteriser (`Render.Rasterizer`) are defined outside the two core files. They are passed in as function values. Where a lemma needs a property of `sqrt` or `sin`, it requires `Numerics.Lawful`. That predicate says a square root is non-negative and squares back to its argument, and that `sin` stays in [-1, 1]. Nothing is assumed of the colour operations.
- **Imperative code.** The code that changes state is imperative Dafny:
  - the four loops of `render`;
  - the `if ... else if` chain that picks the object;
  - the key-by-key build-up of the movement vector;
  - the main loop.

  Each loop or method is proved against a function that specifies it. The framebuffer and the camera are classes. Their methods append to a log of calls, so a postcondition can say exactly which calls `render` or `handle_input` made, in which order and with which arguments.
- **Pure code.** The shaders and matrix builders are pure functions.

## What is proved

**Render stages.**
- The vertex stage maps the shader over the vertices.
- Primitive assembly groups consecutive triples and drops a trailing one or two vertices.
- Rasterisation concatenates the fragments of each triangle in order.
- The fragment loop makes exactly one `point` call per accepted fragment, in fragment order. Each call uses the saturated pixel coordinates, the fragment depth and the shaded colour. Every call is inside the buffer. The colour left current is that of the last write.

**Viewport.** The viewport matrix sends the device square [-1, 1]² into [0, width] × [0, height]: (-1, 1) goes to (0, 0) and (1, -1) goes to (width, height). y is flipped and depth is kept.

**Vertex shader.**
- It passes the vertex position, normal, texture coordinates and colour through unchanged.
- The screen position is the perspective-divided clip position mapped by the viewport.
- The normal matrix is the identity when the model block is singular. Otherwise it is the inverse of the transposed block, proved two-sided.
- An identity model leaves normals unchanged, and a uniform scale by s scales normals by 1/s.

**Sun shader.**
- Its three bands are characterised by squared distance from the axis: below 0.2809, up to 0.4356, and beyond.
- In each band it is the documented blend. At the centre it is the white-to-pastel blend taken with factor 0, and beyond radius 1 it is the amber-to-orange blend taken with factor 1.
- It depends on nothing but the x and y of the fragment's `vertex_position`.
- As written, the first band reaches radius 0.53, but its factor `t / 0.33` is scaled for a band ending at 0.33. The factor therefore passes 1 (for example 50/33 at radius 0.5), and the gradient jumps at 0.53 to a factor of 20/33 of the next blend (`Shaders.SunFirstBandOvershoots`, `Shaders.SunJumpAtBandEdge`). This is recorded as the behaviour of the code. Whether the 0.53 threshold is intended cannot be decided from the source.

**Planet shader.** `planet1` blends umber towards sand by the stripe factor at the fragment's height and the frame counter, scaled by the intensity. The stripe factor lies in [0, 1]. The shader's stripe pattern moves toward smaller y by 0.001 per frame.

**Controls.**
- The selection is the lowest held number key, or the previous selection when none is held. It never leaves 0..6, so `objects.get` always finds an object.
- The main loop stops at the first frame with Escape held.
- `handle_input` makes the orbit, move and zoom calls in source order.
- Opposite keys cancel in the net orbit and zoom. Over any run of frames, the net yaw, pitch and zoom are the sums of the frames' contributions.
- With a lawful `sqrt`, the camera pans exactly when A/D or Q/E are unbalanced.

## Model

| member | source | states |
|---|---|---|
| Numerics.AsUsize | src/main.rs:119-121 | the `f32 as usize` cast: 0 below 1, the floor inside the range, `usize::MAX` above it; never more than `usize::MAX` |
| Numerics.AsUsizeBelow | src/main.rs:119-121 | for a bound that is itself a `usize`, the cast value is below it exactly when the real value is |
| Numerics.SqrtBelow | src/shaders.rs:72 | under the `sqrt` law, comparing a distance with a threshold is comparing its square with the threshold squared |
| Numerics.SqrtPositive | src/main.rs:328 | under the `sqrt` law, a magnitude is positive exactly when its squared length is |
| Linalg.TryInverse3 | src/shaders.rs:32 | `try_inverse` yields no inverse exactly when the determinant is zero; otherwise the cofactor inverse, which times the matrix gives the identity on both sides |
| Shaders.DeviceToScreen | src/main.rs:81-88 | on a point with w = 1 the viewport matrix gives x scaled from [-1, 1] to [0, width], y flipped and scaled to [0, height], z kept |
| Transforms.ViewportMaps | src/main.rs:81-88 | the viewport map on (x, y, z, 1) is (width/2·(x+1), height/2·(1−y), z, 1) |
| Transforms.ViewportTopLeft | src/main.rs:81-88 | device corner (−1, 1) lands on pixel (0, 0) |
| Transforms.ViewportCentre | src/main.rs:81-88 | the device centre lands on (width/2, height/2) |
| Transforms.ViewportBottomRight | src/main.rs:81-88 | device corner (1, −1) lands on (width, height) |
| Transforms.ViewportInside | src/main.rs:81-88 | every point of the device square lands inside [0, width] × [0, height] |
| Shaders.ClipPosition | src/shaders.rs:10-16 | the clip position is projection · (view · (model · (p, 1))), the combined matrix applied to the homogeneous position |
| Shaders.Ndc | src/shaders.rs:18-25 | the divided point has w = 1, and multiplying it back by the clip w gives the clip point |
| Shaders.NormalMatrix | src/shaders.rs:31-32 | the identity when the model's upper block is singular; otherwise the inverse of the transposed block, a two-sided inverse |
| Shaders.Det3Transpose | src/shaders.rs:32 | transposing the block does not change whether it is invertible (same determinant) |
| Shaders.VertexShader | src/shaders.rs:8-45 | position, normal, texture coordinates and colour pass through; the transformed normal is the normal matrix times the normal |
| Shaders.ScreenPosition | src/shaders.rs:16-28 | with the viewport matrix, the screen position is the perspective-divided clip position with x scaled to the width, y flipped and scaled to the height, z kept |
| Shaders.ClipUnderIdentity | src/shaders.rs:10-16 | with identity model, view and projection the clip position is the model position with w = 1 |
| Shaders.NormalMatrixIdentity | src/shaders.rs:31-32 | the normal matrix of the identity model is the identity |
| Shaders.NormalUnderIdentity | src/shaders.rs:31-34 | an identity model matrix leaves normals unchanged |
| Shaders.NormalUnderUniformScale | src/shaders.rs:31-34 | a uniform scale by s ≠ 0 scales normals by 1/s |
| Shaders.OriginToCentre | src/shaders.rs:16-25 | with identity transforms the model origin is the device centre at depth 0 |
| Shaders.Clamp | src/shaders.rs:81 | `clamp(0.0, 1.0)` stays within the bounds and keeps values already inside them |
| Shaders.SunGradient | src/shaders.rs:82-91 | the three bands: white→pastel with factor in [0, 53/33), pastel→amber with factor in [20/33, 1), amber→orange with factor in [0, 1] |
| Shaders.ClampedRadiusBelow | src/shaders.rs:72-81 | the clamped radius is below a threshold c in (0, 1] exactly when the squared distance is below c²; inside the unit disc it is the square root itself |
| Shaders.SunCore | src/shaders.rs:67-84 | squared distance below 0.2809: white blended towards pastel by radius/0.33 |
| Shaders.SunMiddle | src/shaders.rs:67-87 | squared distance in [0.2809, 0.4356): pastel blended towards amber by (radius−0.33)/0.33 |
| Shaders.SunRim | src/shaders.rs:67-91 | squared distance from 0.4356: amber blended towards orange by (radius−0.66)/0.34, factor 1 from radius 1 on |
| Shaders.SunCentre | src/shaders.rs:67-84 | at the centre the sun is the white-to-pastel blend taken with factor 0 |
| Shaders.SunFirstBandOvershoots | src/shaders.rs:82-84 | the first band's factor exceeds 1 (radius 0.5 gives 50/33) |
| Shaders.SunJumpAtBandEdge | src/shaders.rs:82-87 | the gradient jumps at radius 0.53: past pastel just inside, 20/33 of pastel→amber at the edge |
| Shaders.FragmentShader | src/shaders.rs:47-50 | the fragment shader is the sun shader, whatever the uniforms |
| Shaders.SunShader | src/shaders.rs:67-94 | by clamped radius t: white→pastel by t/0.33 below 0.53, pastel→amber by (t−0.33)/0.33 below 0.66, amber→orange by (t−0.66)/0.34 from there |
| Shaders.SunShaderLocal | src/shaders.rs:47-50 | the fragment shader depends only on the x and y of the fragment's `vertex_position`, not on uniforms, time, depth or intensity |
| Shaders.StripeFactorRange | src/shaders.rs:57-62 | with a lawful `sin`, the stripe factor lies in [0, 1] |
| Shaders.StripesDrift | src/shaders.rs:58-62 | k frames later the stripe factor at height y is today's factor at height y + 0.001·k |
| Shaders.Planet1 | src/shaders.rs:53-65 | the umber→sand blend weighted by the stripe factor at the fragment's y and the frame counter, scaled by the intensity; with a lawful `sin` that weight lies in [0, 1] |
| Shaders.Planet1Drift | src/shaders.rs:53-65 | at a frame counter later by k, `planet1` shades a fragment with the stripe factor the earlier frame had at height y + 0.001·k |
| Shaders.Planet1Shading | src/shaders.rs:53-65 | the planet colour is fixed by height, frame counter and intensity alone, and its blend weight lies in [0, 1] |
| Frame.Framebuffer.SetCurrentColor | src/main.rs:125 | the current colour becomes the given one; no point call is recorded |
| Frame.Framebuffer.Point | src/main.rs:126 | an in-bounds point call is recorded with the current colour; the colour stays |
| Cameras.Camera.Orbit | src/main.rs:301-312 | one orbit call with the given yaw and pitch deltas is recorded |
| Cameras.Camera.MoveCenter | src/main.rs:328-330 | one move-centre call with the given direction is recorded |
| Cameras.Camera.Zoom | src/main.rs:333-338 | one zoom call with the given delta is recorded |
| Render.VertexStage | src/main.rs:92-97 | the vertex stage has one output per input, output i being the shaded vertex i |
| Render.TransformVertices | src/main.rs:92-97 | the vertex shader loop computes the vertex stage |
| Render.Assemble | src/main.rs:99-109 | assembly yields ⌊n/3⌋ triangles, triangle k made of vertices 3k, 3k+1, 3k+2 |
| Render.AssembleAppend | src/main.rs:99-109 | assembling a whole number of triangles followed by more vertices assembles each part |
| Render.AssemblePrimitives | src/main.rs:99-109 | the `step_by(3)` loop with its `i + 2 < len` guard computes the assembly |
| Render.Rasterize | src/main.rs:111-115 | every triangle's fragments are all in the result (as a multiset), and every fragment of the result comes from one of the triangles |
| Render.RasterizeAppend | src/main.rs:111-115 | rasterising two runs of triangles concatenates their fragments |
| Render.RasterizeAll | src/main.rs:111-115 | the `extend` loop computes the rasterisation |
| Render.AcceptsExactly | src/main.rs:117-121 | a fragment is kept exactly when its real x and y are below width and height; negative coordinates land on row/column 0 |
| Render.FragmentWrites | src/main.rs:117-128 | at most one write per fragment, every write inside the buffer |
| Render.FragmentWritesAppend | src/main.rs:117-128 | the writes of two runs of fragments are the writes of each, in order |
| Render.AllAcceptedAllWritten | src/main.rs:117-128 | when every fragment is accepted, fragment i makes write i |
| Render.NoneAcceptedNoneWritten | src/main.rs:117-128 | when no fragment is accepted nothing is written |
| Render.ShadeFragments | src/main.rs:117-128 | the fragment loop makes exactly the listed point calls, each in its fragment's colour, and leaves the last write's colour current |
| Render.Render | src/main.rs:90-129 | `render` makes exactly the writes of the pipeline's fragments and leaves the last write's colour current |
| App.SceneObjects | src/main.rs:146-199 | seven objects sharing the sphere, ids 1 to 7; the second at (0.5, 1, 0), turned π/4 about y, scale 0.3; the rest at the origin, unrotated, scale 1 |
| App.Get | src/main.rs:270 | `Vec::get` finds an element exactly for an index below the length |
| App.LowestHeldDigit | src/main.rs:247-261 | the lowest held number key at or above a start, or none held |
| App.Selection | src/main.rs:247-261 | with no number key held the selection stays; otherwise it is the lowest held key's object |
| App.SelectObject | src/main.rs:247-261 | the `if ... else if` chain computes the selection |
| App.SelectionAfter | src/main.rs:235-261 | the selection after any frames, from object 0, is always below 7 |
| App.EscapeFrame | src/main.rs:237-240 | the first frame with Escape held: no earlier frame has it |
| App.SelectionTrace | src/main.rs:237-281 | the object drawn in frame i is the selection after frame i, always below 7 |
| App.MovementOf | src/main.rs:315-327 | the movement has z = 0; x is 0 exactly when A and D agree, y is 0 exactly when Q and E agree |
| App.MovementComponents | src/main.rs:314-327 | each movement component is −1, 0 or 1 |
| App.SquaredMovement | src/main.rs:314-328 | the movement's squared length counts the axes whose keys disagree |
| App.OrbitControls | src/main.rs:300-312 | the orbit block makes the Left, Right, W, S orbit calls in order |
| App.MovementControls | src/main.rs:314-330 | the movement block pans by the built-up movement exactly when its magnitude is positive |
| App.ZoomControls | src/main.rs:332-338 | the zoom block makes the Up and Down zoom calls in order |
| App.HandleInput | src/main.rs:293-339 | `handle_input` makes the orbit, movement and zoom calls of the frame, in that order |
| App.PansExactlyWhenUnbalanced | src/main.rs:314-330 | with a lawful `sqrt`, the camera pans exactly when A/D or Q/E are unbalanced, and then by the movement |
| App.PansWithSmallRoots | src/main.rs:314-330 | the same from the square roots of 0, 1 and 2 alone |
| App.InputNet | src/main.rs:293-339 | net yaw ±π/50 for Left/Right, net pitch ±π/50 for S/W, net zoom ±0.1 for Up/Down; opposite keys cancel |
| App.OrbitNet | src/main.rs:300-312 | the orbit block's net yaw and pitch, with no zoom |
| App.MoveNet | src/main.rs:328-330 | the movement block neither orbits nor zooms |
| App.ZoomNet | src/main.rs:332-338 | the zoom block's net zoom, with no orbit |
| App.NoKeysNoCalls | src/main.rs:293-339 | with no key held, `handle_input` makes no camera call |
| App.TraceYaw | src/main.rs:237-244 | over any frames, the net yaw is the sum of the frames' contributions: π/50 with Left alone, −π/50 with Right alone, 0 otherwise |
| App.TracePitch | src/main.rs:237-244 | over any frames, the net pitch is the sum of the frames' contributions: π/50 with S alone, −π/50 with W alone, 0 otherwise |
| App.TraceZoom | src/main.rs:237-244 | over any frames, the net zoom is the sum of the frames' contributions: 0.1 with Up alone, −0.1 with Down alone, 0 otherwise |
| App.MainLoop | src/main.rs:237-289 | the loop runs until the first Escape frame, counts frames, draws the selected object each frame (always found), and makes every frame's camera calls in order |

## Left out

- Shaders.VertexShader: the perspective division requires a non-zero clip w. Where `f32` would produce an infinity or a NaN, the model has a precondition instead.
- Floating point in general: rounding, NaN and infinities are not modelled. `f32::clamp` is modelled on ordered bounds only.
- `sqrt`, `sin`, `Color::lerp`, `Color * f32` and `Color::to_hex` are parameters. No property of the colours produced is claimed beyond which blend is asked for.
- The triangle rasteriser (`triangle`) is a parameter. Its coverage, barycentric interpolation and flat lighting live in a file that is not part of this model.
- The framebuffer's pixel and depth buffers, its depth test, `clear` and `set_background_color` live in a file that is not part of this model. The model records the `point` calls and the current colour instead.
- The camera's orbit, pan and zoom arithmetic live in a file that is not part of this model. The model records the calls.
- App.MainLoop: it does not rebuild the view, projection and viewport matrices, clear the framebuffer, set the colour 0xFFDDDD or call `render`. The model records which object each frame draws. `create_model_matrix`, `create_view_matrix` (`look_at`) and `create_perspective_matrix` (`perspective`) are not modelled.
- App.MainLoop: the frame counter is unbounded. The `u32` counter would overflow after 2³² frames. `uniforms.time as f32` loses precision above 2²⁴; that is not modelled either.
- Window handling, key polling, the 16 ms sleep, `update_with_buffer` and loading of `sphere.obj` and `rings.obj` are I/O. The keys held in each frame are given as a sequence of sets. The sphere's vertex array is a parameter. The loaded rings model is never used by the program.
- `render` passes `id` to `fragment_shader`, which is declared with two parameters (src/main.rs:123 against src/shaders.rs:47). As written this call does not type-check. The model takes `id` and ignores it, as the shader it calls would.
- Shader selection: `fragment_shader` always calls `sun_shader`. Nothing selects a shader by object id, and `planet1` is modelled but unused, as in the code.
- src/circle.rs is not part of this model. The pipeline does not use it.
