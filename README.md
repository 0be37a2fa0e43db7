# standalone-shader: uniform binding and texture lifecycle

This project models the decision logic of `standalone-shader`. That is a small
WebGL wrapper that draws one full-screen triangle with a fragment shader and
pushes the caller's uniforms to the shader every frame. Two parts are modelled:

- **The `Shader` renderer (index.js).** Construction compiles both stages and
  links them, then merges the built-in `time` and `resolution` uniforms with
  the caller's table. Each entry gets its location, its push-function name
  (`getUniformType`), its matrix flag and, for an image value, a texture.
  `resize` sizes the backing store and writes `resolution`. `start`/`stop`
  drive the frame scheduler. Each frame (`update`) writes `time`, runs the
  tick hook, pushes the active uniforms with texture units counted from 0, and
  draws once.
- **The `Texture` resource (texture.js).** Symbolic wrap and filter names
  resolve through fixed tables. A decoded image is uploaded at once. An image
  that is not decoded yet gets a 1x1 black placeholder and a one-shot load
  handler. Mipmaps are generated only when both sides pass the
  `v & (v - 1) == 0` test.

WebGL itself is not modelled. The device is a `Graphics.Device` object that
hands out sequential handles and appends every command to a log, so each
operation is specified by the exact command sequence it issues. Compile and
link success, the program's active-uniform list, the window size, the frame
timestamps and the tick hook are parameters. The host's
`requestAnimationFrame` is a `Scheduling.FrameScheduler` holding the set of
pending frame ids.

Files: `wrappers.dfy` (Option), `graphics.dfy` (device and commands),
`scheduling.dfy` (frame scheduler), `textures.dfy` (texture.js),
`uniforms.dfy` (uniform table and `getUniformType`), `programs.dfy`
(`initShader`/`initProgram`), `frame.dfy` (what one frame issues),
`teardown.dfy` (`destroy`), `renderer.dfy` (the `Shader` class).

Four behaviours of the code worth knowing:

- The pixel-ratio option is read from `options.dpr` (index.js:82).
- The row-flip unpack state is set when `flipY === true` and never reset
  (texture.js:49-51). It does not last for one upload only.
- Teardown walks the program's active uniforms, not the whole table
  (index.js:156-163). An image uniform that the program does not use keeps
  its texture.
- An active uniform missing from the table makes the frame loop throw
  (index.js:137-138). An unknown type name makes construction throw
  (index.js:58). Neither case is skipped silently. Both are preconditions of
  the constructor.

## Model

| member | source | states |
|---|---|---|
| Uniforms.GetUniformType | index.js:211-236 | a push-function name exists exactly for the nine semantic types; every other name gets none |
| Uniforms.DispatchNames | index.js:211-236 | int and sampler2D push with uniform1i, float with uniform1f, vecN with uniformNfv, matN with uniformMatrixNfv |
| Uniforms.IndexOf | index.js:58 | `indexOf` gives the first position where the pattern occurs, or -1 when it occurs nowhere |
| Uniforms.MatrixFlag | index.js:58-60 | an entry is flagged as a matrix exactly when its type is mat2, mat3 or mat4 |
| Uniforms.AssignFromEntries | index.js:39-48 | copying keys in order keeps keys distinct, makes the key set the union, and the copied value wins |
| Uniforms.Assign | index.js:39-48 | `Object.assign` gives the union of both tables, source entries win, and the target's keys stay first in their order |
| Uniforms.InitialTable | index.js:39-48 | the merged table has time then resolution first, caller keys win on collision, an unshadowed time is float 0 and an unshadowed resolution is vec2 [1, 1] |
| Uniforms.LocationOf | index.js:52 | a location exists exactly when the program linked and reports the name as active |
| Renderer.InitialTableTypes | index.js:39-48 | when every caller type is one of the nine, every merged type is too |
| Renderer.ResolvedEntry | index.js:50-61 | an entry keeps its descriptor and texture, is flagged as a matrix exactly for mat2/mat3/mat4, and has a location under its own name exactly when the program linked and reports the name as active |
| Renderer.ResolvedMeaning | index.js:52-60 | a resolved entry is a matrix exactly for mat2/mat3/mat4 and has a location exactly when the program linked and uses it |
| Renderer.BuildEntry | index.js:51-60 | one entry is built from its descriptor; a texture is created exactly when the value is an image, under the device's next handle, holding the descriptor's image and its wrap, filter and flip settings |
| Renderer.BuildUniforms | index.js:50-61 | every key gets an entry built from its descriptor; the texture of the j-th key owns handle `first` plus the number of image entries before it, and the log gains each entry's texture setup in key order |
| Renderer.TextureSetupCreates | index.js:54-57 | building the table creates textures only under the handles it counts, and deletes none |
| Renderer.EntrySetupCreates | index.js:54-57 | one entry's setup creates a texture under a handle exactly once when its value is an image and the handle is its own, and never otherwise |
| Renderer.TextureSetupCreatesOnce | index.js:50-57 | building the table creates each handle from `first` up to `first` plus the image count exactly once |
| Renderer.HandlesIncrease | index.js:50-57 | the textures construction hands out have handles that grow in key order, so no two entries share one |
| Renderer.HandlesInRange | index.js:50-57 | every texture handle construction hands out lies between `first` and `first` plus the image count |
| Renderer.BuildTable | index.js:39-61 | the table holds time, resolution and every active uniform; each entry is built from the merged descriptor, and each texture owns the handle counted for its key |
| Renderer.BuiltDecl | index.js:39-61 | before any frame, each entry holds its key's declared descriptor from the merged table |
| Renderer.BuiltOnDevice | index.js:54-57 | every texture that construction creates is bound to the renderer's device |
| Renderer.Compile | index.js:35-37 | both stages are compiled and then linked, with the handles and commands of initShader and initProgram |
| Renderer.Construct | index.js:33-73 | construction compiles and links, builds the table with texture handles counted from three past the first, then creates the vertex buffer and fills it with the triangle |
| Renderer.FillBuffer | index.js:65-73 | creates one buffer under the next handle, binds it and fills it with the triangle |
| Renderer.NewShader | index.js:25-84 | the renderer starts with no pending frame and rafID -1; the pixel ratio is `dpr` or 1; the log is exactly the construction's commands, and each texture owns the handle counted for its key |
| Renderer.PixelRatio | index.js:82 | a given non-zero `dpr` is kept, the ratio is never zero, and any ratio other than 1 is the given one |
| Renderer.OrWindow | index.js:91-92 | a given non-zero size is kept; a result other than the window's size is a given non-zero size, so a zero result means a zero window |
| Renderer.ScaledSize | index.js:94-95 | the backing size is the largest whole number at most size times ratio |
| Renderer.ResolutionValue | index.js:103-104 | the first two elements become the backing width and height; later elements are kept |
| Renderer.ResolutionPair | index.js:103-104 | a two-element resolution becomes exactly [backing width, backing height] |
| Renderer.WithResolution | index.js:103-104 | only the resolution entry's value changes; every other entry stays as it was |
| Renderer.Shader.Resize | index.js:90-105 | the layout size is the size or the window's, the backing size is the floor of it times dpr, and the viewport and resolution take the backing size |
| Renderer.Shader.Stop | index.js:112-114 | only the last requested frame is cancelled; with at most one pending, none is left |
| Renderer.Shader.Start | index.js:107-110 | the old frame is cancelled before a fresh one is requested; with at most one pending before, exactly the new one is pending |
| Renderer.Shader.Prelude | index.js:123-129 | viewport to the backing size, clear, use the program, then enable and bind the vertex attribute and buffer |
| Renderer.Shader.Advance | index.js:131-132 | time is set to the elapsed seconds, then the tick hook runs with that same value and its writes apply |
| Renderer.Shader.PushUniforms | index.js:134-150 | the active uniforms are pushed in device order, with texture units counted from 0 |
| Renderer.Shader.Update | index.js:118-153 | the next frame is requested first, the table is ticked before any push, and the log gains exactly the frame's commands |
| Renderer.Shader.Tick | index.js:118-119 | running the pending frame leaves exactly its successor pending |
| Renderer.Shader.Destroy | index.js:155-171 | the corrected teardown deletes the active image uniforms' textures, then the buffer, then the program |
| Renderer.SchedulingScenario | index.js:107-119 | stop before start cancels nothing; start twice leaves one frame pending; a frame that runs leaves one new frame pending |
| Renderer.ResizeScenario | index.js:90-105 | an 800x600 layout at dpr 2 gives a 1600x1200 backing store, viewport and resolution |
| Renderer.FallbackScenario | index.js:82-95 | a zero dpr, a missing width and a zero height give the window's size unscaled |
| FrameSpec.BlockAt | index.js:135-149 | each active uniform's commands follow those of the uniforms before it, with the number of earlier image uniforms as its unit |
| FrameSpec.UnitAllocation | index.js:121-142 | only image uniforms take a unit; each takes the next one, later ones take larger units, and all stay below the image count |
| FrameSpec.PushShape | index.js:138-148 | pushes only set uniforms, activate units and bind textures, and never transpose a matrix |
| FrameSpec.FrameShape | index.js:123-152 | a frame starts with the viewport and ends with the one draw of 3 vertices as triangles; nothing else draws |
| FrameSpec.TriangleCoversViewport | index.js:69-71 | the triangle (-1,-1), (-1,4), (4,-1) covers the whole clip-space square |
| FrameSpec.Ticked | index.js:131-132 | after the tick, time holds the elapsed seconds unless the hook wrote it; only values change |
| Programs.InitShader | index.js:174-186 | a compiled stage is returned; a failed one is deleted and nothing is returned |
| Programs.InitProgram | index.js:188-209 | both stages are deleted after linking, whatever the result; on failure the program is deleted and nothing is returned |
| Programs.VertexStageReleasedOnce | index.js:174-209 | the vertex stage is deleted exactly once, whether compiling and linking succeed or fail |
| Programs.FragmentStageReleasedOnce | index.js:174-209 | the fragment stage is deleted exactly once, whether compiling and linking succeed or fail |
| Programs.ProgramReleasedOnFailure | index.js:188-209 | the program is deleted once when linking fails and never when it succeeds |
| Teardown.ReleasesExactly | index.js:157-163 | teardown deletes only textures, and a handle exactly when an active image uniform owns it |
| Teardown.DestroyAsWrittenThrows | index.js:155-171 | destroy as written throws a ReferenceError on `gl` at its first statement, before releasing anything |
| Teardown.DestroyCorrectedCompletes | index.js:155-171 | with `gl` declared first, teardown issues every release in order |
| Textures.GetProp | texture.js:73-80 | a name resolves exactly when it is given, the table has an entry for it, and the device has the constant the entry names; it then resolves to that constant |
| Textures.DeviceConstant | texture.js:78 | a device constant exists exactly for the five names the tables use |
| Textures.WrapResolution | texture.js:73-80 | through the wrap table, clamp, mirror and repeat resolve to CLAMP_TO_EDGE, MIRRORED_REPEAT and REPEAT; an undefined or unknown name gives none |
| Textures.FilterResolution | texture.js:73-80 | through the filter table, nearest and linear resolve to NEAREST and LINEAR; an undefined or unknown name gives none |
| Textures.BitAnd | texture.js:70 | a bitwise AND is at most either operand |
| Textures.AndPredecessor | texture.js:69-71 | for a positive n, `n & (n - 1)` is 0 exactly when n is a power of two |
| Textures.IsPowerOf2 | texture.js:69-71 | below 2^32, the `v & (v - 1) == 0` test holds exactly for 0 and the powers of two |
| Textures.PowerOf2Mipmaps | texture.js:55-57 | every power of two below 2^32 passes the mipmap test |
| Textures.OddMultipleNoMipmaps | texture.js:55-57 | an odd number above 1 times a power of two fails the mipmap test, so 300 and 200 do |
| Textures.UploadOrder | texture.js:43-62 | an upload is, in order: bind, the row flip when flipY is true, the image, the mipmap when both sides pass the test, then WRAP_S, WRAP_T and MIN_FILTER defaulting to clamp, clamp and linear |
| Textures.UploadContents | texture.js:43-62 | an upload flips rows exactly when flipY is true and generates mipmaps exactly when both sides pass the test; it never sets MAG_FILTER and creates or deletes no texture |
| Textures.Texture.constructor | texture.js:17-41 | the names are resolved and one texture is created; a ready image is uploaded at once and any other gets the placeholder and a listener |
| Textures.Texture.Placeholder | texture.js:32-33 | binds the texture and uploads one opaque black RGBA pixel |
| Textures.Texture.Update | texture.js:43-62 | issues exactly the upload commands for the image as it is now |
| Textures.Texture.FireLoad | texture.js:36-39 | a registered handler removes itself and then uploads; with no handler the load issues nothing |
| Textures.Texture.Destroy | texture.js:64-66 | deletes exactly the owned texture and leaves any load handler registered |
| Textures.DeferredLoadScenario | texture.js:30-39 | an image not yet loaded gets the placeholder; the first load uploads and a second load issues nothing |
| Textures.ReadyImageScenario | texture.js:27-29 | a ready image is uploaded during construction, with no placeholder and no handler |
| Textures.DestroyBeforeLoadScenario | texture.js:36-66 | a load after destroy binds and uploads into the deleted handle |

## Left out

- Canvas and DOM work is host I/O and is not modelled. That covers creating the canvas, the `getContext` failure path (index.js:26-31), the CSS style strings, removing the canvas from its parent, the `domElement` getter and all `console` output. The canvas's backing and layout sizes are kept as fields.
- GLSL source text and real compilation are not modelled. The default shader strings are left out, and compile and link success are boolean inputs.
- WebGL semantics are not modelled. Texture memory, the vertex attribute layout and buffer contents appear only as commands in the log. A command given an absent stage, program or location is logged with `None` and does not throw.
- After a failed link the program reports no active uniforms and every location is absent. The renderer stays inert.
- The real `requestAnimationFrame` and its timing are not modelled. The scheduler is a set of pending ids; a frame runs only when the caller calls `Tick`.
- IEEE floating point is not modelled. `time / 1000` and `width * dpr` are exact real arithmetic, and `Math.floor` is `.Floor`.
- Renderer.NewShader: requires every declared type to be one of the nine, because line 58 throws on the undefined `_type` an unknown type leaves. It also requires every active uniform to have a table entry, because line 138 dereferences a missing entry and throws.
- Renderer.Shader.Resize: requires `resolution`'s value to be an array. Writing an index of a number value throws in module code. An image-valued `resolution` is excluded too, although the source would only add two indexed properties to the image object and carry on.
- Renderer.Shader.Advance: the tick hook is modelled as a function from the elapsed seconds to writes of existing entries' values. A hook that adds entries, changes types or calls back into the renderer is not modelled.
- Textures.Texture.FireLoad: one texture has one handler. Several textures sharing one image element, and load events that change other image state, are not modelled.
- Uniforms.Assign: keys are taken to be GLSL identifiers and keep their insertion order. JavaScript lists array-index keys such as "0" before all others, which would move them ahead of time and resolution and shift the texture handles; such keys are not modelled.
- Uniforms.InitialTable: the merged table holds descriptors as values. The source shares the caller's descriptor objects, so `resize` writes into the caller's own resolution array and the caller's writes between frames reach the next frame; that sharing is not modelled.
- Renderer.BuildUniforms: the texture's image is tied to its descriptor's image per entry (Renderer.BuildEntry) and through the log, which records each handle's upload of its descriptor's image; the table-wide invariant over the textures' mutable image state is not stated.
- Textures.IsPowerOf2: takes a non-negative size. JavaScript's `&` on 32-bit patterns is modelled as an AND on the sizes modulo 2^32.
- Renderer.Shader.Destroy: this is the corrected teardown (see Findings). `Shader.destroy` as written throws before releasing anything, so the renderer never releases its resources.

## Findings

| source | as written | input that shows it | evidently intended | confidence | as-written member | corrected member |
|---|---|---|---|---|---|---|
| index.js:155-171 | `destroy` reads `gl` at line 156, but `const gl` is declared at line 165 in the same block. The read falls in the binding's temporal dead zone and throws a ReferenceError. | any call of `destroy()` on a constructed renderer | declare `const gl = this.gl` before the loop; then the textures, the vertex buffer and the program are released | high; follows from JavaScript's block scoping; not executed | Teardown.DestroyAsWrittenThrows | Teardown.DestroyCorrectedCompletes |
