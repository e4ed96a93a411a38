# Software rasterizer of SiebeBoeckx/DirectX, modelled in Dafny

The repository is a small renderer that draws a textured vehicle in one of two ways. A Direct3D 11 hardware renderer draws on the GPU. A CPU software renderer rasterizes the mesh itself. A render manager switches between them and routes keyboard commands. This project models the software renderer's frame:

- the vertex transform's perspective divide;
- the triangle-list and triangle-strip walk over the index buffer;
- the whole-triangle NDC discard and the mapping from NDC to raster space;
- the triangle fill, with its bounding box, edge functions, barycentric weights, reciprocal-z depth, depth test and the two in-place buffer writes.

It also models:

- the render-state machine and the mode switch of `PixelShading`;
- the render manager's two-state machine and its mode-guarded commands;
- the sampler-state cycle of `Effect_PosTex`;
- the texel addressing of `Texture::Sample`.

Floats are `real`, so rounding is not modelled. A float-to-int cast is `Trunc` (truncation toward zero). FLT_MAX is the exact value of the largest finite float, written `FltMax`. The clear colour is `0xFF646464`: channel value 100 in the low three bytes and alpha `0xFF`.

Layout:

- `geometry.dfy`: vectors, colours, cross product, `Trunc`, `Clamp`, and a division lemma.
- `topology.dfy`: how the index buffer becomes triangles.
- `raster.dfy`: the per-pixel rules of `RenderTriangle` and the buffers after one triangle (`RasterDepth`, `RasterColor`).
- `raster_properties.dfy`: lemmas about one triangle.
- `frame.dfy`: the perspective divide, the NDC discard, the raster mapping, the frame as a fold over triangles, and frame lemmas.
- `software_renderer.dfy`: the classes `SoftwareMesh` and `SoftwareRenderer`. The depth and back buffers are arrays that the nested loops of `RenderTriangle` update in place. Each method is proved against the functions above.
- `shading.dfy`, `effect.dfy`, `texture.dfy`: the render state, the sampler state and the texture lookup.
- `hardware_renderer.dfy`, `render_manager.dfy`: the render manager and the part of the hardware renderer it drives.

The model follows the code in these details, which a reader might expect to be otherwise:

- Pixels are sampled at their integer position `(px, py)`, not at the pixel centre.
- The depth test skips a pixel only when the stored depth is strictly smaller. An equal depth therefore overwrites, and the later triangle wins a tie.
- The bounding box is widened by 2 around v0 and v1 (the two nested `min`/`max` steps each subtract or add 1) but only by 1 around v2. It is clamped to `W-1` and `H-1`, and the loops stop before the upper corner, so the last column and the last row are never drawn.
- `RenderMesh` first fills the back buffer with the value 100 and then fills it again with the clear colour. Only the second fill is modelled, because it overwrites the first.

## Model

| member | source | states |
|---|---|---|
| Topology.ListTrianglesAt | source/SoftwareRenderer.cpp:240-244 | the list walk yields exactly `N / 3` triangles, triangle `i` being entries `3i, 3i+1, 3i+2` |
| Topology.StripTrianglesAt | source/SoftwareRenderer.cpp:265-293 | the strip walk yields `N - 2` triangles (none for `N < 2`); window `i` is `(idx[i], idx[i+1], idx[i+2])` for even `i` and `(idx[i], idx[i+2], idx[i+1])` for odd `i` |
| Topology.StripTriangleCount | source/SoftwareRenderer.cpp:265 | the intended number of strip windows: `N - 2` for `N >= 2`, else none, and never a window past the buffer end |
| Topology.MeshTrianglesReadIndexBuffer | source/SoftwareRenderer.cpp:238-293 | every index the walk uses is an entry of the index buffer, for either topology |
| Topology.StripLoopBoundAsWritten | source/SoftwareRenderer.cpp:265 | the loop bound `size() - 2` on a 64-bit unsigned value agrees with the intended count whenever `N >= 2` |
| Topology.StripBoundWrapsOnShortBuffer | source/SoftwareRenderer.cpp:265-275 | for `N < 2` the bound as written wraps to `2^64 + N - 2`, so window 0 runs and reads past the buffer, while the intended count is 0 |
| Frame.PerspectiveDivide | source/SoftwareRenderer.cpp:80-84 | x, y and z are divided by w and w is kept; multiplying back by w gives the clip position |
| Frame.TransformVertices | source/SoftwareRenderer.cpp:72-85 | one output vertex per input vertex, each keeping its input's texture coordinate |
| Frame.RasterMappingBounds | source/SoftwareRenderer.cpp:246-258 | a vertex with x, y in [-1, 1] maps to `(x+1)/2*W` in [0, W] and `(1-y)/2*H` in [0, H] |
| Frame.ClearedBuffers | source/SoftwareRenderer.cpp:226-231 | the cleared buffers have `W*H` entries each |
| Frame.DrawTriangle | source/SoftwareRenderer.cpp:246-260 | a triangle with a vertex outside the NDC square leaves both buffers as they were; otherwise its raster-space image is rasterized; buffer sizes are kept |
| Frame.FrameDepthsValid | source/SoftwareRenderer.cpp:167-171 | starting from depths that are FLT_MAX or in [0, 1], every depth entry stays FLT_MAX or in [0, 1] after any sequence of triangles |
| Frame.FrameUnwrittenClear | source/SoftwareRenderer.cpp:171-213 | a pixel still at depth FLT_MAX keeps the clear colour, after any sequence of triangles |
| Frame.FrameEdgesKept | source/SoftwareRenderer.cpp:104-116 | pixels of the last column and last row keep their depth and colour through any sequence of triangles |
| Frame.FrameDepthMonotone | source/SoftwareRenderer.cpp:169-171 | drawing more triangles never raises a depth entry: depths only decrease during a frame |
| Frame.FrameProperties | source/SoftwareRenderer.cpp:224-313 | in a finished frame, depths are FLT_MAX or in [0, 1], pixels left at FLT_MAX show the clear colour, and the last column and row are FLT_MAX and the clear colour |
| Frame.ClearedIsClear | source/SoftwareRenderer.cpp:226-231 | every pixel of the cleared buffers reads FLT_MAX and the clear colour |
| Raster.BoundingBox | source/SoftwareRenderer.cpp:98-111 | the truncated, clamped box corners satisfy `0 <= min <= max <= W-1` (and the same for y) |
| Raster.EdgeSumIsDoubleArea | source/SoftwareRenderer.cpp:118-153 | the three cross products sum to twice the signed area, independent of the pixel |
| Raster.CoveredMeansNonNegativeArea | source/SoftwareRenderer.cpp:122-146 | a pixel can pass all three edge tests only when the triangle's signed area is non-negative |
| Raster.BarycentricWeights | source/SoftwareRenderer.cpp:148-157 | `w0 = crossB/t`, `w1 = crossC/t`, `w2 = crossA/t` sum to 1, and each lies in [0, 1] at a covered pixel |
| Raster.WeightsReproducePixel | source/SoftwareRenderer.cpp:148-157 | blending the three vertex positions with the weights gives back the pixel position |
| Raster.ReciprocalBlend | source/SoftwareRenderer.cpp:160-179 | the blended reciprocal of three same-sign values has their sign, so the depth division never divides by zero |
| Raster.UniformUVIsKept | source/SoftwareRenderer.cpp:181-184 | perspective-correct interpolation returns a uv value that all three vertices share |
| Raster.IndicesInRange | source/SoftwareRenderer.cpp:169-213 | for an on-screen pixel both `px*H+py` and `px+py*W` lie in `[0, W*H)` |
| Raster.IndicesInvert | source/SoftwareRenderer.cpp:169-213 | both index maps are invertible: the pixel is recovered by division and remainder |
| Raster.RasterDepth | source/SoftwareRenderer.cpp:113-171 | the depth buffer after one triangle keeps its length |
| Raster.RasterColor | source/SoftwareRenderer.cpp:206-213 | the colour buffer after one triangle keeps its length |
| RasterProperties.PixelOfEntry | source/SoftwareRenderer.cpp:169-213 | every buffer entry belongs to exactly one on-screen pixel under each index map |
| RasterProperties.RasterAtPixel | source/SoftwareRenderer.cpp:113-213 | at each pixel, both buffers take the new depth and shaded colour exactly when the pixel passes every test, and keep the old entries otherwise |
| RasterProperties.DepthTestAtPixel | source/SoftwareRenderer.cpp:167-171 | at a covered box pixel, a depth outside [0, 1] changes nothing; otherwise the entry becomes `min(stored, z)`; an equal depth overwrites the colour; a nearer stored depth keeps the colour |
| RasterProperties.LastColumnAndRowKept | source/SoftwareRenderer.cpp:104-116 | one triangle never changes a pixel of column `W-1` or row `H-1` |
| RasterProperties.DepthNeverIncreases | source/SoftwareRenderer.cpp:169-171 | one triangle never raises a depth entry |
| RasterProperties.RasterKeepsDepthsValid | source/SoftwareRenderer.cpp:167-171 | if every depth entry is FLT_MAX or in [0, 1] before a triangle, the same holds after it |
| RasterProperties.RasterKeepsUnwrittenClear | source/SoftwareRenderer.cpp:171-213 | a colour is written only together with a depth in [0, 1], so pixels still at FLT_MAX keep the clear colour |
| RasterProperties.NearerTriangleWins | source/SoftwareRenderer.cpp:167-213 | of two triangles covering a pixel, the nearer one's depth and colour remain, in either drawing order |
| RasterProperties.CoveredPointInHull | source/SoftwareRenderer.cpp:122-157 | a covered point lies between the smallest and largest vertex coordinate, in x and in y |
| RasterProperties.CoveredPixelsInBox | source/SoftwareRenderer.cpp:98-116 | every covered pixel below column `W-1` and row `H-1` lies in the bounding box, so only the last column and row are cut off |
| SoftwareRendering.SoftwareRenderer.RenderTriangle | source/SoftwareRenderer.cpp:92-217 | the nested loops leave the depth buffer equal to `RasterDepth` and the back buffer equal to `RasterColor` of the old buffers |
| SoftwareRendering.DepthStep | source/SoftwareRenderer.cpp:167-171 | one loop-body step reads the pixel's original depth entry and writes it only when the pixel passes every test |
| SoftwareRendering.ColorStep | source/SoftwareRenderer.cpp:206-213 | one loop-body step writes the colour entry only when the pixel passes every test |
| SoftwareRendering.DepthDone | source/SoftwareRenderer.cpp:113-116 | once every row of the box has been visited, the depth buffer is the rasterized one |
| SoftwareRendering.ColorDone | source/SoftwareRenderer.cpp:113-116 | once every row of the box has been visited, the colour buffer is the rasterized one |
| SoftwareRendering.SoftwareRenderer.VertexTransformationFunction | source/SoftwareRenderer.cpp:70-90 | returns one vertex per input: the perspective-divided clip position and the copied uv |
| SoftwareRendering.SoftwareRenderer.DrawIndexedTriangle | source/SoftwareRenderer.cpp:242-260 | draws one indexed triangle: skipped outside NDC, else mapped and rasterized |
| SoftwareRendering.SoftwareRenderer.ClearBuffers | source/SoftwareRenderer.cpp:226-231 | every depth entry becomes FLT_MAX and every colour entry the clear colour |
| SoftwareRendering.SoftwareRenderer.DrawTriangleList | source/SoftwareRenderer.cpp:238-262 | the list loop draws the triangles of the list walk in order |
| SoftwareRendering.SoftwareRenderer.DrawTriangleStrip | source/SoftwareRenderer.cpp:263-312 | the strip loop draws the windows of the strip walk in order, winding flipped on odd windows |
| SoftwareRendering.SoftwareRenderer.RenderMesh | source/SoftwareRenderer.cpp:224-313 | `verticesOut` becomes the transformed vertices, and the buffers become the rendered frame: cleared buffers with every triangle of the walk drawn in order |
| SoftwareRendering.SoftwareRenderer.Render | source/SoftwareRenderer.cpp:55-68 | one frame of `RenderMesh` |
| SoftwareRendering.SoftwareRenderer.Update | source/SoftwareRenderer.cpp:43-53 | while rotating, the mesh turns for the elapsed time; otherwise it stays put |
| SoftwareRendering.SoftwareRenderer.CycleRenderState | source/SoftwareRenderer.cpp:315-337 | the state advances texture, depth, observed area, phong, texture; nothing else changes |
| SoftwareRendering.SoftwareRenderer.ToggleNormalMap | source/SoftwareRenderer.cpp:339-342 | the normal-map switch is negated, so two calls restore it |
| SoftwareRendering.SoftwareRenderer.CycleRotation | source/BaseRenderer.cpp:16-19 | the rotation switch is negated |
| SoftwareRendering.SoftwareRenderer.constructor | source/SoftwareRenderer.h:63-65 | starts in texture mode with the normal map on, rotating, and with fresh `W*H` buffers |
| Shading.RenderStatePeriodFour | source/SoftwareRenderer.cpp:315-337 | four presses of the shading-mode key restore the mode |
| Shading.RenderStateVisitsAllFour | source/SoftwareRenderer.cpp:315-337 | one, two or three presses always change the mode, so four is the least period |
| Shading.Saturate | source/SoftwareRenderer.cpp:369-370 | the result is in [0, 1] and equals the input when the input is already in [0, 1] |
| Shading.PixelShading | source/SoftwareRenderer.cpp:385-403 | observed-area mode gives the gray of the saturated cosine, in [0, 1]; depth mode gives the gray of the remapped depth; phong mode gives the Phong colour |
| Shading.CombinedShading | source/SoftwareRenderer.cpp:387-389 | in combined mode, a surface facing away from the light shows Phong plus ambient only, and with non-negative terms no channel falls below the ambient 0.025 |
| Effects.SamplerStatePeriodThree | source/Effect.cpp:212-229 | three presses of the sampler key restore the sampler state |
| Effects.SamplerForInjective | source/Effect.cpp:231-248 | different states install different samplers |
| Effects.EffectPosTex.SetSamplerState | source/Effect.cpp:231-248 | installs exactly the sampler object belonging to the given state |
| Effects.EffectPosTex.CycleSampleState | source/Effect.cpp:212-229 | point goes to linear, linear to anisotropic, anisotropic to point, and the installed sampler is the one of the new state |
| Textures.Normalise | source/Texture.cpp:67-68 | a byte over 255 lies in [0, 1]; it is 0 exactly for byte 0 and 1 exactly for byte 255 |
| Textures.TexelIndexRowMajor | source/Texture.cpp:61-64 | for u, v in [0, 1) the column is below w, the row is below h, the index is below `w*h`, and index mod w and index div w give back column and row |
| Textures.OriginReadsFirstTexel | source/Texture.cpp:61-64 | UV (0, 0) reads texel 0 |
| Textures.BottomEdgeOverruns | source/Texture.cpp:61-66 | with no bounds check, v = 1 addresses a texel past the last one |
| Textures.Sample | source/Texture.cpp:59-72 | for in-range UV the index is in the image, the result is that texel's colour, each channel lies in [0, 1], and UV (0, 0) returns texel 0 |
| HardwareRendering.HardwareRenderer.Update | source/HardwareRenderer.cpp:85-95 | while rotating, the vehicle and the fire mesh both turn by the elapsed time |
| HardwareRendering.HardwareRenderer.Render | source/HardwareRenderer.cpp:97-126 | without a device nothing happens; otherwise one frame is submitted, cleared to the uniform or the default colour, drawing the fire only when enabled |
| HardwareRendering.HardwareRenderer.CycleSamplerState | source/HardwareRenderer.cpp:231-235 | both meshes' effects advance their sampler state |
| HardwareRendering.HardwareRenderer.ToggleFireFX | source/HardwareRenderer.cpp:242-245 | the fire switch is negated |
| HardwareRendering.ClearColorFor | source/HardwareRenderer.cpp:103-112 | the uniform clear colour is used exactly when the uniform-colour switch is on |
| RenderManagement.OtherRenderType | source/RenderManager.cpp:100-115 | toggling always changes the render type |
| RenderManagement.ToggleRenderTypeTwice | source/RenderManager.cpp:100-115 | two toggles restore the render type |
| RenderManagement.RenderManager.constructor | source/RenderManager.cpp:32-34 | the manager starts in hardware mode with the hardware renderer current |
| RenderManagement.RenderManager.ToggleRenderType | source/RenderManager.cpp:100-115 | flips the render type and keeps the current renderer the one the type names |
| RenderManagement.RenderManager.Render | source/RenderManager.cpp:93-99 | only the current renderer draws: in software mode the software buffers become the frame and the hardware submits nothing; in hardware mode the software buffers are untouched |
| RenderManagement.RenderManager.Update | source/RenderManager.cpp:85-90 | both renderers are updated, whichever is current |
| RenderManagement.RenderManager.CycleRotation | source/RenderManager.cpp:117-123 | negates both rotation switches, so switches that agree keep agreeing |
| RenderManagement.RenderManager.CycleCullMode | source/RenderManager.cpp:125-129 | both renderers' cull-mode flags flip |
| RenderManagement.RenderManager.ToggleUniformColor | source/RenderManager.cpp:131-137 | both renderers' uniform-colour switches flip |
| RenderManagement.RenderManager.ToggleFireFx | source/RenderManager.cpp:139-146 | flips the fire switch in hardware mode and changes nothing in software mode |
| RenderManagement.RenderManager.CycleSamplerState | source/RenderManager.cpp:148-154 | advances both effects' sampler states in hardware mode and leaves the effects unchanged in software mode |
| RenderManagement.RenderManager.CycleShadingMode | source/RenderManager.cpp:156-162 | advances the software render state in software mode and changes nothing in hardware mode |
| RenderManagement.RenderManager.ToggleNormalMap | source/RenderManager.cpp:164-171 | flips the normal-map switch in software mode only |
| RenderManagement.RenderManager.ToggleDepthBuffer | source/RenderManager.cpp:173-180 | flips the depth-view flag in software mode only |
| RenderManagement.RenderManager.ToggleBoundingBoxView | source/RenderManager.cpp:182-189 | flips the bounding-box-view flag in software mode only |

## Left out

- Lighting: the normal-map sample, tangent-space transform, Lambert cosine, diffuse sample over pi, Phong (`powf`, reflect) and depth remap are the opaque `Shader.lighting` function. `MaxToOne`, the scaling by 255 and `SDL_MapRGB` are the opaque `Shader.pack`. These are floating-point and foreign-library operations.
- Interpolation of normal, tangent and view direction (source/SoftwareRenderer.cpp:189-204): each needs a square root to normalise. The fragment carries position, depth, w and the perspective-correct uv.
- Matrices and the camera: the world-view-projection transform is an opaque function of the mesh's rotation time and the model point. Camera movement from keyboard and mouse is not modelled. `Update` records the world matrix only as the time the mesh has rotated.
- Floating-point rounding, NaN and infinity: arithmetic is exact on `real`.
- Unguarded divisions: the model assumes a triangle of non-zero area and vertex z and w values that are non-zero and of one sign (`SafeDivisors`), and a non-zero clip w for every vertex (`ProjectableVertices`). The code divides without checking any of these.
- Index range: every index the walk reads is assumed to be below the vertex count (part of `Drawable`). The code does not check this.
- SDL surface handling (lock, blit, present, save BMP), OBJ loading, texture loading and freeing, and the Direct3D device, swap chain, buffers and shaders.
- The hardware renderer is modelled only through the state the render manager drives. Each frame it submits is recorded by its clear colour and whether the fire mesh is drawn.
- `ToggleDepthView`, `ToggleBoundingBoxView`, `ToggleUniformColor` and `CycleCullingMode` are called on the renderers but not declared in the headers. Each is modelled as flipping a flag.
- The initial value of the effects' stored sampler state and of the hardware fire switch are constructor parameters, because the declarations that initialise them are not part of this model.
- Textures.Sample: requires u and v in [0, 1), because the code does no bounds check. `BottomEdgeOverruns` shows the overrun at v = 1.
- Integer width: indices and buffer positions are unbounded integers. `W*H` is assumed not to overflow `int`.
- source/Renderer.h is not part of this model: it declares an older renderer that nothing here uses.

## Findings

| source | as written | input that shows it | evidently intended | confidence | as-written member | corrected member |
|---|---|---|---|---|---|---|
| source/SoftwareRenderer.cpp:265 | the strip loop bound `GetIndices().size() - 2` is computed on unsigned `size_t` | a strip index buffer of 0 or 1 entries: the bound wraps to `2^64 - 2` or `2^64 - 1`, window 0 runs and reads entry `i + 1` or `i + 2` past the end | no triangles for fewer than three indices (`N - 2` windows only when `N >= 2`) | not executed | Topology.StripBoundWrapsOnShortBuffer | Topology.StripTrianglesAt |
