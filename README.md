# DualRasterizer software path in Dafny

This project models the software rasterizer of the DualRasterizer renderer.
Each frame, the renderer resets three screen buffers: a depth buffer, a colour buffer and the SDL back buffer.
It then walks the first mesh's index list three indices at a time.
Every vertex goes through the world-view-projection transform and to screen space.
Each triangle is rasterized in place:
- a bounding-box gate;
- nested pixel loops;
- three edge functions and the barycentric weights;
- a one-vertex cull test;
- a depth test that keeps the nearer depth;
- perspective-correct attribute interpolation;
- a lighting mode switch;
- an optional bounding-box overlay;
- the packed back-buffer write.

Around this sit the renderer's configuration state: mode cycles, flag toggles and the clear-colour choice.
Two more pieces are covered: the mesh's store-on-success construction and its technique cycle, and the closed set of materials.

Modules, following the program's own files:

- `Math` (math.dfy): the vector and colour values. Floats are `real`. `Ceil` and `Trunc` match `std::ceil` and `static_cast<int>`. Normalized and Magnitude are abstract.
- `Datatypes` (datatypes.dfy): `Vertex`, `Vertex_Out` and the three mode enums, with their declared order.
- `Materials` (material.dfy): the four `Material_*` classes as one datatype with a pure `Shade`. The BRDF terms are abstract functions.
- `Config` (config.dfy): the renderer's configuration fields as one value. Also the defaults, the toggles and the mode cycles.
- `Projection` (projection.dfy): the per-vertex part of `VertexTransformationFunction`.
- `Raster` (raster.dfy): triangle setup, as pure definitions:
  - the bounding box and its gate;
  - the edge functions and weights;
  - the inside test, the cull decision and the depth test;
  - the triangle count of `RenderMeshTriangleList`.
- `Shading` (shading.dfy): `CalculateVertexWithAttributes` and `PixelShading`.
- `Rasterizer` (cells.dfy): what one triangle, and then a whole triangle list, does to each buffer cell. `CellAfter` and `CellAfterAll` give it as a closed form, and lemmas prove properties of it.
- `SoftwareRenderer` (renderer.dfy): class `Renderer`. `HandleRenderBB` is split into the column loop `RenderColumn` and the per-pixel `ShadePixel`.
  - Its three buffers are `array`s, updated in place by `ResetBuffers`, `HandleRenderBB`, `RenderMeshTriangleList` and `Render`.
  - Each of these is proved against the closed form of `Rasterizer`.
  - Its configuration fields are changed by the `Toggle*` and `Cycle*` methods.
- `MeshModel` (mesh.dfy): class `Mesh`, covering the constructor's store-on-success logic and `CycleTechnique`.

Functions whose bodies are not in the modelled files are passed in as function-valued fields of plain datatypes:
- texture sampling and the BRDF terms;
- `Normalized`/`Magnitude`, `ColorRGB::MaxToOne` and `SDL_MapRGB`;
- the matrices, reduced to the two maps the transform applies.

The model is therefore proved for every choice of them.

## Model

| member | source | states |
|---|---|---|
| Datatypes.DefaultColorsAreWhite | Datatypes.h:7-25 | a default `Vertex` and a default `Vertex_Out` are White, and the default output w is 0 |
| Datatypes.LightingFromOrdinal | Datatypes.h:27-32 | LightingMode values 0..3 in declaration order, each ordinal mapped back to its variant |
| Datatypes.CullFromOrdinal | Datatypes.h:34-38 | CullMode values None, Front, Back at 0..2 |
| Datatypes.SampleFromOrdinal | Datatypes.h:40-44 | SampleMode values Point, Linear, Anisotropic at 0..2 |
| Datatypes.OrdinalsRoundTrip | Datatypes.h:27-44 | the ordinal and back gives every enum value back |
| Materials.SolidColorIgnoresInputs | Material.h:41-44 | `Material_SolidColor::Shade` returns its colour for every vertex, light and view |
| Materials.LambertIgnoresInputs | Material.h:60-63 | `Material_Lambert::Shade` is Lambert(reflectance, colour) and does not depend on its arguments |
| Materials.LambertPhongAddsPhong | Material.h:84-87 | Lambert-Phong is the Lambert term plus Phong evaluated with the negated view direction |
| Materials.CookTorrenceInputs | Material.h:109-118 | f0 is 0.04 grey for metalness 0 and the albedo otherwise; alpha is roughness squared, the same for ±roughness |
| Materials.KdComplementsFresnel | Material.h:127-135 | kd plus the Fresnel term is White for a dielectric; kd is Black for a metal |
| Materials.DefaultCookTorrenceIsCopperMetal | Material.h:145-147 | the defaults are copper, metallic (f0 = albedo, kd = Black) with alpha 0.01 |
| Materials.Shade | Material.h:41-140 | the four `Shade` overrides: the solid colour, Lambert, Lambert plus Phong with −v, and Cook-Torrance spec (D·F·G over 4 (v·n)(−l·n)) plus Lambert(kd, albedo) |
| Config.Toggled | Renderer.h:30-52 | a toggle negates its flag |
| Config.ToggleChangesOnlyItsFlag | Renderer.h:30-52 | a toggle leaves every other flag, mode and colour as it was |
| Config.SettingsExtensional | Renderer.h:66-89 | the configuration is determined by its modes, colour and flags |
| Config.ToggleInvolution | Renderer.h:30-52 | toggling the same flag twice restores the whole configuration |
| Config.RestoredFlagRestores | Renderer.h:30-52 | two changes confined to one flag that bring that flag back restore the whole configuration |
| Config.NextLightingMode | Renderer.cpp:753-776 | the next lighting mode has ordinal (k+1) mod 4 |
| Config.NextCullMode | Renderer.cpp:778-806 | the next cull mode has ordinal (k+1) mod 3 |
| Config.NextSampleMode | Renderer.cpp:727-751 | the next sample mode has ordinal (k+1) mod 3 |
| Config.CycleLightingOrdinal | Renderer.cpp:753-776 | n lighting cycles add n to the ordinal, mod 4 |
| Config.CycleCullOrdinal | Renderer.cpp:778-806 | n cull cycles add n to the ordinal, mod 3 |
| Config.CycleSampleOrdinal | Renderer.cpp:727-751 | n sampler cycles add n to the ordinal, mod 3 |
| Config.LightingCycleReturns | Renderer.cpp:753-776 | four lighting cycles return to the start |
| Config.CullCycleReturns | Renderer.cpp:778-806 | three cull cycles return to the start |
| Config.SampleCycleReturns | Renderer.cpp:727-751 | three sampler cycles return to the start |
| Config.LightingCycleReaches | Renderer.cpp:753-776 | k lighting cycles from m land on t whenever ordinal m plus k is ordinal t, mod 4 |
| Config.CullCycleReaches | Renderer.cpp:778-806 | k cull cycles from m land on t whenever ordinal m plus k is ordinal t, mod 3 |
| Config.SampleCycleReaches | Renderer.cpp:727-751 | k sampler cycles from m land on t whenever ordinal m plus k is ordinal t, mod 3 |
| Config.LightingCycleCoversAll | Renderer.cpp:753-776 | four cycles return to the start, and every lighting mode is reached from every other |
| Config.CullCycleCoversAll | Renderer.cpp:778-806 | three cycles return to the start, and every cull mode is reached |
| Config.SampleCycleCoversAll | Renderer.cpp:727-751 | three cycles return to the start, and every sample mode is reached |
| Config.CycleWrapPoints | Renderer.cpp:727-806 | Combined → ObservedArea, Back → None, Anisotropic → Point, and the steps after them |
| Projection.AcceptsEveryVertex | Renderer.cpp:498 | the store guard of the transform holds for every position |
| Projection.ScreenMappingInverse | Renderer.cpp:488-489 | the NDC → pixel map is inverted exactly; [-1, 1] maps onto [0, width] and [0, height], with y flipped |
| Projection.TransformVertex | Renderer.cpp:478-499 | one vertex: clip position, perspective divide by w, NDC to pixels, z divided and w kept, normal and tangent through the world map, view direction from the camera origin, colour and uv copied |
| Projection.TransformVertexMapsBack | Renderer.cpp:478-499 | w kept, z·w equals clip z, x and y map back to clip x/w and y/w, colour and uv copied |
| Projection.ProjectableKeepsDepth | Renderer.cpp:484-487 | positive clip w and nonzero clip z give a screen vertex with w > 0 and z ≠ 0 |
| Raster.BoundingBox | Renderer.cpp:254-257 | the box encloses the three vertices and each bound is one of the vertex coordinates |
| Raster.EdgesAt | Renderer.cpp:244-280 | the three edge functions at the pixel centre, each the cross product of an edge with the vector from its start |
| Raster.Inside | Renderer.cpp:282-288 | the pixel is inside when all three weights, edge over edge sum, are positive |
| Raster.Culls | Renderer.cpp:290-306 | Back culls when vertex 0's normal·view is negative, Front when it is positive, None never |
| Raster.PixelDepth | Renderer.cpp:309 | the interpolated depth 1 / Σ w_i / z_i, infinite when the denominator is 0 |
| Raster.Passes | Renderer.cpp:310-312 | the depth test continues when the new depth is greater than the stored one, and passes otherwise |
| Raster.LoopRangesOrdered | Renderer.cpp:263-265 | both loop ranges (truncated min to ceiled max) are well ordered |
| Math.Ceil | Renderer.cpp:263-265 | std::ceil as an integer: the least integer not below its argument |
| Math.Trunc | Renderer.cpp:263-265 | static_cast<int>: truncation toward zero |
| Raster.GatedPixelInScreen | Renderer.cpp:259-269 | inside the gate every loop pixel has 0 ≤ px < width−1, 0 ≤ py < height−1 and an index in [0, width·height) |
| Raster.EdgeSumIsTwiceArea | Renderer.cpp:273-282 | the three edge values always sum to twice the signed triangle area |
| Raster.EdgesAtVertices | Renderer.cpp:273-280 | at vertex i only edge value i is nonzero, and it is twice the area |
| Raster.WeightsOf | Renderer.cpp:282-285 | with a nonzero edge sum the weights sum to one and each weight times the sum is its edge value |
| Raster.WeightsAtVertices | Renderer.cpp:282-285 | each vertex of a non-degenerate triangle has weights (1,0,0), (0,1,0) or (0,0,1) |
| Raster.InsideIffSameSign | Renderer.cpp:288 | inside ⟺ all three edge values are positive or all three are negative |
| Raster.DegenerateCoversNothing | Renderer.cpp:282-288 | a zero-area triangle covers no pixel |
| Raster.CullDecision | Renderer.cpp:290-306 | None never culls, Back and Front never both cull, and the decision depends on vertex 0 only |
| Raster.ConstantDepthReproduced | Renderer.cpp:309 | a triangle of constant z interpolates to that z |
| Raster.PassedDepthIsMin | Renderer.cpp:310-313 | a depth that passes the test is at most the stored depth |
| Raster.TriangleCount | Renderer.cpp:450 | the loop bound, with size_t wrap-around and the uint32 cast, is below 2^32 |
| Raster.TriangleIndicesInBounds | Renderer.cpp:450-457 | for 2 ≤ n, the count is (n−2)/3 and triangle i reads indices 3i, 3i+1, 3i+2 < n |
| Raster.TriangleIndicesFitInt | Renderer.cpp:450-457 | with at most 2^31 indices, the positions 3i..3i+2 the loop body reads fit in a C++ int |
| Raster.TriangleCountDropsLast | Renderer.cpp:450 | for n = 3k indices only k−1 triangles are drawn |
| Raster.TriangleCountUnderflow | Renderer.cpp:450 | with 0 or 1 indices the wrapped count is 1431655764 or 1431655765 |
| Shading.CoveredIsDefined | Renderer.cpp:348-376 | at a covered pixel of a renderable triangle the interpolated 1/w is positive, so interpolation is defined |
| Shading.PerspectiveWeightsSumToOne | Renderer.cpp:348-376 | the perspective-corrected weights (w_i/W_i)·W sum to one |
| Shading.CalculateVertexWithAttributes | Renderer.cpp:345-405 | the fragment: all attributes interpolated through 1/w, the textures sampled at the interpolated uv, the normal optionally taken from the normal map; its properties are in `FragmentAttributes` |
| Shading.ConstantAttributeReproduced | Renderer.cpp:351-376 | an attribute with the same value at all three vertices interpolates to that value |
| Shading.EqualWDepth | Renderer.cpp:348-351 | with equal w at all three vertices the interpolated w is that w |
| Shading.EqualWIsAffine | Renderer.cpp:353-371 | with equal w the perspective interpolation of an attribute is the affine Σ w_i·a_i |
| Shading.EqualWPositionKeepsW | Renderer.cpp:373-376 | with equal w the interpolated position is the affine combination of the three positions scaled by w, whose own w is w, so x, y and z pick up a factor w and the interpolated w is w² |
| Shading.FragmentAttributes | Renderer.cpp:345-405 | uv and normal are perspective-interpolated; colour, gloss and ks are sampled at that uv; the position is weighted without 1/w; a triangle with one uv samples exactly that uv |
| Shading.ObservedAreaTerm | Renderer.cpp:409-410 | the observed-area term lies in [0, 1] and equals the cosine whenever the cosine does |
| Shading.PixelShading | Renderer.cpp:407-445 | the switch on the lighting mode; what each case returns is in `PixelShadingModes` |
| Shading.PixelShadingModes | Renderer.cpp:407-445 | ObservedArea is the grey (t, t, t) of the observed-area term t, in [0,1]; Diffuse is Lambert(7, colour)·t; Specular is Phong with exponent gloss·25; Combined is their sum |
| Shading.UnlitKeepsOnlySpecular | Renderer.cpp:409-430 | a surface facing away from the light gets black observed area and black diffuse, so Combined equals Specular |
| Rasterizer.ToByte | Renderer.cpp:337-339 | a channel in [0,1] becomes a byte in [0,255], and 1 becomes 255 |
| Rasterizer.Pack | Renderer.cpp:332-339 | the back-buffer value: MaxToOne, then the three channels as bytes through SDL_MapRGB |
| Rasterizer.LinearDepth | Renderer.cpp:320 | 2·near / (far + near − d·(far − near)), the grey shown in depth view; 0 at its pole |
| Rasterizer.Outcome | Renderer.cpp:268-339 | one visited pixel: depth test, depth write, depth view or shading, overlay, packing |
| Rasterizer.CellAfter | Renderer.cpp:259-339 | a cell after one triangle: its outcome when its pixel is processed, else unchanged |
| Rasterizer.LinearDepthRange | Renderer.cpp:320 | the depth view maps 1 to 1 and −1 to near/far, and is positive and increasing below its pole |
| Rasterizer.IndexOfPixel | Renderer.cpp:268 | for 0 ≤ px < width, the index px + py·width gives back px and py |
| Rasterizer.PixelOfIndex | Renderer.cpp:268 | every index is the index of its own column and row |
| Rasterizer.VisitedIndex | Renderer.cpp:259-269 | a pixel that passes the gate, the box and the index check lies on screen and owns its index |
| Rasterizer.DoneStep | Renderer.cpp:265-269 | one inner-loop step adds exactly the current index to the processed set, when it is visited |
| Rasterizer.DoneColumn | Renderer.cpp:263-265 | the end of a column is the start of the next |
| Rasterizer.NoCoverStep | Renderer.cpp:288-306 | an uncovered step keeps "no covered pixel so far" |
| Rasterizer.NoCoverColumn | Renderer.cpp:263-265 | "no covered pixel so far" carries over to the next column |
| Rasterizer.Finished | Renderer.cpp:263-342 | after both loops the processed cells are exactly those the closed form names |
| Rasterizer.StoppedAt | Renderer.cpp:290-306 | when a culled triangle returns at its first covered pixel, the cells processed so far are exactly those the closed form names |
| Rasterizer.DepthNeverIncreases | Renderer.cpp:309-313 | one triangle never increases a cell's depth |
| Rasterizer.DepthIsMin | Renderer.cpp:309-313 | a processed covered cell ends with the minimum of the old and the interpolated depth |
| Rasterizer.GateClosedLeavesCell | Renderer.cpp:259-261 | a triangle whose box is not on screen changes no cell |
| Rasterizer.UnvisitedCellsUnchanged | Renderer.cpp:263-269 | index 0 and every cell outside the box are never written |
| Rasterizer.ProcessedInScreen | Renderer.cpp:268-269 | every processed pixel has an index in (0, width·height) that names it |
| Rasterizer.CulledKeepsDepth | Renderer.cpp:290-339 | a culled triangle leaves every depth cell as it was; a colour cell changes only through the bounding-box overlay, since pixels visited before the first covered one are still overlaid (and re-packed into the back buffer) |
| Rasterizer.NoneNeverCulls | Renderer.cpp:304-305 | with CullMode None every visited pixel is processed |
| Rasterizer.RasterizeIdempotent | Renderer.cpp:309-339 | drawing the same triangle twice leaves every cell as drawing it once |
| Rasterizer.MeshDepthNeverIncreases | Renderer.cpp:447-467 | over a whole triangle list the depth of a cell only decreases |
| Rasterizer.MeshNeverWritesIndexZero | Renderer.cpp:269 | over a whole triangle list cell 0 keeps its reset value |
| SoftwareRenderer.Triangle | Renderer.cpp:452-463 | triangle t is the transformed vertices at indices 3t..3t+2, and it is renderable |
| SoftwareRenderer.Triangles | Renderer.cpp:450-463 | the first k triangles, each renderable |
| SoftwareRenderer.TrianglesInOrder | Renderer.cpp:450-463 | entry t of the first k triangles is triangle t, so the list is in loop order |
| SoftwareRenderer.TrianglesStep | Renderer.cpp:450-465 | drawing t + 1 triangles is drawing t of them and then triangle t |
| SoftwareRenderer.Renderer.constructor | Renderer.h:66-89 | modes Back/Point/Combined, software path, rotation, normal map and fire on, other flags off, software clear colour, initialized exactly when DirectX came up |
| SoftwareRenderer.Renderer.ToggleRenderer | Renderer.h:30-33 | flips the hardware flag only |
| SoftwareRenderer.Renderer.ToggleRotation | Renderer.h:35-38 | flips the rotation flag only |
| SoftwareRenderer.Renderer.ToggleNormalMap | Renderer.h:40-43 | flips the normal-map flag only |
| SoftwareRenderer.Renderer.ToggleBoundingBox | Renderer.h:45-48 | flips the bounding-box flag only |
| SoftwareRenderer.Renderer.ToggleFire | Renderer.h:50 | flips the fire flag only |
| SoftwareRenderer.Renderer.ToggleDepthBuffer | Renderer.h:51 | flips the depth-view flag only |
| SoftwareRenderer.Renderer.ToggleClearColor | Renderer.h:52 | flips the clear-colour flag only |
| SoftwareRenderer.Renderer.CycleCullMode | Renderer.cpp:778-806 | the cull mode advances with wrap; nothing else changes |
| SoftwareRenderer.Renderer.CycleLightingMode | Renderer.cpp:753-776 | the lighting mode advances with wrap; nothing else changes |
| SoftwareRenderer.Renderer.CycleSampler | Renderer.cpp:727-751 | the sample mode advances with wrap; nothing else changes |
| SoftwareRenderer.Renderer.SelectClearColor | Renderer.cpp:170-173 | uniform grey when the clear-colour flag is on, else the hardware or software colour |
| SoftwareRenderer.Renderer.ResetBuffers | Renderer.cpp:215-219 | every depth cell is FLT_MAX, every colour cell the selected colour, every back-buffer pixel the clear value |
| SoftwareRenderer.Renderer.VertexTransformationFunction | Renderer.cpp:469-502 | one output per input, in order, each the transformed vertex |
| SoftwareRenderer.Renderer.ShadePixel | Renderer.cpp:308-339 | the pixel's own cell becomes its outcome (depth test, shading or depth view, overlay, packing); no other cell changes |
| SoftwareRenderer.Renderer.HandleRenderBB | Renderer.cpp:239-343 | every cell of the three buffers ends as the closed form `CellAfter` says |
| SoftwareRenderer.Renderer.RenderColumn | Renderer.cpp:265-341 | one column of the box: either a culled triangle covered a pixel and every cell is final, or the cells processed so far grow by the column's visited pixels |
| SoftwareRenderer.Renderer.RenderTriangle | Renderer.cpp:452-465 | the cells end as triangle t's closed form says |
| SoftwareRenderer.Renderer.RenderMeshTriangleList | Renderer.cpp:447-467 | every cell ends as the closed form `CellAfterAll` of the mesh's triangles says |
| SoftwareRenderer.Renderer.Render | Renderer.cpp:189-236 | the hardware path leaves the software buffers alone; the software path is the reset followed by the triangle list |
| MeshModel.TechniqueName | Mesh.cpp:146-165 | exactly Point, Linear, Anisotropic and Flat name an effect technique |
| MeshModel.TechniqueCycleOfThree | Mesh.cpp:141-143 | from Point, Linear or Anisotropic the cycle stays among them and has period three |
| MeshModel.FlatLeavesCycle | Mesh.cpp:141-165 | cycling never produces Flat, and cycling from Flat gives a value with no effect technique |
| MeshModel.TechniqueNamesDistinct | Mesh.cpp:146-162 | different techniques select different effect techniques |
| MeshModel.Mesh.constructor | Mesh.cpp:6-87 | the effect starts on "DefaultTechnique"; the index count is set only after the vertex buffer succeeds; vertices and indices are kept only if both buffers succeed |
| MeshModel.Mesh.CycleTechnique | Mesh.cpp:139-167 | the technique advances with wrap; a named technique selects its effect technique; the current technique is read back from the effect |

## Left out

- Hardware path: `InitializeDirectX`, the hardware branch of `Render`, Effect.cpp, `Mesh::Render`, input layouts and samplers are Direct3D plumbing. The constructors reduce them to success flags.
- SDL: surfaces, locking, blitting and `SaveBufferToImage` are I/O. `SDL_FillRect` is modelled as storing its raw value in every back-buffer pixel, and `SDL_MapRGB` is an abstract function.
- Camera.h and `Renderer::Update`: the timer-driven rotation and the matrix products are not modelled. The only part of `Update` modelled is the clear-colour choice, in `SelectClearColor`.
- The world-view-projection matrix is an abstract map from position to clip space. The world matrix is an abstract map on normals and tangents.
- `concurrency::parallel_for`: the triangles run sequentially, in index order, with `RenderTriangle` as the body of the lambda. The race between triangles on one pixel is not modelled.
- Floats are `real`: rounding, NaN, infinities and −0 are not modelled. An infinite interpolated depth (a zero denominator) is modelled as failing the depth test. The depth view (`LinearDepth`) gives 0 at its pole, where the float division gives an infinity.
- The inside test is modelled as "all three edge values have the sign of their sum". When the sum is 0, the float division gives no positive weight, and the model reports "not inside" in that case too.
- The uint8 cast of a colour channel outside [0, 1] (`ToByte`) is not reduced mod 256. `MaxToOne` is abstract, so the model does not assume the channel is in range.
- Material.h's default arguments `{}` are passed explicitly as zero vectors.
- Mesh.h is not part of this model:
  - the `Technique` enum is taken to be Point, Linear, Anisotropic, Flat (0..3), the order of the switch;
  - `m_NumIndices` before the constructor sets it is taken as 0;
  - the initial `m_Technique` is a constructor parameter.
- `m_Meshes[0]` is the triangle list passed to `Render`. Loading the OBJ files and textures is asset I/O.
- Normal mapping: the tangent-space sample is decoded and transformed through the abstract `Normalized`. Math.h is not part of this model, so the matrix built from tangent, binormal and normal is assumed to have them as its rows, with `TransformVector` summing the rows weighted by the sample's components (`TangentToWorld`). No property of the normal-mapped normal is stated beyond its formula.
- SoftwareRenderer.Renderer.VertexTransformationFunction: it requires every clip w to be nonzero. The source divides by w unconditionally.
- SoftwareRenderer.Renderer.HandleRenderBB: it requires each vertex to have w > 0 and z ≠ 0 (`Renderable`), so the perspective denominator is positive. The source has no such check.
- SoftwareRenderer.Renderer.RenderMeshTriangleList: it requires at least two indices, all indices in range and every vertex projectable. With fewer than two indices the source's count wraps (`TriangleCountUnderflow`) and it reads out of bounds.
- SoftwareRenderer.Renderer.RenderMeshTriangleList: it also requires at most 2^31 indices and at most 2^31 vertices (`FitsInt`). Beyond that, `index + 2` overflows the C++ int (undefined behaviour), and a stored index of 2^31 or more turns negative under `static_cast<int>`. The int wrap itself is not modelled.
- SoftwareRenderer.Renderer.RenderTriangle: it requires `FitsInt`, for the same reason.
- SoftwareRenderer.Renderer.Render: it requires `FitsInt`, for the same reason.
- `size_t` is taken to be 64 bits wide in `TriangleCount`.
- The `std::cout` messages of the toggle and cycle handlers (Renderer.h, Renderer.cpp, Mesh.cpp's `CycleTechnique`) are console output and are not modelled.
