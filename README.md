# RenderMe core in Dafny

RenderMe is a terminal 3D renderer written in C++. It keeps vertices in
struct-of-arrays buffers and moves them into camera space with a look-at view.
It projects them with a perspective divide and maps them onto an 80 × 24
character grid. There it draws wireframes with a Bresenham line walk, or filled
triangles with edge functions. A debug overlay and some terminal bookkeeping
(size, key state) sit around the frame loop.

This project models that core in Dafny and proves properties of the model.

- `double` is read as `real`, so every result here is exact arithmetic.
- The square root is a parameter `sqrt: real -> real`. Its properties are stated
  where a lemma needs them.
- The grid is an `array2<char>` with 24 rows (`Length0`) and 80 columns
  (`Length1`). It is indexed `fb[row, column]`, as the C++ writes `fb[y][x]`.
- Objects the C++ code updates in place are Dafny classes. These are the buffers
  (`Vec3Buffer`, `Vec2Buffer`, `TriangleBuffer`), the debug overlay's state and
  the terminal's globals. Their methods state the whole new state.

Modules, one per source file:

| module | file | content |
|---|---|---|
| `DataTypes` | data_types.dfy | `Int2`, `Vec3`, `Vec2`, `CameraView`, `Tri`, `Edge`, the three buffers, the screen constants |
| `Math3D` | math3d.dfy | vector algebra and its buffer overloads |
| `VectorOperations` | vector_operations.dfy | the bounds-checked variants |
| `CameraMath` | camera_math.dfy | `LookAt`, `WorldToCamera`, `ProjectToScreen`, `MapToScreen` |
| `MeshBuilder` | mesh_builder.dfy | triangle and pyramid meshes |
| `FrameBuffer` | frame_buffer.dfy | the grid and its clearing loop |
| `FilledRenderer` | filled_renderer.dfy | the triangle fill |
| `WireframeRenderer` | wireframe_renderer.dfy | edge extraction and the line walk |
| `LineSampling` | line_sampling.dfy | the point-sampled wireframe of src/Math3D.hpp |
| `TerminalControl` | terminal_control.dfy | size, resize and key bookkeeping, `PrintableChar` |
| `DebugUI` | debug_ui.dfy | the overlay |

src/Math3D.hpp repeats several engine functions word for word:

- the vector operations;
- `LookAt`, `WorldToCamera`, `ProjectToScreen` and `MapToScreen`;
- `BuildTriangleMesh` and `BuildPyramidMesh`.

Each of these is modelled once. The table cites the engine copy.

Four behaviours of the code worth knowing:

- The line walk is not symmetric under swapping its endpoints (`LineNotSymmetric`).
- The pyramid mesh is four independent triangles with twelve vertices, not a
  shared-vertex tetrahedron. Its wireframe therefore has twelve edges, not six
  (`PyramidHasTwelveEdges`).
- The fill has no depth buffer: a later triangle simply overwrites the cells it
  covers.
- `PrintableChar` writes `0x` before DECIMAL digits, so newline shows as `0x10`.

## Model

| member | source | states |
|---|---|---|
| DataTypes.Clamp | engine/CameraMath.hpp:76-77 | `std::clamp`: the result lies in `[lo, hi]`; it is the value itself inside the range and the nearer bound outside |
| DataTypes.MakeEdge | engine/DataTypes.hpp:97-101 | the `Edge` constructor stores the two indices smaller first, and keeps exactly the two given indices |
| DataTypes.MakeEdgeEquality | engine/DataTypes.hpp:97-101 | edges built from `(i, j)` and `(j, i)` are equal; `operator==` agrees with value equality; two edges are equal exactly when they join the same two indices |
| DataTypes.Vec3Buffer.constructor | engine/DataTypes.hpp:37 | a new buffer is empty |
| DataTypes.Vec3Buffer.FromArray | engine/DataTypes.hpp:39-52 | the array constructor copies `count` points in order |
| DataTypes.Vec3Buffer.Clear | engine/DataTypes.hpp:54-56 | `clear` empties all three coordinate vectors |
| DataTypes.Vec3Buffer.PushBack | engine/DataTypes.hpp:58-60 | `push_back` appends one point and leaves the earlier points unchanged; `size` grows by one |
| DataTypes.Vec2Buffer.constructor | engine/DataTypes.hpp:72 | a new buffer is empty |
| DataTypes.Vec2Buffer.Clear | engine/DataTypes.hpp:74-76 | `clear` empties both coordinate vectors |
| DataTypes.Vec2Buffer.PushBack | engine/DataTypes.hpp:78-80 | `push_back` appends one point and leaves the earlier points unchanged |
| DataTypes.TriangleBuffer.constructor | engine/DataTypes.hpp:18-19 | a new index buffer is empty |
| DataTypes.TriangleBuffer.Clear | engine/DataTypes.hpp:21 | `clear` empties the index list |
| DataTypes.TriangleBuffer.PushBack | engine/DataTypes.hpp:23-26 | `push_back` appends one index triple |
| Math3D.VecAddAtomic | engine/Math3D.hpp:14-16 | component-wise sum; a definition, whose properties `VecNegateInverse` states |
| Math3D.VecSubAtomic | engine/Math3D.hpp:18-20 | component-wise difference; a definition, see `VecNegateInverse` |
| Math3D.VecScaleAtomic | engine/Math3D.hpp:22-24 | each component times `s`; a definition, see `VecNormalizeUnit` and `CameraMath.ScaledDot` |
| Math3D.VecDotAtomic | engine/Math3D.hpp:26-28 | the sum of component products; a definition, see `VecDotSymmetric` |
| Math3D.VecCrossAtomic | engine/Math3D.hpp:30-36 | the cross product; a definition, see `VecCrossOrthogonal` |
| Math3D.VecLengthAtomic | engine/Math3D.hpp:38-40 | the square root of the squared length; a definition, see `NegateSelfDot` and `VecNormalizeUnit` |
| Math3D.VecNormalizeAtomic | engine/Math3D.hpp:42-45 | the zero vector at zero length, otherwise the vector divided by its length; a definition, see `VecNormalizeZero` and `VecNormalizeUnit` |
| Math3D.VecNegateAtomic | engine/Math3D.hpp:47-49 | each component negated; a definition, see `VecNegateInverse` |
| Math3D.VecEqualsAtomic | engine/Math3D.hpp:51-55 | each component differs by less than `epsilon`; a definition, see `VecEqualsCharacterised` |
| Math3D.Lerp | engine/Math3D.hpp:109-115 | the interpolation `a + (b - a) t` written out in `VecLerp`; a definition, see `LerpEndpoints` |
| Math3D.Projection | engine/Math3D.hpp:128-131 | `b` scaled by `dot(a, b) / dot(b, b)`; a definition, see `ProjectionResidualOrthogonal` |
| Math3D.VecAbsAtomic | engine/Math3D.hpp:135-142 | the component-wise absolute value appended by `VecAbs`; a definition, see `VecAbsNonNegative` |
| Math3D.VecDotSymmetric | engine/Math3D.hpp:26-28 | the dot product is symmetric |
| Math3D.VecNegateInverse | engine/Math3D.hpp:14-20 | negation undoes itself; `v + (-v)` and `v - v` are the zero vector |
| Math3D.VecCrossOrthogonal | engine/Math3D.hpp:30-36 | the cross product is orthogonal to both factors, and a vector crossed with itself is zero |
| Math3D.VecEqualsCharacterised | engine/Math3D.hpp:51-55 | approximate equality holds exactly when all three component differences are below `epsilon` in absolute value; it is symmetric; a vector equals itself exactly when `epsilon > 0` |
| Math3D.VecNormalizeZero | engine/Math3D.hpp:42-45 | the zero vector normalises to itself, whatever the square root returns |
| Math3D.VecNormalizeUnit | engine/Math3D.hpp:38-45 | with a positive exact square root, the normalised vector has squared length 1 and is a positive multiple of the input |
| Math3D.LerpEndpoints | engine/Math3D.hpp:105-117 | interpolation at `t = 0` gives the start and at `t = 1` the end |
| Math3D.ProjectionResidualOrthogonal | engine/Math3D.hpp:125-133 | `a` minus its projection on `b` is orthogonal to `b` |
| Math3D.VecAbsNonNegative | engine/Math3D.hpp:135-142 | every component of the absolute value is non-negative, and negating the input does not change it |
| Math3D.NegateSelfDot | engine/Math3D.hpp:38-40 | a vector and its negation have the same squared length |
| Math3D.VecAdd | engine/Math3D.hpp:59-67 | appends the sum of the two indexed points; earlier output is unchanged |
| Math3D.VecSubBuffer | engine/Math3D.hpp:69-74 | appends the difference of the two indexed points |
| Math3D.VecScaleBuffer | engine/Math3D.hpp:76-81 | appends the scaled point |
| Math3D.VecDotBuffer | engine/Math3D.hpp:83-86 | the dot product of the indexed points, the same in either operand order |
| Math3D.VecCrossBuffer | engine/Math3D.hpp:88-93 | appends the cross product of the indexed points |
| Math3D.VecLengthBuffer | engine/Math3D.hpp:95-97 | the length of the indexed point equals the length of its negation |
| Math3D.VecDistance | engine/Math3D.hpp:99-103 | the distance from `a[ai]` to `b[bi]` equals the distance from `b[bi]` to `a[ai]` |
| Math3D.VecLerp | engine/Math3D.hpp:105-117 | appends `a + (b - a) t`; the appended point is `a` at `t = 0` and `b` at `t = 1` |
| Math3D.VecNormalizeBuffer | engine/Math3D.hpp:119-123 | appends the normalised point |
| Math3D.VecProject | engine/Math3D.hpp:125-133 | appends the projection of `a[ai]` on `b[bi]` when `b[bi]` is not zero |
| Math3D.VecAbs | engine/Math3D.hpp:135-142 | appends the component-wise absolute value, whose components are all non-negative |
| Math3D.VecNegateBuffer | engine/Math3D.hpp:144-148 | appends the negated point |
| Math3D.VecEqualsBuffer | engine/Math3D.hpp:150-154 | buffer equality is approximate equality of the indexed points, in either order |
| VectorOperations.VecAddAtomic | engine/VectorOperations.hpp:25-39 | with both inputs below the bounds, the checked sum is the plain sum, and subtracting the addend gives the base back |
| VectorOperations.VecSubAtomic | engine/VectorOperations.hpp:42-56 | with both inputs below the bounds, the checked difference is the plain difference, and adding the subtrahend back gives the minuend |
| VectorOperations.VecScaleAtomic | engine/VectorOperations.hpp:59-75 | with the input and the result below the bounds (checked before and after), the result is the plain scaling |
| VectorOperations.VecDotAtomic | engine/VectorOperations.hpp:77-95 | the checked dot product is the plain one, in either operand order |
| VectorOperations.VecCrossAtomic | engine/VectorOperations.hpp:98-119 | the checked cross product is the plain one, and it is the negation of the swapped product |
| VectorOperations.VecLengthAtomic | engine/VectorOperations.hpp:122-135 | the checked length is the plain length, and it does not change under negation |
| VectorOperations.VecNormalizeAtomic | engine/VectorOperations.hpp:137-150 | a zero length gives the zero vector; otherwise the result is the checked scaling by the inverse length, so it lies below the bounds |
| VectorOperations.VecNegateAtomic | engine/VectorOperations.hpp:153-163 | the checked negation is the plain one, and adding it to the input gives zero |
| VectorOperations.VecAddIndexed | engine/VectorOperations.hpp:176-204 | appends the sum of the indexed points; the inputs and the sum must pass the bounds checks, so the appended point is below the bounds |
| VectorOperations.VecAddIndexedSingleBuffer | engine/VectorOperations.hpp:206-225 | replaces entry `ib` by `buffer[ib] + buffer[ia]` in place and leaves every other entry alone; with `ib == ia` the entry doubles |
| VectorOperations.VecSubIndexed | engine/VectorOperations.hpp:229-243 | appends the checked difference of the indexed points |
| VectorOperations.VecScaleIndexed | engine/VectorOperations.hpp:245-258 | appends the checked scaling of the indexed point |
| VectorOperations.VecDotIndexed | engine/VectorOperations.hpp:260-271 | the checked dot product of the indexed points, in either order |
| VectorOperations.VecCrossIndexed | engine/VectorOperations.hpp:273-287 | appends the checked cross product of the indexed points |
| VectorOperations.VecLengthIndexed | engine/VectorOperations.hpp:289-298 | the checked length of the indexed point, equal to the length of its negation |
| VectorOperations.VecDistanceIndexed | engine/VectorOperations.hpp:300-314 | the length of the checked difference, which is the same measured in the other direction |
| VectorOperations.VecLerpIndexed | engine/VectorOperations.hpp:316-343 | appends `start + (end - start) t` |
| VectorOperations.VecNormalizeIndexed | engine/VectorOperations.hpp:347-351 | appends the checked normalisation of the indexed point |
| VectorOperations.VecProject | engine/VectorOperations.hpp:353-361 | appends the projection of `a[ai]` on a non-zero `b[bi]` |
| VectorOperations.VecNegateBuffer | engine/VectorOperations.hpp:372-376 | appends the checked negation of the indexed point |
| CameraMath.LookAt | engine/CameraMath.hpp:11-36 | the view's offset is minus the eye's coordinate along each axis; when the normalised viewing direction is not (anti)parallel to `up`, it is the forward axis |
| CameraMath.ScaledDot | engine/Math3D.hpp:22-28 | scaling one factor of a dot product scales the product |
| CameraMath.NormalizedCrossOrthogonal | engine/CameraMath.hpp:23-29 | a normalised cross product is orthogonal to both factors, whatever the square root returns |
| CameraMath.LookAtAxesOrthogonal | engine/CameraMath.hpp:11-36 | the right, up and forward axes of `LookAt`'s view are pairwise orthogonal, in both branches |
| CameraMath.CameraPoint | engine/CameraMath.hpp:43-49 | the camera-space point: the eye-relative point projected on each axis; a definition, whose properties `EyeMapsToOrigin` and `LookAtOffsetIsTranslation` state |
| CameraMath.Project | engine/CameraMath.hpp:59-64 | the image-plane point `x·fx/z`, `y·f/z`; a definition, whose properties `ProjectAxisToCentre` and `ProjectScaleInvariant` state |
| CameraMath.EyeMapsToOrigin | engine/CameraMath.hpp:38-51 | the eye lands on the camera-space origin, whatever the axes |
| CameraMath.DotOfDifference | engine/CameraMath.hpp:43-49 | the dot product with an axis distributes over the difference with the eye |
| CameraMath.LookAtOffsetIsTranslation | engine/CameraMath.hpp:30-35 | with `LookAt`'s view, subtracting the eye and then projecting on the axes is the same as projecting and adding the view's offset |
| CameraMath.WorldToCamera | engine/CameraMath.hpp:38-51 | appends the camera-space coordinates of the indexed world point |
| CameraMath.ProjectAxisToCentre | engine/CameraMath.hpp:53-65 | a point on the optical axis projects to the image centre at any depth |
| CameraMath.ProjectScaleInvariant | engine/CameraMath.hpp:53-65 | scaling a point in front of the camera by a positive factor does not move its projection |
| CameraMath.ProjectToScreen | engine/CameraMath.hpp:53-65 | for a point in front of the camera, appends `x·fx/z` and `y·f/z`, where `fx = (f / aspect)·2` |
| CameraMath.Round | engine/CameraMath.hpp:74-75 | `std::round`: the result is within one half of the input, and a tie is rounded away from zero |
| CameraMath.RoundMonotone | engine/CameraMath.hpp:74-75 | rounding never reverses order |
| CameraMath.FloorMonotone | engine/CameraMath.hpp:74-75 | the floor never reverses order |
| CameraMath.ScreenCell | engine/CameraMath.hpp:67-79 | every projected point maps to a cell inside the screen |
| CameraMath.MapToScreen | engine/CameraMath.hpp:67-79 | `MapToScreen` on a buffer entry always returns a cell inside the screen |
| CameraMath.CellIndex | engine/CameraMath.hpp:73-76 | rounding a scaled coordinate and clamping it gives an index in `[0, n - 1]` |
| CameraMath.CellIndexEdges | engine/CameraMath.hpp:73-76 | a scaled coordinate at or beyond `n` gives the last index, one at or below 0 gives index 0 |
| CameraMath.CellIndexMonotone | engine/CameraMath.hpp:73-76 | a larger scaled coordinate never gives a smaller index |
| CameraMath.ClampMonotone | engine/CameraMath.hpp:76-77 | clamping keeps order |
| CameraMath.ScreenColumnMonotone | engine/CameraMath.hpp:71-75 | on the 80 × 24 grid, a point further right on the image plane never lands in a column further left |
| CameraMath.ScreenRowAntitone | engine/CameraMath.hpp:72-76 | on the 80 × 24 grid, a point higher on the image plane never lands in a lower row (y is flipped) |
| CameraMath.ScreenCellEdges | engine/CameraMath.hpp:71-76 | on the 80 × 24 grid, points at or beyond the image-plane edges land on the border columns and rows |
| CameraMath.ScreenCellCentre | engine/CameraMath.hpp:72-77 | the image centre maps to the rounded screen middle, cell (40, 12) on the 80 × 24 grid |
| MeshBuilder.FreshTriangle | engine/MeshBuilder.hpp:4-14 | the new triangle uses exactly the indices `base`, `base + 1` and `base + 2` |
| MeshBuilder.FreshTriangleKeepsIndicesValid | engine/MeshBuilder.hpp:4-14 | if all indices were below the old vertex count, they are all below the new one after adding a triangle |
| MeshBuilder.BuildTriangleMesh | engine/MeshBuilder.hpp:4-14 | appends the three vertices and the triangle joining them; valid indices stay valid |
| MeshBuilder.PyramidTriangles | engine/MeshBuilder.hpp:18-31 | four triangles whose index sets are pairwise disjoint, all below `base + 12` |
| MeshBuilder.FreshTrianglesApart | engine/MeshBuilder.hpp:18-31 | triangles built three or more vertices apart share no index |
| MeshBuilder.BuildPyramidMesh | engine/MeshBuilder.hpp:18-31 | appends twelve vertices (base, then three sides) and four triangles; valid indices stay valid |
| FrameBuffer.ClearFramebuffer | engine/FrameBuffer.hpp:5-12 | every cell of the grid holds a space afterwards |
| FilledRenderer.ClampedBox | engine/FilledRenderer.hpp:12-20 | the clamped bounding box lies inside the grid |
| FilledRenderer.EdgeFunction | engine/FilledRenderer.hpp:23-25 | the edge lambda, the cross product of `b - a` and `c - a`; a definition, whose properties the `Edge*` lemmas below state |
| FilledRenderer.EdgeAntisymmetric | engine/FilledRenderer.hpp:23-25 | swapping an edge's two ends negates the edge value |
| FilledRenderer.EdgeCyclic | engine/FilledRenderer.hpp:23-25 | rotating the three points leaves the edge value unchanged |
| FilledRenderer.EdgeSumIsArea | engine/FilledRenderer.hpp:23-33 | the three edge values of any cell add up to the triangle's area term |
| FilledRenderer.EdgeAtEndpoints | engine/FilledRenderer.hpp:23-25 | the edge value is zero at both ends of the edge |
| FilledRenderer.CoversPermutationInvariant | engine/FilledRenderer.hpp:7-42 | rotating the corners, or swapping two of them, fills exactly the same cells |
| FilledRenderer.CoversRotate | engine/FilledRenderer.hpp:7-42 | rotating the corners fills exactly the same cells |
| FilledRenderer.CoversSwap | engine/FilledRenderer.hpp:7-42 | swapping two corners, which reverses the winding, fills exactly the same cells |
| FilledRenderer.CornersCovered | engine/FilledRenderer.hpp:30-41 | every on-grid corner of a non-degenerate triangle is filled |
| FilledRenderer.DegenerateCoversNothing | engine/FilledRenderer.hpp:27-28 | a triangle of zero area fills nothing |
| FilledRenderer.DrawFilledTriangle | engine/FilledRenderer.hpp:7-42 | each cell becomes `ch` exactly when it is covered (in the clamped box, edge values of one sign, non-zero area); every other cell keeps its value |
| FilledRenderer.DrawFilledTriangleTwice | engine/FilledRenderer.hpp:7-42 | drawing the same triangle twice has the effect of drawing it once |
| WireframeRenderer.ExtractEdges | engine/WireframeRenderer.hpp:8-16 | the loop collects exactly the union of the three edges of every triangle |
| WireframeRenderer.EdgesOfMembership | engine/WireframeRenderer.hpp:8-16 | an edge is extracted exactly when some triangle has it as a side |
| WireframeRenderer.EdgesOfNormalised | engine/WireframeRenderer.hpp:11-13 | every extracted edge stores its smaller index first, so each undirected side appears once |
| WireframeRenderer.EdgesOfBound | engine/WireframeRenderer.hpp:8-16 | at most three edges per triangle are extracted |
| WireframeRenderer.SharedSideExtractedOnce | engine/WireframeRenderer.hpp:8-16 | two triangles sharing a side give five edges, not six |
| WireframeRenderer.FreshTriangleEdges | engine/MeshBuilder.hpp:4-14 | a triangle built on fresh vertices has three distinct edges, all within its own indices |
| WireframeRenderer.SeparatedUnion | engine/WireframeRenderer.hpp:8-16 | edge sets on disjoint index ranges add up in size |
| WireframeRenderer.PyramidEdgesOf | engine/MeshBuilder.hpp:18-31 | the edges of the pyramid mesh are the union of the four triangles' own edges |
| WireframeRenderer.PyramidHasTwelveEdges | engine/MeshBuilder.hpp:18-31 | the pyramid mesh yields twelve edges, since no vertices are shared |
| WireframeRenderer.MulMonotone | engine/WireframeRenderer.hpp:31-33 | multiplying by a non-negative factor keeps order |
| WireframeRenderer.AtEndIff | engine/WireframeRenderer.hpp:30 | on track, the cursor is at the end point exactly when both step counts are used up |
| WireframeRenderer.NoOvershootX | engine/WireframeRenderer.hpp:31-32 | once every x step is taken, the error term forbids another one |
| WireframeRenderer.NoOvershootY | engine/WireframeRenderer.hpp:31-33 | once every y step is taken, the error term forbids another one |
| WireframeRenderer.CountStep | engine/WireframeRenderer.hpp:32-33 | one more step adds one more multiple to the error term |
| WireframeRenderer.AdvanceOnTrack | engine/WireframeRenderer.hpp:31-33 | one iteration keeps the error term in step with the step counts, moves toward the end, and takes at most one step on each axis |
| WireframeRenderer.StartOnTrack | engine/WireframeRenderer.hpp:22-25 | the initial error term `dx + dy` agrees with zero steps taken |
| WireframeRenderer.Plot | engine/WireframeRenderer.hpp:27-29 | only the cell at `(x, y)` may change, and only when it is on the grid; the set of drawn cells grows by that cell |
| WireframeRenderer.WalkStep | engine/WireframeRenderer.hpp:26-34 | away from the end, the walk is the current cell followed by the walk from the next cursor |
| WireframeRenderer.Step | engine/WireframeRenderer.hpp:31-33 | the two conditional steps of the loop body compute `Advance` of the cursor |
| WireframeRenderer.DrawLine | engine/WireframeRenderer.hpp:19-35 | the loop ends; a cell becomes `ch` exactly when it is on the line walk from `a` to `b`, and every other cell keeps its value |
| WireframeRenderer.WalkEnds | engine/WireframeRenderer.hpp:26-34 | a walk starts at the cursor and ends at `b` |
| WireframeRenderer.LineEndpoints | engine/WireframeRenderer.hpp:19-35 | the line starts at `a` and ends at `b` |
| WireframeRenderer.WalkSteps | engine/WireframeRenderer.hpp:31-33 | consecutive walk cells differ by at most one on each axis, in the direction of `b` |
| WireframeRenderer.LineSteps | engine/WireframeRenderer.hpp:19-35 | consecutive line cells are 8-neighbours, each step moving toward `b` |
| WireframeRenderer.WalkLength | engine/WireframeRenderer.hpp:26-34 | a walk takes one cell per remaining step along the major axis |
| WireframeRenderer.LineLength | engine/WireframeRenderer.hpp:19-35 | the line has `max(dx, dy) + 1` cells |
| WireframeRenderer.LineExample | engine/WireframeRenderer.hpp:19-35 | from (0,0) to (4,2) the walk visits (0,0), (1,1), (2,1), (3,2), (4,2) |
| WireframeRenderer.LineNotSymmetric | engine/WireframeRenderer.hpp:19-35 | from (4,2) to (0,0) the walk visits (3,1) and (1,0), so it is not the reverse of the forward walk |
| WireframeRenderer.HorizontalWalk | engine/WireframeRenderer.hpp:26-34 | on a horizontal line each step moves one column |
| WireframeRenderer.HorizontalLine | engine/WireframeRenderer.hpp:19-35 | a horizontal line covers every column between its ends, in order |
| LineSampling.SampledPoints | src/Math3D.hpp:231-245 | `steps + 1` samples, the `i`-th being the interpolation at `i / steps` |
| LineSampling.SampledEndpoints | src/Math3D.hpp:240-244 | the first sample is `a` and the last is `b` |
| LineSampling.SampleLineBetweenPoints | src/Math3D.hpp:231-245 | clears the output and leaves exactly the samples in it, in order |
| LineSampling.SampleEdge | src/Math3D.hpp:269-274 | appends the samples of one edge to the output and keeps what was there |
| LineSampling.PyramidSamplesLength | src/Math3D.hpp:260-285 | the wireframe holds `6 (steps + 1)` points, starting at `a` and ending at the apex |
| LineSampling.BuildPyramidWireframe | src/Math3D.hpp:260-285 | the output holds the samples of the three base edges and the three sides, in that order |
| TerminalControl.DigitChar | engine/TerminalControl.hpp:108 | a digit's character is one of `'0'..'9'` |
| TerminalControl.NatDigits | engine/TerminalControl.hpp:108 | decimal text is non-empty, all digits, with no leading zero |
| TerminalControl.ParseNatDigits | engine/TerminalControl.hpp:108 | reading the decimal text back gives the number |
| TerminalControl.IntToString | engine/TerminalControl.hpp:108 | `std::to_string` puts a minus sign first exactly for negative values |
| TerminalControl.ParseIntToString | engine/TerminalControl.hpp:108 | reading the signed decimal text back gives the number |
| TerminalControl.PrintableChar | engine/TerminalControl.hpp:105-109 | codes 32..126 show as that character, 27 as `ESC`, anything else starts with `0x` |
| TerminalControl.PrintableCharDecodes | engine/TerminalControl.hpp:105-109 | the name of any other code gives back the code when the text after `0x` is read as decimal |
| TerminalControl.PrintableCharNewline | engine/TerminalControl.hpp:105-109 | code 10 shows as `0x10`, 27 as `ESC`, 65 as `A` |
| TerminalControl.FirstEnd | engine/TerminalControl.hpp:84-86 | `PollKeys` consumes codes up to the first `-1`, or all of them |
| TerminalControl.KeysRead | engine/TerminalControl.hpp:82-86 | every entry of the new key map is true |
| TerminalControl.KeysReadCharacterised | engine/TerminalControl.hpp:80-87 | a code is in the new key map exactly when it was read before the first `-1` |
| TerminalControl.MarkOneMore | engine/TerminalControl.hpp:84-86 | marking one more code read is one insertion into the key map |
| TerminalControl.Lookup | engine/TerminalControl.hpp:94 | `operator[]` yields true only for a present key |
| TerminalControl.Touched | engine/TerminalControl.hpp:94 | `operator[]` inserts a missing key with value false and changes nothing else |
| TerminalControl.Terminal.constructor | engine/TerminalControl.hpp:18-22 | sizes start at 0, the last seen size at -1, not too small, no keys |
| TerminalControl.Terminal.UpdateTerminalSize | engine/TerminalControl.hpp:24-32 | stores the reported size; `too_small` holds exactly when it is under 80 columns or 24 rows |
| TerminalControl.Terminal.DidTerminalResize | engine/TerminalControl.hpp:34-39 | true exactly when the size differs from the one recorded by the previous call; records the current size |
| TerminalControl.Terminal.PollKeys | engine/TerminalControl.hpp:80-87 | the previous map becomes the old current map, and the current map holds exactly the codes read |
| TerminalControl.Terminal.IsKeyPressed | engine/TerminalControl.hpp:89-91 | a key has an entry in the current map, whatever its value; a definition, whose behaviour `QueryMarksKeyPresent` states |
| TerminalControl.Terminal.WasKeyJustPressed | engine/TerminalControl.hpp:93-95 | down now and not before; inserts the key into the current map, and into the previous map only when it is down now |
| TerminalControl.Terminal.WasKeyJustReleased | engine/TerminalControl.hpp:97-99 | not down now but down before; the previous map is looked up only when the key is not down now |
| TerminalControl.FirstResizeCheck | engine/TerminalControl.hpp:20-21 | the first resize check after start-up reports a change, and a second one right after does not |
| TerminalControl.ResizeReported | engine/TerminalControl.hpp:34-39 | a resize is reported exactly when a dimension changed |
| TerminalControl.PressThenRelease | engine/TerminalControl.hpp:80-99 | a key read in one poll is just pressed and not just released; after an empty poll it is just released and not just pressed |
| TerminalControl.QueryMarksKeyPresent | engine/TerminalControl.hpp:89-95 | asking whether an absent key was just pressed makes `IsKeyPressed` true for it until the next poll |
| DebugUI.Logged | engine/DebugUI.hpp:31-35 | the new log is a suffix of the old log plus the message, ends with the message, and stays within six entries |
| DebugUI.Recent | engine/DebugUI.hpp:33-34 | the last `n` entries |
| DebugUI.LogAllKeepsMostRecent | engine/DebugUI.hpp:31-35 | any run of `Log` calls leaves exactly the six most recent messages, oldest first |
| DebugUI.LoggedRecent | engine/DebugUI.hpp:31-35 | one `Log` call on the six most recent entries gives the six most recent entries after the message |
| DebugUI.TruncateToInt | engine/DebugUI.hpp:58 | `static_cast<int>` truncates toward zero |
| DebugUI.KeyName | engine/DebugUI.hpp:65-67 | a key that is up adds nothing; a key that is down adds its name and a trailing space |
| DebugUI.KeyNamesAppend | engine/DebugUI.hpp:64-67 | the names of one more key are the earlier names followed by that key's part |
| DebugUI.ListsPartExtend | engine/DebugUI.hpp:64-67 | visiting one more entry of the key map, not visited before, keeps the list an exact, repetition-free listing of the visited entries |
| DebugUI.NoKeyDownNamesNothing | engine/DebugUI.hpp:63-68 | whatever order the key map is walked in, a map with no key down names nothing |
| DebugUI.HeaderLines | engine/DebugUI.hpp:56-68 | the five status lines (title, frame rate, eye, target, keys); a definition, whose content `OverlayLines` states |
| DebugUI.KeyNamesOnlyDown | engine/DebugUI.hpp:65-67 | only keys marked down are named |
| DebugUI.LogLines | engine/DebugUI.hpp:71-72 | one `> `-marked line per log entry, in order |
| DebugUI.OverlayLines | engine/DebugUI.hpp:54-72 | five status lines starting with `[Debug Info]`, then `> ` plus each message in order; with six entries or fewer everything fits on 24 rows |
| DebugUI.DebugOverlay.constructor | engine/DebugUI.hpp:17-18 | hidden, with an empty log |
| DebugUI.DebugOverlay.Toggle | engine/DebugUI.hpp:21-23 | flips visibility and keeps the log |
| DebugUI.DebugOverlay.Clear | engine/DebugUI.hpp:26-28 | empties the log and keeps visibility |
| DebugUI.DebugOverlay.Log | engine/DebugUI.hpp:31-35 | appends the message, dropping the oldest entry past six; the six-entry bound is kept |
| DebugUI.DebugOverlay.Draw | engine/DebugUI.hpp:46-81 | hidden: the grid is unchanged; shown: the key list it reports lists the terminal's key map exactly, and each cell shows the overlay line's character where there is one (rows under 24, columns under 80), and every other cell keeps its value |
| DebugUI.DebugOverlay.BuildLines | engine/DebugUI.hpp:54-72 | builds exactly the overlay's lines, for a key list that lists the key map exactly |
| DebugUI.KeyLine | engine/DebugUI.hpp:63-68 | walks the key map in some order, visiting each entry once; the key line is ` Keys: ` followed by the name and a space for each key marked down, in that order |
| DebugUI.BlitLines | engine/DebugUI.hpp:75-80 | copies line characters into the grid, clipped to 24 rows and 80 columns |
| DebugUI.ToggleTwiceRestores | engine/DebugUI.hpp:21-23 | two toggles restore the original visibility |
| DebugUI.LogEach | engine/DebugUI.hpp:31-35 | logging a list into a fresh overlay keeps its six most recent messages, in order |

## Left out

- Terminal and stdout I/O is not modelled: `InitTerminal`, `RestoreTerminal`, `DumpKeyState` and `RenderFramebuffer`. The `ioctl` size query becomes the parameters of `UpdateTerminalSize`. The non-blocking `ReadKeyRaw` becomes the `input` sequence of `PollKeys`.
- The order in which `Draw` walks the unordered key map is unspecified in C++. `KeyLine` picks one; the ghost result `keys` records it, and only its being an exact listing of the map is promised.
- `FormatVec3` output (fixed-point text) is not modelled; `Draw` takes the eye and target texts as strings.
- `sqrt` is a parameter. `std::tan` and `FovToFocalLength` are not modelled: the focal length is a parameter of `ProjectToScreen`.
- Floating point is read as exact `real`. NaN, infinities and rounding error are not modelled, so the `std::isfinite` checks in engine/VectorOperations.hpp always pass.
- Math3D.VecProject: requires a non-zero `b[bi]`; the C++ divides by zero there and appends NaN or infinite components.
- CameraMath.ProjectToScreen: requires a non-zero aspect ratio, for the same reason.
- LineSampling.SampleLineBetweenPoints: requires `ValidSteps(steps)`, that is `steps >= -1` and `steps != 0`. Zero gives a 0/0 sample; below -1, `reserve` throws `std::length_error`. `SampleEdge`, `BuildPyramidWireframe` and `SampledPoints` require the same.
- LineSampling.PyramidSamplesLength: stated for `steps >= 1` only, since with `steps` at -1 there is no first or last sample.
- CameraMath.LookAt: unit length of the axes is not promised, since it needs an exact square root and the non-degenerate branch conditions; their pairwise orthogonality is proved by `LookAtAxesOrthogonal`.
- `int` overflow is not modelled. This covers the edge-function products in `DrawFilledTriangle`, the `2 * err` of `DrawLine`, the `static_cast<int>` of rounded or truncated doubles, and `size_t` index arithmetic.
- The maximum coordinates come from engine/EngineBounds.hpp, which is not part of this model; they are a `Bounds` parameter. A failed `assert` is a precondition.
- VectorOperations `VecAbs` and `VecEqualsAtomic` (both overloads) are the same text as in engine/Math3D.hpp and are modelled once, by `Math3D.VecAbs`, `Math3D.VecEqualsAtomic` and `Math3D.VecEqualsBuffer`.
- The `std::hash<Edge>` bit mixing is not modelled; edges are compared by value, which is what the set needs.
- `RenderMeshOutline`, `RenderMeshFilled` and the demo programs are not modelled; they only chain the modelled operations.
- CameraMath.ScreenCellCentre: needs a screen of at least 2 × 2 cells; on a 1-cell dimension the clamp moves the centre to 0.
- CameraMath.ScreenColumnMonotone: proved for the 80 × 24 grid the renderer uses, not for an arbitrary screen size.
- CameraMath.ScreenRowAntitone: proved for the 80 × 24 grid only, as above.
- CameraMath.ScreenCellEdges: proved for the 80 × 24 grid only, as above; `CellIndexEdges` states the same for any size `n`.
