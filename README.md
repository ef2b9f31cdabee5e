# Scanline triangle fill, modelled in Dafny

This project models the scanline-fill core of a small software triangle rasteriser written in
C++. For each triangle the rasteriser does the following:

- It builds the three edges 0→1, 1→2 and 2→0. Each edge is oriented so that it starts on the
  lower row, the one with the smaller `y`. Each edge gets per-row increments for X, depth, vertex normal and texture
  coordinates; every division in them is guarded against a zero divisor.
- It buckets the edges into an *active edge table*. There is one bucket per row, indexed by
  the edge's start row relative to the lowest start row.
- It walks the rows with an *active edge list*. Each row it moves on one row, admits the
  row's bucket, drops expired and horizontal edges, steps every edge by its increments and
  sorts the edges by X.
- Between each pair of active edges it draws a depth-tested span into a 400×400 frame buffer
  and Z buffer, with the row flipped so that the origin is at the lower left.

Around the fill sit the small value types it uses: `Vector3`, `Vector2`, `clamp`, and a
`Color` whose displayed channels are its RGB scaled by a clamped intensity. Around it also
sit texel addressing and the buffer clear.

How the model is written:

- Floats are `real`. Every float-to-`int` conversion of the C++ code is written out as
  truncation toward zero (`Conversions.Trunc`). These conversions are `maxY`, the bucket
  index, the `int` that `findMinYFromEdges` returns, `getDepth`, the `int` parameters of
  `drawScanLine` and the texel index.
- Records become datatypes.
- Operations that update a `T&` in place become methods that return the updated value.
- `Color`, `ActiveEdgeTable` and `ActiveEdgeList` are classes whose methods update their
  fields.
- The frame and Z buffers are `array3<real>` and `array2<real>`.

## Model

| member | source | states |
|---|---|---|
| ClampUtil.Clamp | util/clamp.hh:11-18 | with `min <= max` the result lies in `[min, max]`; a value inside is returned unchanged; below `min` gives `min`, above `max` gives `max` |
| ClampUtil.ClampIdempotent | util/clamp.hh:11-18 | clamping twice equals clamping once |
| ClampUtil.ClampMonotone | util/clamp.hh:11-18 | clamping preserves `<=` |
| Conversions.Trunc | scan/activeEdgeTable.hh:54 | float-to-int conversion: for `r >= 0` the largest integer not above `r`, for `r < 0` the smallest not below it |
| Conversions.TruncMonotone | scan/activeEdgeTable.hh:54 | truncation preserves `<=` |
| Vector3Util.Neg | util/vector3.hh:11-13 | `v + (-v)` is the zero vector |
| Vector3Util.NegInvolutive | util/vector3.hh:11-13 | `-(-v) == v` |
| Vector3Util.Equal | util/vector3.hh:15-17 | componentwise `==` holds iff the vectors are equal |
| Vector3Util.Sub | util/vector3.hh:19-21 | `(lhs - rhs) + rhs == lhs` |
| Vector3Util.SubSelf | util/vector3.hh:19-21 | `v - v` is zero |
| Vector3Util.SubAssign | util/vector3.hh:23-25 | `lhs -= rhs` leaves `lhs - rhs`, which added to `rhs` gives back `lhs` |
| Vector3Util.Add | scan/activeEdgeList.hh:59-60 | `+=` on a vector: adding the zero vector on either side gives the other operand |
| Vector3Util.Scale | util/vector3.hh:27-33 | `v * s`: scaling by 1 keeps the vector, scaling by 0 gives the zero vector |
| Vector3Util.ScaleLeft | util/vector3.hh:27-37 | `s * v` equals `v * s`, componentwise products |
| Vector3Util.Div | scan/activeEdgeTable.hh:117 | `v / s` multiplied back by `s` gives `v` |
| Vector3Util.DivAssign | util/vector3.hh:39-43 | `lhs /= s` equals `lhs / s`; multiplied back by `s` it gives the old `lhs` |
| Vector3Util.DotSelf | util/vector3.hh:49-51 | `dot(v, v)` is never negative and is zero exactly for the zero vector |
| Vector3Util.DotCommutative | util/vector3.hh:49-51 | `dot(u, v) == dot(v, u)` |
| Vector3Util.Cross | util/vector3.hh:53-61 | `cross(u, v)` is perpendicular to `u` and to `v` |
| Vector3Util.CrossOrthogonal | util/vector3.hh:53-61 | the cross-product components have zero dot product with both inputs |
| Vector3Util.CrossSelf | util/vector3.hh:53-61 | `cross(u, u)` is zero |
| Vector3Util.CrossAntiCommutative | util/vector3.hh:53-61 | `cross(u, v) == -cross(v, u)` |
| Vector3Util.Normalize | util/vector3.hh:63-71 | the result is zero exactly for the zero vector; otherwise scaling it by the magnitude gives back `v` |
| Vector3Util.MagnitudeZero | util/vector3.hh:63-71 | a magnitude is zero exactly for the zero vector, so the zero branch of `normalize` is taken only for it |
| Vector3Util.ClampVector | util/vector3.hh:73-80 | with `min <= max` every component lies in `[min, max]`; a vector already inside is unchanged |
| Vector2Util.Neg | util/vector2.hh:17-19 | both components negated (each sums with the input to 0) |
| Vector2Util.NegInvolutive | util/vector2.hh:17-19 | `-(-v) == v` |
| Vector2Util.Equal | util/vector2.hh:21-23 | `==` holds iff both components are equal |
| Vector2Util.Sub | util/vector2.hh:25-27 | `(lhs - rhs) + rhs == lhs` componentwise |
| Vector2Util.SubSelf | util/vector2.hh:25-27 | `v - v == (0, 0)` |
| Vector2Util.SubAssign | util/vector2.hh:29-31 | `-=` leaves the difference |
| Vector2Util.Translate | util/vector2.hh:33-35 | `x` grows by the offset, `y` is unchanged |
| Vector2Util.TranslateTwice | util/vector2.hh:33-35 | translating by `a` then `b` equals translating by `a + b` |
| ColorModel.Channel | scan/color.hh:21-29 | channel `k` is `rgb[k]` times the matching intensity component, and lies in `[0, 1]` when both factors do |
| ColorModel.Color.constructor | scan/color.hh:19 | the given channels, intensity `(0, 0, 0)` |
| ColorModel.Color.Red | scan/color.hh:21-23 | `rgb[0] * intensity.x`, in `[0, 1]` when `rgb[0]` is |
| ColorModel.Color.Green | scan/color.hh:24-26 | `rgb[1] * intensity.y`, in `[0, 1]` when `rgb[1]` is |
| ColorModel.Color.Blue | scan/color.hh:27-29 | `rgb[2] * intensity.z`, in `[0, 1]` when `rgb[2]` is |
| ColorModel.Color.SetIntensity | scan/color.hh:31-33 | intensity becomes the argument clamped to `[0, 1]` per component; `rgb` is unchanged; the intensity stays in the unit cube |
| ColorModel.Equals | scan/color.hh:40-42 | reflexive; any two colours with zero intensity are equal; equal colours show the same red |
| ColorModel.NewColorIsBlack | scan/color.hh:19-29 | a freshly constructed colour displays 0 in every channel |
| EdgeModel.EdgeFrom | scan/activeEdgeTable.hh:149 | `{ points[i] }`: the start point set, every other member zero |
| EdgeModel.TriangleVertex | main.cc:227-229 | the position of vertex `i` |
| EdgeSetup.MakeStartBelowEnd | scan/activeEdgeTable.hh:51-56 | afterwards `start.y <= end.y`; the endpoints are swapped only when `start.y > end.y`; `maxY` is the truncated `end.y` and `currentX` is `start.x`; nothing else changes |
| EdgeSetup.CalculateXIncr | scan/activeEdgeTable.hh:58-65 | `xIncr * deltaY == deltaX` for a non-horizontal edge, 0 for a horizontal one; nothing else changes |
| EdgeSetup.SetEndPoint | scan/activeEdgeTable.hh:82-86 | the edge joins its start and the new point, oriented from the lower row to the upper, with `maxY`, `currentX` and `xIncr` set |
| EdgeSetup.CalculateNormal | scan/activeEdgeTable.hh:67-80 | the normalised cross product of the two sides leaving vertex 0: zero exactly for a degenerate triangle, otherwise scaling by the magnitude gives the cross product |
| EdgeSetup.NormalPerpendicular | scan/activeEdgeTable.hh:67-80 | the face normal is perpendicular to both sides leaving vertex 0 |
| EdgeSetup.FaceNormalSign | scan/activeEdgeTable.hh:67-80 | for (0,0,0), (1,0,0), (0,1,0) the normal is (0,0,-1) |
| EdgeSetup.CalculateZIncr | scan/activeEdgeTable.hh:88-93 | `zIncr * normal.z == -normal.y` when `normal.z != 0`, otherwise 0; nothing else changes |
| EdgeSetup.DepthSlopeUnique | scan/activeEdgeTable.hh:88-93 | the depth slope is determined by the normal |
| EdgeSetup.ApplyNormal | scan/activeEdgeTable.hh:95-101 | every edge gets the face's depth slope and `currentZ = start.z`; nothing else changes |
| EdgeSetup.AttributeStep | scan/activeEdgeTable.hh:115-119 | the step reaches the end attribute after `deltaY` rows; zero when `deltaY == 0` |
| EdgeSetup.SetupNormalInterpolation | scan/activeEdgeTable.hh:103-121 | every edge starts at its start vertex's normal and steps toward its end vertex's normal; nothing else changes |
| EdgeSetup.SetupUVInterpolation | scan/activeEdgeTable.hh:123-141 | the same for texture coordinates |
| EdgeSetup.FinishedSide | scan/activeEdgeTable.hh:155-157 | the three setup passes keep a side's geometry |
| EdgeSetup.MakeSides | scan/activeEdgeTable.hh:148-154 | the side loop yields exactly three sides, side `i` joining vertex `i` to the next and the last wrapping round to vertex 0, each oriented from the lower row to the upper |
| EdgeSetup.MakeEdges | scan/activeEdgeTable.hh:143-159 | exactly three edges joining vertices 0-1, 1-2, 2-0 in that order, each oriented from the lower row to the upper, with `currentZ = start.z`, normal and UV interpolation set, and one shared `zIncr` |
| EdgeTable.BucketIndex | scan/activeEdgeTable.hh:29 | `start.y - rangeY.x` as an index: for an edge starting at or above row `first` it is the non-negative `b` with `start.y` in `[first + b, first + b + 1)` |
| EdgeTable.ActiveEdgeTable.constructor | scan/activeEdgeTable.hh:23-26 | `b - a + 1` buckets, all empty, cursor at the "not started" position |
| EdgeTable.ActiveEdgeTable.Add | scan/activeEdgeTable.hh:28-30 | appends the edge to the back of bucket `start.y - rangeY.x`, which must exist; every other bucket is unchanged |
| EdgeTable.ActiveEdgeTable.Next | scan/activeEdgeTable.hh:32-39 | the first call returns bucket 0, each later one the next bucket; it cannot step past the last bucket |
| EdgeTable.MinStartY | scan/activeEdgeTable.hh:169-175 | the smallest `start.y`, attained by some edge |
| EdgeTable.FindMinYFromEdges | scan/activeEdgeTable.hh:169-175 | the smallest truncated `start.y`, attained by some edge |
| EdgeTable.FindMaxYFromEdges | scan/activeEdgeTable.hh:161-167 | the largest `maxY`, attained by some edge |
| EdgeTable.SpanFits | scan/activeEdgeTable.hh:51-56 | an oriented edge's start row is not above its `maxY` |
| EdgeTable.BucketIndexInRange | scan/activeEdgeTable.hh:177-185 | every edge's bucket index `start.y - minY` lies in `[0, maxY - minY]`, even with truncation on both sides of 0 |
| EdgeTable.Bucket | scan/activeEdgeTable.hh:181-183 | the edges of one bucket all have that bucket's index |
| EdgeTable.BucketMembership | scan/activeEdgeTable.hh:177-185 | an edge is in bucket `b` iff it is one of the edges and its index is `b` |
| EdgeTable.EdgeInTable | scan/activeEdgeTable.hh:177-185 | every edge of a list that fits lands in a bucket of the table built from that list, so `add` never indexes outside it |
| EdgeTable.MakeActiveEdgeTable | scan/activeEdgeTable.hh:177-185 | a table over `[minY, maxY]`, cursor not started, each bucket holding exactly its edges in list order |
| EdgeList.Expired | scan/activeEdgeList.hh:48 | the erase test of `prune`: an edge it keeps is not horizontal and still reaches row `y` |
| EdgeList.ExpiredStays | scan/activeEdgeList.hh:48 | an edge the test drops at one row is dropped at every later row |
| EdgeList.Pruned | scan/activeEdgeList.hh:46-53 | no survivor of pruning is expired or horizontal |
| EdgeList.Advanced | scan/activeEdgeList.hh:55-62 | each running value moves by its increment once; `start`, `end`, `maxY` and the increments are unchanged |
| EdgeList.ActiveEdgeList.constructor | scan/activeEdgeList.hh:19 | no edges, at row `startingY` |
| EdgeList.ActiveEdgeList.Add | scan/activeEdgeList.hh:21-28 | row counter up by exactly 1, so it is `startingY` plus the number of adds; the edges are a sorted permutation of the old and new edges pruned at the new row and advanced once; none is expired; an empty bucket admits nothing |
| EdgeList.ActiveEdgeList.Prune | scan/activeEdgeList.hh:46-53 | the list becomes its pruning at the current row |
| EdgeList.ActiveEdgeList.Increment | scan/activeEdgeList.hh:55-62 | every edge advanced by one row |
| EdgeList.InsertIntoPrefix | scan/activeEdgeList.hh:64-67 | one insertion step of the sort: with `s[..i]` sorted by `currentX`, the result has `[..i + 1]` sorted, the same length and the same edges |
| EdgeList.ActiveEdgeList.Sort | scan/activeEdgeList.hh:64-67 | ordered by `currentX` and a permutation of the old list |
| EdgeList.ActiveEdgeList.Size | scan/activeEdgeList.hh:40 | the number of edges; reads only |
| EdgeList.ActiveEdgeList.GetCurrentY | scan/activeEdgeList.hh:38 | `startingY` plus the number of adds; reads only |
| EdgeList.ActiveEdgeList.Get | scan/activeEdgeList.hh:36 | exactly `edges[i]`, the `i`-th edge by X, which crosses the current row, is not left of earlier edges and not right of later ones |
| EdgeList.PrunedDropsExpired | scan/activeEdgeList.hh:47-49 | erasing an expired edge does not change the pruning |
| EdgeList.PrunedKeepsLive | scan/activeEdgeList.hh:50-51 | a list with nothing expired is its own pruning |
| EdgeList.PrunedAppend | scan/activeEdgeList.hh:23-25 | pruning the old edges followed by the new ones prunes each part |
| EdgeList.PrunedCount | scan/activeEdgeList.hh:46-53 | pruning removes every occurrence of an expired edge and keeps every occurrence of any other |
| EdgeList.AdvanceAllEach | scan/activeEdgeList.hh:55-62 | advancing the list keeps its length and advances each edge |
| EdgeList.AdvancedTimesLinear | scan/activeEdgeList.hh:55-62 | after `k` rows `currentX` and `currentZ` have moved by exactly `k` increments |
| EdgeList.ReachesEnd | scan/activeEdgeList.hh:57 | a non-horizontal edge reaches its end point's X after as many rows as it is tall |
| Texturing.TexelIndex | main.cc:105-112 | below 0 gives 0, from 1 on gives `size - 1`, in between the cell `c * size` falls in; always in `[0, size - 1]` |
| Texturing.OffsetInBounds | main.cc:114-116 | `3*(x*ysize + y) + c`, with `c < 3`, lies inside the `3*xsize*ysize` elements |
| Texturing.GetTextureRGB | main.cc:103-117 | with elements in `[0, 1]` so is every returned channel |
| Texturing.LookupReadsGrid | main.cc:341-347 | in a texture filled in the loader's x-major order, a lookup returns the grid cell the clamped coordinates select |
| Texturing.OffsetsDistinct | main.cc:341-347 | different texels never share an element |
| Raster.FlipRow | main.cc:145-147 | the buffer row of a lower-left row: inside the image exactly when the row is |
| Raster.RepositionOrigin | main.cc:145-147 | `y` becomes `ImageH - 1 - y` and `x` is kept; in the image iff the input is |
| Raster.FlipRowInvolutive | main.cc:145-147 | flipping twice is the identity |
| Raster.FlipRowOnto | main.cc:145-147 | the rows `[0, ImageH - 1]` map onto themselves |
| Raster.ClampFloat | main.cc:127-133 | the result lies in `[0, 1]`; a value inside is unchanged; below gives 0, above gives 1 |
| Raster.ClampFloatIsClamp | main.cc:127-133 | `clampFloat(f) == clamp(0, 1, f)` |
| Raster.ClampColorValues | main.cc:136-138 | a new colour whose channels are the clamped displayed channels, each in `[0, 1]`, and whose intensity is zero |
| Raster.SetFramebuffer | main.cc:149-155 | the three channels of the pixel at the flipped row become the colour's displayed channels; no other cell changes |
| Raster.GetDepth | main.cc:162-165 | the stored depth at the flipped row, truncated toward zero |
| Raster.SetZbuffer | main.cc:157-160 | only the pixel at the flipped row changes; reading it back gives the depth truncated |
| Raster.CalculateAndApplyIntensity | main.cc:167-205 | a copy of the colour with its `rgb` and the summed light, clamped, as intensity |
| Raster.DepthPasses | main.cc:210 | `z < getDepth(p)`: for a non-negative stored depth, passing means nearer, and a depth at least 1 nearer always passes |
| Raster.PassingIsNoDeeper | main.cc:210 | a depth passing the truncated test is below a non-negative stored depth, and never farther unless negative |
| Raster.DepthAt | main.cc:208-209 | the running depth of `drawScanLine`: `startZ` at the first column |
| Raster.DepthAtStep | main.cc:209 | one column on, the depth moves by `-normal.x / normal.z`; every depth walked lies on the plane through `startZ` with that normal |
| Raster.DrawScanLine | main.cc:207-216 | columns `startX .. endX - 2` of the flipped row, depth `startZ - (x - startX) * normal.x / normal.z`; a cell gets that depth and the shaded colour iff the depth is below the truncated stored depth; nothing else changes |
| Raster.ClearBuffers | main.cc:298-305 | every frame-buffer channel is 0 and every depth is `ZMAX` |
| ScanFill.NoDeeperTransitive | main.cc:210-213 | moving no farther is preserved across successive spans |
| ScanFill.DrawSpan | main.cc:247-253 | one span keeps or shades each channel and moves no depth farther; cells outside columns `startX .. endX - 2` of the flipped row are unchanged |
| ScanFill.PairsDrawableStep | main.cc:246-254 | a drawable pair at `n` extends the drawable pairs up to `n + 2` |
| ScanFill.InRowSpansStep | main.cc:246-254 | the spans of the pairs below `n + 2` are those below `n` and the span between edges `n` and `n + 1` |
| ScanFill.InRowSpansOnRow | main.cc:247-250 | every span of a row lies on that row's buffer row |
| ScanFill.DrawSpans | main.cc:246-254 | spans between edges `i` and `i + 1` for even `i`; only cells inside one of those spans on the flipped current row change; an odd edge count is reported with the row, an even count never is, and a completed row had an even count and only drawable spans |
| ScanFill.FillRows | main.cc:244-255 | one `add` per bucket in order, so a completed fill ends `|buckets|` rows further up and a stopped one at the reported row inside that range; channels are kept or shaded, no depth moves farther, and only the `|buckets|` rows after the starting row change |
| ScanFill.LowestY | main.cc:232-234 | the smallest vertex `y`, attained by a vertex |
| ScanFill.HighestY | main.cc:232-234 | the largest vertex `y`, attained by a vertex |
| ScanFill.SideWithin | scan/activeEdgeTable.hh:51-56 | a side between two points inside `[low, high]` starts at or after `low` and has its `maxY` at most the truncated `high` |
| ScanFill.TableWithin | scan/activeEdgeTable.hh:161-175 | for three such sides, `findMinYFromEdges` is at least the truncated `low` and `findMaxYFromEdges` at most the truncated `high` |
| ScanFill.TriangleFits | scan/activeEdgeTable.hh:143-159 | the three sides `makeEdges` builds each start no lower than their `maxY`, so `add` finds their buckets |
| ScanFill.TriangleRows | scan/activeEdgeTable.hh:143-159 | each side `makeEdges` builds starts at or after the lowest vertex `y` and has its `maxY` at most the truncated highest |
| ScanFill.Scanfill | main.cc:231-256 | every frame-buffer channel ends as it was or as the shaded colour, no depth moves farther away short of a negative depth, and only buffer rows strictly after the truncated lowest vertex `y` and up to one past the truncated highest change |

## Left out

- Windowing and display (`drawit`, `display`, `main`) are left out: they are GLUT calls.
- The scene-file reader in `init` is left out because it is stream I/O. Only its buffer clear is
  modelled, plus the texture layout it fills (`Texturing.LoadedFrom`).
- `randomColor` is left out because it draws from a random engine. `ScanFill.Scanfill` takes
  the colour's channels as the parameter `rgb`.
- The lighting sum in `calculateAndApplyIntensity` (ambient, diffuse and specular terms) is
  floating-point shading written against a `Color` interface that does not exist: there is no
  float `set_intensity` and no `Color + Color`. It is supplied as the parameter `lighting`.
  The model keeps what the function does with the sum: it copies the colour and sets the sum
  as its intensity.
- The square root is left out. `normalize`, and through it `calculateNormal`, take the
  magnitude as a parameter `mag`, required to be non-negative with `mag * mag` equal to the
  squared length.
- IEEE-754 rounding, NaN and infinities are left out. Where the C++ code would divide by zero
  or index out of bounds, the model either requires the case away or reports it:
  - `drawScanLine` requires `normal.z != 0` and an in-image span whenever its span is not
    empty;
  - `scanfill` checks these conditions and returns `EdgeOnNormal` or `SpanOutsideImage`;
  - a row with an odd number of active edges, where the C++ reads past the list, returns
    `OddEdgeCount`.
- Console output is left out: `printEdges`, `ActiveEdgeList::print`, the "CONSTRUCTED" print and
  the debug prints in `scanfill`.
- The glue in `main.cc` does not compile against the headers: it calls `makeEdges(points)` and
  `calculateNormal(edges)`. The model follows the header versions `makeEdges(tri)` and
  `calculateNormal(edges, tri)`.
- `Vector3 +=` and `Vector3 / float` are used but not defined in the shown headers. They are
  modelled componentwise (`Vector3Util.Add`, `Vector3Util.Div`).
- `getVertexNormFromTriangle` and `getVertexUVsFromTriangle` are not defined in the shown
  headers. They are function parameters (`VertexLookup`).
- `scan/polygon.hh` is not part of this model.
- `makeActiveEdgeTable` returns its table by copy. The copied cursor then still points into the
  original vector. The model's cursor is an index, so this aliasing is not represented.
  `scanfill` iterates the buckets with `begin`/`end` and never calls `next`.
- The C++ `int` is 32 bits wide; the model's `int` is unbounded. Overflow, and the undefined
  behaviour of a float-to-`int` conversion whose value does not fit, are not modelled. This
  covers `Vector2`, `maxY`, the list's `currentY`, the bucket index and the `int` parameters
  of `drawScanLine`.
- EdgeTable.ActiveEdgeTable.constructor: requires a non-negative bucket count
  `rangeY.y - rangeY.x + 1`. For a negative count `std::vector` would throw `length_error`;
  that exception is not modelled. `makeActiveEdgeTable` always meets the requirement, because
  every edge's start row is at or below its `maxY`.
- `std::list` is modelled as a sequence; its node identity and iterator stability are not.
- `std::sort` is modelled by an insertion sort with the same promise: sorted by `currentX` and
  a permutation. The insertion sort happens to be stable, but its contract, like `std::sort`,
  does not promise stability.
- ScanFill.Scanfill: the contract states that each frame-buffer channel is kept or shaded, that
  no depth moves farther away (short of a negative depth), and which buffer rows can change.
  It does not say which pixels inside those rows a triangle covers. Per-pixel effects are
  stated for one span by `Raster.DrawScanLine`, and per row by `ScanFill.DrawSpans`.
- ScanFill.DrawSpan: the contract states the cells that may change and that each changed cell
  is shaded with a depth no farther away. The exact depth and the test per cell are stated by
  `Raster.DrawScanLine`, which it calls; they are not repeated, to keep the proofs of its
  callers small.
- ScanFill.DrawSpans: like `ScanFill.DrawSpan`, it states which cells of the row may change,
  not which of them pass the depth test.
- ScanFill.FillRows: the contract does not state the active edge list of each row in terms of
  the buckets. Each `add` is specified on its own by `EdgeList.ActiveEdgeList.Add`, which
  fixes the new list only up to the order of edges with equal `currentX`.
- Texturing.GetTextureRGB: its own contract states only the range of the result. The texel it
  reads is stated by `Texturing.LookupReadsGrid` for textures filled in the loader's layout.
- Starting row: the code starts the active edge list at `minY` and raises the row before
  admitting each bucket. So bucket 0, the edges starting at row `minY`, is first drawn at row
  `minY + 1`. The model follows the code: `EdgeList.ActiveEdgeList.Add` raises the row
  first, and `ScanFill.Scanfill` constructs the list at `FindMinYFromEdges`.
- The depth test compares against `getDepth`, which truncates the stored depth to `int`.
  - A nearer fragment can fail the test: 5.5 against a stored 5.7.
  - Below zero, a farther fragment can pass: -0.2 against a stored -0.5.
  - The model keeps this behaviour as written: `Raster.DepthPasses`, `Raster.NoDeeper`.
