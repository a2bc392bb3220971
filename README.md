# ASCII wireframe renderer: a verified model

This project models the core of a terminal renderer that draws wireframe meshes as characters.
It covers five parts:

- **The character grid** (`CharBuffers`, char_buffer.dfy). This is a fixed `width x height` array of chars. Reads and writes are bounds-checked, `set_char` reports whether the row or the column was out of range, `fill` overwrites every cell, and the `Display` text lists each row as every char followed by a space, then a line break.
- **The line rasteriser** (`Rasteriser`, line.dfy). It orders the endpoints by x and picks a branch by slope. A steep line gets one glyph per row and a shallow line one glyph per column. Each computed coordinate is truncated, and writes that fall outside the grid are dropped.
- **Meshes and rendering structure** (`Rendering`, rendering.dfy). A `Polygon` holds a vertex map keyed by id, an ordered edge list, a transform and a glyph. Drawing a polygon turns each edge, in order, into one `Line` between its projected endpoints. An edge naming a missing id panics.
- **OBJ import** (`ObjImport`, obj.dfy). Each face's index list is closed into a cycle of edges. The cycles of all faces are concatenated per object, and only the file positions that some edge touches are kept.
- **The sample cube** (`Shapes`, cube.dfy). `create_cube` builds a 2 x 2 x 2 cube through the mesh operations.

Helper modules: `Wrappers` (wrappers.dfy) holds `Option`/`Result`, and `Vectors` (vectors.dfy) holds `Vector3`/`Vector2` with exact real components.

Floating point is modelled as exact real arithmetic.
The two IEEE behaviours the rasteriser depends on are written out explicitly:

- A vertical line has slope +infinity or -infinity, so it takes a steep branch chosen by the sign of `Δy`.
- A line from a point to itself has slope 0/0 = NaN. Every comparison with NaN fails, so it takes the shallow branch. There `NaN as usize` is 0, so its single glyph lands in row 0 of the point's column (`Rasteriser.SinglePointLandsOnRowZero`).

A Rust panic (`unwrap` on `None`) is modelled as a `None` result, or as a `panicked` flag together with the partial output produced before it.

## Model

| member | source | states |
|---|---|---|
| CharBuffers.CharBuffer.constructor | src/char_buffer.rs:8-13 | `new(width, height)` gives `height` rows of `width` cells, all `' '`, with `dimensions == (width, height)` |
| CharBuffers.CharBuffer.Rows | src/char_buffer.rs:2-5 | the row view of the grid has `height` rows, each `width` long, holding exactly the cells of the array |
| CharBuffers.CharBuffer.GetChar | src/char_buffer.rs:14-16 | `Some(data[y][x])` exactly when `y` is below the row count and `x` below the row length, `None` otherwise |
| CharBuffers.CharBuffer.SetChar | src/char_buffer.rs:17-31 | the row is checked first: `y` out of range gives the row error text (`RowMissing`) even when `x` is out of range too, and `x` alone out of range gives the item error text (`ItemMissing`); `Ok` exactly when both are in range, and then `get_char(x, y)` reads back the value; on success only cell (x, y) changes, on error nothing changes, and the shape is kept |
| CharBuffers.CharBuffer.Fill | src/char_buffer.rs:32-38 | after `fill(c)` every cell is `c`; the row count and row lengths cannot change |
| CharBuffers.CharBuffer.Text | src/char_buffer.rs:41-55 | the text has `height * (2 * width + 1)` chars; cell (x, y) sits at `y * (2 * width + 1) + 2 * x` with a space after it, and a line break closes every row, also when the grid has no columns |
| CharBuffers.Spaced | src/char_buffer.rs:49 | a row's spaced form is twice as long as the row |
| CharBuffers.RowText | src/char_buffer.rs:48-51 | a row's text is `2 * len + 1` chars long and ends with a line break |
| CharBuffers.ToText | src/char_buffer.rs:46-53 | the text is empty exactly for a grid without rows, and otherwise ends with a line break, since every row, even one without cells, contributes its own |
| CharBuffers.SpacedAt | src/char_buffer.rs:49 | in a row's spaced form, char `i` is at `2 * i` with a space at `2 * i + 1` |
| CharBuffers.TextLength | src/char_buffer.rs:46-53 | a rectangular grid's text is `rows * (2 * width + 1)` long |
| CharBuffers.TextAppend | src/char_buffer.rs:46-53 | the text of two stacked grids is the first grid's text followed by the second's |
| CharBuffers.TextRowBlock | src/char_buffer.rs:46-53 | row `y`'s text is the block of `2 * width + 1` chars starting at `y * (2 * width + 1)` |
| CharBuffers.TextAt | src/char_buffer.rs:46-53 | the cell, its trailing space and the row's line break are at their fixed offsets in the text |
| CharBuffers.TextLineBreak | src/char_buffer.rs:46-53 | row `y` of a rectangular grid ends with a line break at `y * (2 * width + 1) + 2 * width`, for any width including 0 |
| CharBuffers.TextLineBreaks | src/char_buffer.rs:46-53 | every row of a rectangular grid ends with its line break at that offset |
| CharBuffers.TextCells | src/char_buffer.rs:46-53 | every cell of a rectangular grid is at its offset in the text, with its space and line break |
| CharBuffers.CharRetrieval | src/char_buffer.rs:62-67 | on a 3 x 3 grid, writing `'x'` at (2, 2) succeeds, so the test's `unwrap` does not panic, and reading (2, 2) gives `Some('x')` |
| CharBuffers.CharSetterBoundsCheck | src/char_buffer.rs:69-74 | writing (2, 2) on a 2 x 2 grid fails with the row error text, so the test's `unwrap` panics |
| CharBuffers.CharGetterBoundsCheck | src/char_buffer.rs:76-81 | reading (2, 2) on a 2 x 2 grid gives `None` |
| CharBuffers.SampleText | src/char_buffer.rs:83-90 | the 3 x 3 grid of the test serialises to exactly `"n     \n    x \n    z \n"` |
| CharBuffers.CharBufToString | src/char_buffer.rs:83-90 | a fresh 3 x 3 grid with `'n'`, `'x'`, `'z'` written at (0, 0), (2, 1), (2, 2) has exactly that text |
| Rasteriser.Ordered | src/line.rs:6-10 | after the swap `start.x <= end.x`; the pair is the input or the input swapped, and on equal x the order is kept |
| Rasteriser.SlopeComparisons | src/line.rs:12-19 | slope below -1 exactly when `Δy < -Δx`; slope above 1 exactly when `Δy > Δx` |
| Rasteriser.Classify | src/line.rs:12-23 | the branch chosen: down-steep exactly when `Δy < -Δx`; up-steep exactly when `Δy > Δx`; horizontal exactly when `-Δx <= Δy <= Δx`, which includes slope exactly +-1; vertical lines by the sign of `Δy`, and the single point horizontal |
| Rasteriser.RowAt | src/line.rs:49-51 | the row written in column `x` is non-negative and lies between the endpoints' rows, so the truncating cast never sees a negative value; it is 0 for the NaN slope |
| Rasteriser.UpColumn | src/line.rs:30-33 | the column written in row `y` of an up-steep line lies between the endpoints' columns |
| Rasteriser.DownColumn | src/line.rs:37-38 | the column written in row `y` of a down-steep line, measured from the end point, lies between the endpoints' columns |
| Rasteriser.EndpointsDrawn | src/line.rs:4-56 | for two distinct points, both endpoints are among the cells drawn |
| Rasteriser.SinglePointLandsOnRowZero | src/line.rs:12-55 | a line from a point to itself draws exactly one cell: the point's column, row 0 |
| Rasteriser.DrawnWithinBox | src/line.rs:28-56 | every cell drawn for two distinct points lies in the box the endpoints span |
| Rasteriser.OnLineSymmetric | src/line.rs:4-25 | the cells drawn do not depend on which endpoint is given first |
| Rasteriser.DrawHorizontal | src/line.rs:47-56 | writes `ch` at row `floor(s.y + slope * (x - s.x))` of each column `x` from `s.x` to `e.x` (row 0 for a single point, whose slope is NaN), and nowhere else |
| Rasteriser.DrawVertical | src/line.rs:28-44 | up: one glyph per row from `s.y` to `e.y` at `floor(s.x + inv_slope * (y - s.y))`; down: one per row from `e.y` to `s.y` at `floor(e.x + inv_slope * (y - e.y))`; nothing else changes |
| Rasteriser.DrawLine | src/line.rs:4-25 | every in-bounds cell on the line becomes `ch`; every other cell keeps its char; out-of-range writes are dropped |
| Vectors.Add | src/rendering.rs:197-206 | adding then subtracting the same vector gives back the original (exact reals) |
| Vectors.Sub | src/rendering.rs:209-218 | the difference of two vectors is zero exactly when they are equal |
| Vectors.Scale | src/rendering.rs:130-133 | scaling by (1, 1, 1) changes nothing |
| Rendering.Polygon.constructor | src/rendering.rs:143-154 | `default()` has no vertices and no edges, rotation and position 0, scale 1 and glyph `'+'` |
| Rendering.Polygon.InsertVertex | src/rendering.rs:114-116 | maps `index` to `vertex` and returns the vertex stored there before, if any; nothing else changes |
| Rendering.Polygon.RemoveVertex | src/rendering.rs:117-119 | deletes `index` and returns its vertex, or `None` when it was absent; other entries and fields are unchanged |
| Rendering.Polygon.AddEdge | src/rendering.rs:120-122 | appends the edge at the end, duplicates included; nothing else changes |
| Rendering.Polygon.RemoveEdge | src/rendering.rs:123-126 | removes only the first equal edge and returns it; when there is none, returns `None` and leaves the edges unchanged |
| Rendering.RemoveFirstAbsent | src/rendering.rs:123-126 | removing an edge that is not in the list changes nothing |
| Rendering.RemoveFirstAt | src/rendering.rs:123-126 | with the first occurrence at `i`, the result is the list without position `i`, the rest in order |
| Rendering.RemoveFirstMultiset | src/rendering.rs:123-126 | removal takes exactly one copy of the edge out of the multiset of edges, and the length drops by one exactly when the edge was present |
| Rendering.Polygon.Place | src/rendering.rs:129-136 | under the default transform, with a rotation that fixes points at angle 0, a vertex keeps its position |
| Rendering.Polygon.GlobalVertices | src/rendering.rs:127-139 | the world-space map has exactly the polygon's keys |
| Rendering.Polygon.GetGlobalVertices | src/rendering.rs:127-139 | the in-place loop over a copy returns a map with exactly the polygon's keys, each vertex scaled, rotated and translated, equal to `GlobalVertices`; the polygon is not modified |
| Rendering.DefaultTransformIsIdentity | src/rendering.rs:127-154 | with the default transform, and a rotation that fixes points at angle 0, world space equals local space |
| Rendering.ToGrid | src/rendering.rs:45-47 | a screen point with UV coordinates in `[0, 1]` lands inside the grid's `width x height` box |
| Rendering.InsertPoints | src/rendering.rs:42-56 | the insert fold adds every id it is given with its projected, grid-scaled point and keeps every other entry of the accumulator |
| Rendering.PointMapFold | src/rendering.rs:42-56 | in whatever order the vertex map yields its ids, the fold builds the same point map: every vertex id, with its projected, grid-scaled world position |
| Rendering.EdgeLines | src/rendering.rs:58-68 | panics (`None`) exactly when some edge names an id with no point; otherwise one `Line` per edge, in edge order, from the first id's point to the second's, each with the glyph |
| Rendering.DrawPolygon | src/rendering.rs:41-71 | panics exactly when an edge names an id that is not a vertex; otherwise one line per edge, in edge order, each carrying the polygon's glyph and running between the projected, grid-scaled world positions of the edge's two vertices |
| Rendering.Draw | src/rendering.rs:36-40 | polygons are drawn in list order: batch `i` is polygon `i`'s lines, and the batches stop at the first polygon that panics |
| ObjImport.EdgeFold | src/obj.rs:28-36 | the fold pushes one edge per corner, and at step `k` the edge from the previous corner (the last corner, for `k == 0`) to corner `k` |
| ObjImport.FaceEdges | src/obj.rs:21-37 | a face with n >= 1 corners gives exactly n edges: first `(last, first)`, then `(v[k-1], v[k])`; the ends touched are exactly the face's corners; an empty face panics |
| ObjImport.FaceEdgesFormCycle | src/obj.rs:29-33 | each edge starts where the previous one ends, and the first starts where the last ends: a closed cycle |
| ObjImport.Faces | src/obj.rs:55-59 | the flattened faces are exactly the faces of some group |
| ObjImport.FacesOfOne | src/obj.rs:55-59 | one group on its own gives exactly its faces, in order |
| ObjImport.FacesAppend | src/obj.rs:55-59 | the faces of consecutive groups are the first groups' faces followed by the rest's |
| ObjImport.ObjectEdges | src/obj.rs:55-63 | an object's edges panic exactly when some face of some group is empty; otherwise one edge per corner, touching exactly the corners of the object's faces |
| ObjImport.ObjectEdgesAppend | src/obj.rs:55-63 | the edges of an object whose groups are `a` then `b` are those of the `a` groups followed by those of the `b` groups, with a panic in either part panicking the whole |
| ObjImport.FacesEdges | src/obj.rs:55-63 | panics exactly when some face is empty; otherwise there is one edge per corner, and the ends touched are exactly the corners of the faces |
| ObjImport.FacesEdgesOfOne | src/obj.rs:58-62 | one face on its own gives exactly that face's cycle |
| ObjImport.FacesEdgesAppend | src/obj.rs:58-63 | the edges of consecutive faces are the first faces' edges followed by the rest's, and a panic in either part panics the whole; with the one-face case this fixes the edges as every face's cycle in face order |
| ObjImport.ContainsFold | src/obj.rs:39-47 | the fold ends `true` exactly when it started `true` or some edge has `v` as an end |
| ObjImport.EdgesContainsIndex | src/obj.rs:39-47 | true exactly when some edge has `v` as either end |
| ObjImport.KeepFrom | src/obj.rs:65-76 | the positions fold adds exactly the indices from `i` on that some edge touches, each with its position, and keeps the rest of the accumulator |
| ObjImport.KeptPositions | src/obj.rs:65-76 | the kept positions are exactly the file indices some edge touches, each mapped to the position at that index |
| ObjImport.ToMeshes | src/obj.rs:49-83 | one fresh, distinct mesh per object, in order, with default transform and glyph, the object's edges and its kept positions; stops at the first object with an empty face |
| ObjImport.ImportedMeshResolves | src/obj.rs:65-76 | an imported mesh has no dangling edge, so it draws without a panic, exactly when every corner of every face indexes a position of the file |
| Shapes.CreateCube | src/lib.rs:16-49 | the cube is a fresh polygon with vertices 0-7 and the 12 edges in the order they are added, keeping the default transform and `'+'` |
| Shapes.CubeCorners | src/lib.rs:21-35 | the ids are exactly 0 to 7, every corner is at (+-1, +-1, +-1), and no two corners coincide |
| Shapes.CubeEdgesAreSides | src/lib.rs:17-46 | every edge joins two inserted vertices that differ in exactly one coordinate, and every such pair is an edge |
| Shapes.CubeEdgesDistinct | src/lib.rs:26-46 | there are 12 edges, and none is repeated in either direction |
| Shapes.TopCornerEdges | src/lib.rs:21-46 | each of corners 0-3 is the end of exactly three edges: two sides of the top square and one upright |
| Shapes.BottomCornerEdges | src/lib.rs:32-46 | each of corners 4-7 is the end of exactly three edges: two sides of the bottom square and one upright |
| Shapes.CubeDraws | src/lib.rs:16-49 | drawing the cube never reaches the `unwrap` panic and yields its 12 lines |

## Left out

- Rasteriser.DrawLine: slopes, inverse slopes and vertex coordinates are exact reals, not `f32`. In `f32` a product can land just below an integer and truncate one cell lower: `(13/22) * 22` is 12.999999, so a line from (0, 0) to (22, 13) writes row 12 in column 22 and misses its endpoint. Only the infinite and NaN slopes are modelled as `f32` behaves.
- Rasteriser.EndpointsDrawn: proved for exact arithmetic. With `f32` rounding, an endpoint can be drawn one cell off.
- Rasteriser.DrawnWithinBox: proved for exact arithmetic, for the same reason.
- Rasteriser.DrawLine: the `usize` coordinates are unbounded naturals. The model covers no `usize` overflow, and no loss of precision in the `usize as f32` cast for coordinates above 2^24.
- Vectors.Add: the round trip `Sub(Add(a, b), b) == a` holds for exact reals only. In `f32`, `a = (1, 0, 0)` and `b = (1e8, 0, 0)` give `1 + 1e8 == 1e8`, and subtracting `b` then gives 0, not 1.
- Vectors.Sub: zero exactly between equal vectors holds for finite `f32` values as well, but not for infinities or NaN, which the model's reals do not have.
- `Vector3::rotate`, `Vector2::rotate`/`to_polar`/`to_cartesian` and `Camera::map_point_uv` are `f32` trigonometry. They enter the model as function parameters (`Rotation`, `Projection`), so nothing is proved about their values.
- Rendering.DrawPolygon and Rendering.Draw stop at the list of `Line`s handed to `CharBuffer::draw_lines`. That method, its float-to-grid clipping and the `Line` type's own code are not part of this model, so the characters drawn on the grid are not modelled. The buffer contributes only its `dimensions`.
- `Line.points` is kept as a pair of `Vector2`. The source's `Into<(f32, f32)>` conversion copies the two components unchanged.
- The grid is an `array2`, so every row has the same length. The source's `data` is a public `Vec<Vec<char>>` that outside code could make ragged. `get_char` on such a grid is not modelled.
- `AsciiObj::load` and `save` are file I/O through the external `obj` crate. The parsed file is taken as given (`ObjData`): faces are lists of position indices, and texture and normal indices are dropped, as the conversion ignores them.
- `Mesh`, `get_edges_mut` and `get_verticies_mut`, named by the OBJ conversion, are taken to be `Polygon` and direct assignment to its fields.
- The `HashMap` iteration order in `get_global_verticies` and `draw_polygon` is not fixed by the model. `GetGlobalVertices` picks keys in an arbitrary order, and `InsertPoints` takes the order as a parameter; `PointMapFold` shows every order gives the same map.
- The frame loop, terminal output and timing (runner.rs), and the demo programs (main.rs, examples/) are outside this model.
