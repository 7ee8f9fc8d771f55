# Virtual camera: a verified model

The virtual camera is a small wire-frame viewer. At start-up it reads every file of a
model directory. Each line of a file holds the six coordinates of a segment,
`x1, y1, z1, x2, y2, z2`. The loader turns a file into a model: a node array with one
homogeneous row `(x, y, z, 1)` per distinct endpoint, numbered in the order the
endpoints are first met, and an edge list with one pair of node indices per line. The
viewer draws every model through a pinhole camera whose focal length starts at 500.
Z is the depth axis: a node is visible only when its z exceeds the focal length.
Each visible node is drawn as a 2x2 oval around its projection. Each edge whose two
endpoints are both visible is drawn as a line between their projections, with no
clipping. The `=` and `-` keys change the focal length by 10 within [100, 1000]. The
movement keys multiply every model's nodes in place by a fixed translation (50 units)
or rotation (5 degrees about X, Y or Z) matrix, and then the scene is redrawn.

The project has eight modules, one per file:

- `Outcomes` (`outcomes.dfy`): `Option` and `Result`.
- `Geometry` (`geometry.dfy`): 4-vectors, 4x4 matrices, and the row-vector product `point · M` that numpy's `@` computes.
- `Transforms` (`transforms.dfy`): `translation_matrix` and `rotation_matrix`.
- `Projection` (`projection.dfy`): `project_point_to_2d`.
- `ModelStore` (`model_store.dfy`): the `Model` class. This covers `transform`, and `load_from_file` with its deduplicating dictionary loop, written as a method with loop invariants and proved equal to a specification function `Load`.
- `Drawing` (`drawing.dfy`): what `draw` puts on the canvas. This is specified by the function `Frame` and produced by the method `Draw`.
- `Controls` (`controls.dfy`): the focal-length rule, the step constants, and the fixed matrices the keys apply.
- `Viewer` (`viewer.dfy`): `load_models`, plus a `Viewer` class holding the global focal length, the model list and the canvas. Its methods are `change_focal_and_draw`, `transform_and_draw` and one key press.

Two details of the code are kept as written:

- The Y block's sines have the opposite signs to those of the X and Z blocks: `+sin` at `[0][2]` and `-sin` at `[2][0]` (`main.py:57-61`). `Transforms.Rotation` keeps these signs.
- `main.py` projects with Z as the depth axis. A Y-depth formula survives only as the comment at `main.py:32`.

## Model

| member | source | states |
|---|---|---|
| Geometry.Mul | model.py:12 | numpy's product of one row vector with a 4x4 matrix: component j is the sum over i of v[i]·m[i][j] |
| Geometry.MulIdentity | model.py:12 | multiplying a row by the identity gives it back |
| Geometry.MulRows | model.py:11-12 | `nodes @ matrix` keeps the number of rows, and row k of the result is row k times the matrix |
| Geometry.MulRowsIdentity | model.py:11-12 | transforming by the identity leaves the node array unchanged |
| Transforms.Translation | main.py:35-39 | every entry of the translation matrix: the identity, except that the last row's first three entries hold dx, dy, dz |
| Transforms.TranslationMoves | main.py:35-39 | a homogeneous point `(x, y, z, 1)` times the translation matrix is `(x+dx, y+dy, z+dz, 1)`; in general the offset is scaled by w |
| Transforms.TranslationUndo | main.py:35-39 | translating by (dx, dy, dz) and then by (-dx, -dy, -dz) gives back the original point |
| Transforms.TranslationUndoRows | main.py:35-39 | the same undo holds for a whole node array |
| Transforms.Rotation | main.py:48-68 | every entry outside the rotation plane is the identity's entry; inside the plane, cos is on the diagonal, with the code's sign pattern for the sines |
| Transforms.RotationHomogeneousPart | main.py:48-68 | a rotation matrix's last row and last column are those of the identity, so it has no translation part |
| Transforms.RotationKeeps | main.py:48-68 | a rotated point keeps its w and its coordinate along the rotation axis |
| Transforms.RotationByZero | main.py:48-68 | with sin 0 and cos 1 every rotation matrix is the identity |
| Transforms.RotationUndo | main.py:48-68 | rotating by an angle and then by its negation (sin negated, cos kept) gives back the original point, whenever sin² + cos² = 1 |
| Transforms.RotationKeepsLength | main.py:48-68 | when sin² + cos² = 1, a rotation keeps the squared length of x, y, z |
| Projection.Visible | main.py:24-25 | a point is in front of the camera iff its z is strictly greater than the focal length |
| Projection.Project | main.py:22-31 | there is no image iff z <= focal; otherwise the image (sx, sy) satisfies sx = focal·x/z + width/2 and sy = height/2 − focal·y/z |
| Projection.ProjectUnique | main.py:28-31 | for a visible point, any screen point that satisfies the pinhole equations is the image, so the image is exactly their solution |
| Projection.VisibilityBoundary | main.py:24-25 | a point at depth exactly equal to the focal length has no image; a point at depth focal + ε has one, for every ε > 0 |
| Projection.SameRaySamePoint | main.py:28-31 | scaling x, y and z by the same positive factor leaves the image unchanged, for visible points |
| Projection.ProjectExample | main.py:22-31 | with focal 100 and a 500x500 view, (0, 0, 200) projects to (250, 250) and (10, 0, 200) projects to (255, 250) |
| ModelStore.EndpointsAt | model.py:21-24 | the loader meets line j's `edge[:3]` at position 2j and its `edge[3:]` at position 2j+1 |
| ModelStore.EndpointOfSomeLine | model.py:21-24 | every endpoint the loader meets is the start or the end of some line |
| ModelStore.IndexOfDistinct | model.py:26-31 | in a repetition-free key order, the first position of the k-th key is k |
| ModelStore.FirstSeenElements | model.py:26-31 | the dictionary keys, taken in insertion order, are exactly the endpoints met |
| ModelStore.FirstSeenDistinct | model.py:26-31 | no key is inserted twice |
| ModelStore.FirstSeenOrder | model.py:26-31 | keys appear in the order their first occurrence is met |
| ModelStore.EndpointsArePoints | model.py:26-33 | both endpoints of every line are dictionary keys |
| ModelStore.PointsOfSix | model.py:35-37 | when every line has six values, every key is a 3-tuple |
| ModelStore.NodesOf | model.py:35-37 | one node per key, and every node has w = 1 |
| ModelStore.EdgesOf | model.py:33 | one edge per line, and both of its indices are below the number of keys |
| ModelStore.UniformIffSix | model.py:35 | the keys of a non-empty file all have the same length iff every line holds exactly six values |
| ModelStore.EdgeEnds | model.py:22-37 | the nodes at edge j's indices are line j's first and second points with w = 1 |
| ModelStore.NodesDistinct | model.py:26-37 | no two nodes are equal |
| ModelStore.SharedNode | model.py:26-33 | two edge ends have the same node index iff they are the same point, for all four pairings of ends |
| ModelStore.EveryNodeUsed | model.py:26-33 | every node is an end of some edge, so the indices 0..n−1 have no gaps |
| ModelStore.Load | model.py:14-39 | what loading gives: an empty file always fails; a loaded file has one edge per line, every edge references one of its nodes, and every node has w = 1 |
| ModelStore.LoadChain | model.py:15-39 | a two-line file a→b, b→c of distinct points loads as nodes [a, b, c] and edges [(0, 1), (1, 2)] |
| ModelStore.ChainPoints | model.py:26-31 | for that file, the dictionary keys in insertion order are a, b, c |
| ModelStore.LoadFailures | model.py:35-36 | an empty file fails with EmptyFile; a line with three values fails with RaggedPoints |
| ModelStore.InternKeeps | model.py:26-31 | inserting a missing key at the counter value keeps the dictionary equal to the positions in the insertion order |
| ModelStore.RecordedEdges | model.py:33 | the edges recorded through the dictionary are exactly the specified edges |
| ModelStore.LineStep | model.py:22-33 | one pass of the loop body keeps the dictionary in step with the first-seen order of the lines read so far, and appends the line's edge |
| ModelStore.IndexLines | model.py:17-37 | the dictionary loop, then the node array, give exactly `Load(lines)`: the failure or the nodes and edges |
| ModelStore.Model.constructor | model.py:6-9 | a new model has no nodes and no edges |
| ModelStore.Model.Transform | model.py:11-12 | the new nodes are the old nodes times the matrix; the edges and the in-range invariant are kept |
| ModelStore.Model.LoadFromFile | model.py:14-39 | fails exactly when `Load` fails, with the same reason; otherwise a fresh, well-formed model holding `Load`'s nodes and edges |
| Drawing.Marker | main.py:79-80 | the oval is 2x2 and centred on the projected point |
| Drawing.MarkerOfVisible | main.py:75-80 | every visible node's oval is on the canvas |
| Drawing.MarkerIsOfVisible | main.py:75-80 | every oval on the canvas belongs to a visible node |
| Drawing.Markers | main.py:75-80 | the ovals of a node array, in node order; at most one per node |
| Drawing.VisibleNodes | main.py:78 | the positions of the nodes in front of the camera |
| Drawing.MarkerCount | main.py:75-80 | exactly one oval per node in front of the camera |
| Drawing.DrawNodes | main.py:75-80 | the node loop draws exactly the specified ovals |
| Drawing.SegmentOfVisible | main.py:81-88 | every edge with both ends visible is drawn, as the line between the two projections |
| Drawing.SegmentIsOfVisible | main.py:81-88 | every line on the canvas belongs to an edge whose two ends are visible, so a partly visible edge is dropped, not clipped |
| Drawing.Segments | main.py:81-88 | the lines of an edge list, in edge order; at most one per edge |
| Drawing.VisibleEdges | main.py:87 | the positions of the edges whose two ends are both in front of the camera |
| Drawing.SegmentCount | main.py:81-88 | exactly one line per edge whose two ends are both in front of the camera |
| Drawing.DrawEdges | main.py:81-88 | the edge loop draws exactly the specified lines |
| Drawing.ModelShapes | main.py:75-88 | the items one model adds: its ovals, then its lines |
| Drawing.Frame | main.py:74-88 | the whole canvas after `draw`: the items of each model, in list order |
| Drawing.LinesEndAtMarkers | main.py:74-88 | both ends of every drawn line are centres of drawn ovals |
| Drawing.ModelShapesInFrame | main.py:74-88 | whatever a model contributes is on the canvas |
| Drawing.FrameShapeOfModel | main.py:74-88 | everything on the canvas was contributed by some model |
| Drawing.Draw | main.py:71-88 | clears the canvas, then draws exactly `Frame` of the models' current contents |
| Controls.NextFocal | main.py:100-106 | the focal length either stays or moves by exactly delta; it moves whenever the target is within [100, 1000]; an in-range focal length stays in range |
| Controls.FocalClamps | main.py:102-105 | a step up from 1000 or down from 100 is refused, and steps reaching the bounds are taken |
| Controls.FocalUndo | main.py:104-105 | a change that was taken is undone by the opposite change |
| Controls.Binding | main.py:123-165 | the action bound to each key: `=` and `-` change the focal length by ±10, the other twelve keys apply their fixed translation or rotation matrix |
| Controls.ZoomKeys | main.py:123-125 | exactly `=` and `-` change the focal length, by +`FOCAL_STEP` or −`FOCAL_STEP`; every other key is a move |
| Controls.Opposite | main.py:127-165 | every key is paired with a different key |
| Controls.OppositePairs | main.py:123-165 | the pairing is an involution, keeps zooming and moving apart, and negates the zoom step |
| Controls.OppositeUndoes | main.py:127-165 | a movement key's matrix followed by its partner's matrix gives back any point |
| Controls.TranslationKeyUndone | main.py:127-145 | a translation key's matrix followed by its partner's matrix gives back any point |
| Controls.RotationKeyUndone | main.py:147-165 | a rotation key's matrix followed by its partner's, about the same axis by the negated angle, gives back any point when sin² + cos² = 1 |
| Controls.OppositeUndoesRows | main.py:127-165 | the same holds for a whole node array |
| Controls.TranslationKeysMove | main.py:127-145 | w/s move a node by ∓50 in z, a/d by ±50 in x, and Space/Shift by ∓50 in y |
| Controls.RotationKeysTurn | main.py:147-165 | z/x turn about Z, r/f about X and e/q about Y: each keeps w, the squared length and the axis coordinate |
| Controls.FocalAfter | main.py:97-125 | the focal length after pressing the given keys in turn from start-up |
| Controls.FocalAfterSnoc | main.py:100-106 | one more key press applies that key's focal change to the focal length so far |
| Controls.FocalOnGrid | main.py:97-106 | after any key sequence the focal length is within [100, 1000] and a multiple of 10 |
| Controls.ZoomInPresses | main.py:123-125 | n presses of `=` from start-up give 500 + 10n while that stays ≤ 1000 |
| Controls.ZoomOutPresses | main.py:123-125 | n presses of `-` from start-up give 500 − 10n while that stays ≥ 100 |
| Controls.FocalReachable | main.py:97-125 | every multiple of 10 in [100, 1000] can be reached by some key sequence |
| Viewer.Loadable | main.py:13-19 | the contents of the files that load, in directory order |
| Viewer.Failures | main.py:14-18 | the position and reason of each file that fails, in directory order |
| Viewer.LoadedOrReported | main.py:13-19 | the number of loaded models plus the number of reports is the number of files |
| Viewer.ReportPositions | main.py:14-18 | every report names a position in the directory listing |
| Viewer.ReportedIffFails | main.py:14-18 | a file is reported iff it fails to load |
| Viewer.ReportsInOrder | main.py:14-18 | reports follow the directory order, so no file is reported twice |
| Viewer.LoadedFromFiles | main.py:14-16 | every loaded model holds the contents of some file that loads |
| Viewer.FilesLoaded | main.py:14-16 | the contents of every file that loads are among the loaded models |
| Viewer.ReportsAreFailures | main.py:15-18 | every report names a file that fails, with the reason it fails |
| Viewer.LoadModels | main.py:9-19 | one fresh, well-formed model per loadable file, in directory order, and one report per failing file |
| Viewer.TransformAll | main.py:92-93 | every model's nodes are multiplied by the matrix; edges and well-formedness are kept |
| Viewer.Viewer.constructor | main.py:118-119 | start-up: focal length 500, and the canvas holds the frame of the loaded models |
| Viewer.Viewer.ChangeFocal | main.py:100-106 | the focal length follows `NextFocal`; the canvas is redrawn iff the change is taken, and is otherwise untouched |
| Viewer.Viewer.TransformAndDraw | main.py:91-94 | every model is transformed, the focal length is kept, and the canvas becomes the frame of the new contents |
| Viewer.Viewer.Performed | main.py:91-106 | the effect of one action: a zoom moves the focal length as `change_focal_and_draw` does and redraws only when it moves; a move transforms every model's nodes, keeps its edges and redraws |
| Viewer.Viewer.Perform | main.py:123-165 | a zoom action behaves as `change_focal_and_draw`, and a move action as `transform_and_draw` |
| Viewer.Viewer.Press | main.py:123-165 | a key press has the effect of its binding, changes the focal length only by the key's step, and keeps the focal length equal to the one the keys pressed so far lead to |
| Viewer.Launch | main.py:118-119 | the viewer starts with the loaded models, focal length 500, and their frame on the canvas |

## Left out

- The Tkinter window, the event loop (`mainloop`) and the Escape binding that closes the window are outside the model. `root.bind` is modelled only as the key-to-action table `Controls.Binding`.
- `Viewer.Viewer.Press`: handles one key at a time. The `update()` call inside `draw` (`main.py:73`) runs key presses that are already queued, so in the program a handler can run in the middle of a redraw. The canvas can then hold the items of two frames. The model does not capture this interleaving.
- The canvas is modelled as the list of items drawn since the last `delete("all")`. The parameters `w` and `h` stand for the canvas's requested size (`winfo_reqwidth`/`winfo_reqheight`, `main.py:77` and `main.py:84`), which Tk fixes when the canvas is created.
- No file system access is modelled: `listdir`, `isfile`, `open` and `readlines` are not part of the model. A directory is given as its regular files in `listdir` order, and a file as its parsed lines.
- Parsing (`line.split(', ')` and `float`) is outside the model. A line that does not parse, such as a blank line, makes Python raise and the file is reported; the model has no such input.
- `print` in `load_models` is modelled as the returned list of (file position, reason) reports.
- Floating-point arithmetic is modelled by exact reals: rounding, NaN, infinities and signed zero are absent. Because of this, two coordinates that are equal as floats but differ in representation are not distinguished as dictionary keys.
- `np.sin`, `np.cos` and `np.radians(5)` are given as the parameters `sin` and `cos`. Lemmas that need a rotation to be orthogonal require sin² + cos² = 1.
- `Projection.Project`: requires focal ≥ 0. The code divides by z after checking z > focal, so a negative focal length with z = 0 would divide by zero. The viewer keeps the focal length in [100, 1000], so this case cannot occur.
- `Drawing.Draw`: requires every model's edges to be in range. `model.nodes[edge[0]]` would raise otherwise. Every loaded model satisfies this, and `transform` keeps it.
- `Viewer.TransformAll`: requires the model objects to be distinct. `load_models` always creates a new object per file.
- The commented-out Y-depth projection at `main.py:32` is not modelled because it is dead code.
- `INIT_SCREEN_SIZE` (`main.py:112`) is not a constant of the model. It only enters `draw` through the requested size, which is the parameter pair `w`, `h`.
