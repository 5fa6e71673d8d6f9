# wire — a verified model of a wireframe 3d scene library

The Go library `wire` builds wireframe 3d shapes out of points. It transforms them in place or as copies, projects them through a pinhole camera and draws them through a small drawing-context interface. The repository holds two generations of this library side by side.

**The root package**
- A `Point` holds X/Y/Z plus a cached projection Px/Py/Scaling.
- A `PointList` is a slice of shared points.
- A `Segment` joins two shared points.
- The global `World` record holds the camera, the clipping planes and the fog range.
- Two shapes exist:
  - `Shape{Paths, Closed}` in shape.go;
  - a Points+Segments shape, used by:
    - the generators in shape_defs.go (box, circle, cone, cylinder, pyramid, grid, sphere, torus, spring, torus knot);
    - the vector font of text.go;
    - the line-oriented save/load format of serialize.go.
- A `PathList` is a list of point lists.

**The `wire/` package**
- It is the older, smaller version.
- Its points carry coordinates only.
- `Project` returns the 2d point and scale instead of caching them.

## Modelling approach

- Every object the Go code mutates in place is a Dafny `class` whose methods carry `modifies` clauses:
  - points;
  - point lists;
  - path lists;
  - both kinds of shape;
  - the world record;
  - the drawing context.
- Lists of shared points are `seq<Point>` fields, so object identity is kept:
  - `Cull` keeps the same objects;
  - `Clone` makes fresh ones;
  - `AsLine` appends the letters' own points.
- The Go loops are `for`/`while` loops with invariants. Each method is proved against a specification function:
  - `ApplyAll`, `Select`, `ConeCoords`, `GlyphPoints`, `GlyphPairs`, `LineCoords`, `Wrapped`, `Load`, `SavedLines`, …
- Properties of those functions are proved as lemmas.
- Coordinates are `real`.
- `math.Cos`/`math.Sin` are parameters, and so are `math.Sqrt`, `math.Atan2`, the random draws and the `%f`/`strconv.ParseFloat` text form of a float. The model fixes where each value comes from, not its floating-point value.
- `log.Fatal` and index panics on the caller's input become preconditions.
- Parse errors in `LoadShape` become an `Outcome` datatype: `Done`, `Failed(error)` or `Panicked`.
- Drawing calls become a recorded trace of calls on `Worlds.Context`.
- Some members that the code calls are defined outside the modelled files:
  - the Points+Segments `Shape` type and its `AddSegmentByIndex`/`Scale`/`Translate`/`UniScale`/`RotateY`;
  - `shouldDraw`;
  - `World.ScaleLineWidth`.
- Those members are modelled by what their call sites require. Their rows cite those call sites.

## Model

| member | source | states |
|---|---|---|
| Geometry.DistSq | point.go:138-143 | the squared distance between two points is never negative |
| Geometry.DistSqSymmetric | point.go:138-143 | the distance from a to b equals the distance from b to a |
| Geometry.PushedAwayScalesDistance | pointlist.go:271-277 | moving the pusher to the origin, scaling by k and moving back multiplies the squared distance to the pusher by k² |
| Geometry.PushedAwayLandsOnRadius | pointlist.go:269-277 | a point at distance d ≠ 0 from the pusher, scaled by radius/d about it, ends exactly radius away |
| Geometry.ApplyAll | pointlist.go:148-237 | a bulk transform applies the per-point operation once to every element; length and order are kept |
| Geometry.TranslateComposes | point.go:161-180 | TranslateX, then TranslateY, then TranslateZ is one Translate by (tx, ty, tz) |
| Geometry.TranslateInverse | point.go:176-180 | translating by (−tx, −ty, −tz) undoes Translate(tx, ty, tz) |
| Geometry.UniScaleIsScale | point.go:235-246 | UniScale(k) moves a point exactly as Scale(k, k, k) |
| Geometry.UniScaleInverse | point.go:242-246 | for k ≠ 0, UniScale(1/k) undoes UniScale(k) |
| Geometry.RotationKeepsAxis | point.go:183-210 | RotateX keeps x, RotateY keeps y and RotateZ keeps z |
| Geometry.RotationKeepsNorm | point.go:183-210 | when c² + s² = 1 (a true cosine/sine pair), each rotation keeps the distance from the origin |
| Geometry.RotationInverse | point.go:183-210 | when c² + s² = 1, rotating by the opposite angle (c, −s) undoes each rotation |
| Points.Point.constructor | point.go:18-20 | NewPoint: the given coordinates and an all-zero projection cache |
| Points.Point.Clone | point.go:125-127 | a fresh point whose six fields equal the receiver's |
| Points.Point.Project | point.go:130-135 | Scaling = FL/(CZ+Z), Px = CX + X·Scaling, Py = CY + Y·Scaling; X, Y, Z unchanged; requires CZ + Z ≠ 0 |
| Points.DistanceIsEuclidean | point.go:138-143 | given a true square root, Distance is non-negative, symmetric, and its square is the squared Euclidean distance |
| Points.Point.Visible | point.go:146-154 | true exactly when NearZ ≤ Z + CZ ≤ FarZ, both bounds inclusive |
| Points.Point.TranslateX | point.go:161-164 | adds tx to X only; the cache is untouched |
| Points.Point.TranslateY | point.go:166-169 | adds ty to Y only; the cache is untouched |
| Points.Point.TranslateZ | point.go:171-174 | adds tz to Z only; the cache is untouched |
| Points.Point.Translate | point.go:176-180 | adds (tx, ty, tz); the cache is untouched |
| Points.Point.RotateX | point.go:183-190 | X kept; Y' = cY + sZ and Z' = cZ − sY, both from the old values |
| Points.Point.RotateY | point.go:193-200 | Y kept; X' = cX + sZ and Z' = cZ − sX, both from the old values |
| Points.Point.RotateZ | point.go:203-210 | Z kept; Y' = cY + sX and X' = cX − sY, both from the old values |
| Points.Point.Rotate | point.go:213-217 | exactly RotateX, then RotateY, then RotateZ |
| Points.Point.ScaleX | point.go:220-223 | multiplies X only |
| Points.Point.ScaleY | point.go:225-228 | multiplies Y only |
| Points.Point.ScaleZ | point.go:230-233 | multiplies Z only |
| Points.Point.Scale | point.go:235-239 | multiplies each axis by its own factor |
| Points.Point.UniScale | point.go:242-246 | multiplies every axis by the same factor |
| Points.Point.RandomizeX | point.go:249-252 | adds one draw from [−amount, amount] to X only |
| Points.Point.RandomizeY | point.go:254-257 | adds one draw from [−amount, amount] to Y only |
| Points.Point.RandomizeZ | point.go:259-262 | adds one draw from [−amount, amount] to Z only |
| Points.Point.Randomize | point.go:264-268 | adds an independent draw to each axis |
| Points.Point.Apply | point.go:161-268 | the in-place method an operation names moves the coordinates as `Geometry.Apply` says and keeps the cache |
| Points.Point.Transformed | point.go:275-391 | every "...ed" copy (except ScaledZ): a fresh point equal to Clone followed by the in-place operation; the receiver is not modified |
| Points.Point.ScaledZ | point.go:345-349 | as written: the copy is scaled on the Y axis |
| Points.Point.ScaledZIntended | point.go:345-349 | the copy is scaled on Z; X and Y are kept |
| Points.ScaledZScalesTheWrongAxis | point.go:345-349 | on (0, 1, 1) with factor 2, ScaleY gives (0, 2, 1) where ScaleZ gives (0, 1, 2) |
| Worlds.Context.constructor | world.go:13-26 | a drawing context with a line width, a source colour and no calls yet |
| Worlds.Context.SetLineWidth | world.go:20 | records the call and sets the line width; the colour is kept |
| Worlds.Context.MoveTo | world.go:16 | records the call; width and colour are kept |
| Worlds.Context.LineTo | world.go:17 | records the call; width and colour are kept |
| Worlds.Context.Stroke | world.go:18 | records the call; width and colour are kept |
| Worlds.Context.StrokePath | world.go:14 | records the call with its points and closed flag; width and colour are kept |
| Worlds.MapEnds | world.go:77 | the range map sends NearFog to 1 and FarFog to 0 |
| Worlds.Clamp | world.go:78 | the result lies in [lo, hi] and equals v when v is already inside |
| Worlds.WorldDef.constructor | world.go:40-54 | the defaults: FL 300, camera at the origin, NearZ 100, FarZ 100000, fog off over 400..1200, white, no context |
| Worlds.WorldDef.SetRGB | world.go:66-70 | changes R, G, B only |
| Worlds.WorldDef.InitWorld | world.go:57-63 | sets the context, the camera centre and R, G, B from the context's colour; FL, NearZ, FarZ and the fog fields are kept |
| Worlds.WorldDef.FogAmount | world.go:73-79 | always in [0, 1]; exactly 1 when fog is off |
| Worlds.MapOntoUnitDown | world.go:77 | the map onto [1, 0] is 1 − (v − a)/(b − a) |
| Worlds.FogClearBeforeNear | world.go:73-79 | with fog on and NearFog < FarFog, a depth at or before NearFog gets 1 |
| Worlds.FogOpaqueBeyondFar | world.go:73-79 | a depth at or beyond FarFog gets 0 |
| Worlds.FogLinearBetween | world.go:73-79 | between the two planes the amount falls linearly from 1 to 0 |
| Worlds.FogNonIncreasing | world.go:73-79 | a deeper object never gets more fog amount |
| Segments.NewSegment | segment.go:10-12 | holds exactly the two given point references |
| Segments.Segment.Clone | segment.go:15-17 | both ends are fresh, distinct copies, field-equal to the originals |
| Segments.Segment.Stroke | segment.go:20-33 | the exact call trace: when shouldDraw holds, SetLineWidth(w·scale), MoveTo(A), LineTo(B), Stroke; then SetLineWidth(w) in every case; width restored; points untouched |
| PointLists.TransformEach | pointlist.go:148-264 | the loop of every bulk transform: point i moves by op i; caches are kept |
| PointLists.TransformAll | pointlist.go:148-237 | the list's coordinates become ApplyAll(op, old coordinates) |
| PointLists.KeptIndicesSpec | pointlist.go:113-121 | the kept positions are increasing and in range, and position i is kept exactly when the predicate holds there |
| PointLists.SelectAtKeptIndices | pointlist.go:113-121 | the culled list is the original objects at the kept positions, in order |
| PointLists.FilterAtKeptIndices | pointlist.go:124-128 | the culled snapshots are the original snapshots at the kept positions, in order |
| PointLists.SelectMembers | pointlist.go:113-121 | a point is in the culled list exactly when it sits at a position whose point satisfies the predicate |
| PointLists.SelectDistinct | pointlist.go:113-121 | culling a list without repeated objects gives a list without repeated objects |
| PointLists.SnapsOfSelect | pointlist.go:113-128 | the fields of the kept points are the filtered fields of the list |
| PointLists.PushOneSpec | pointlist.go:267-280 | a point at least radius away stays; a closer point at non-zero distance ends exactly radius away on the same ray |
| PointLists.ScaleAbout | pointlist.go:271-277 | the subtract, UniScale, add steps on one point move it as PushedAway says; the pusher and the cache are kept |
| PointLists.PushPoint | pointlist.go:268-279 | one turn of Push: the point moves as PushOne says |
| PointLists.CloneAll | pointlist.go:15-21 | fresh, distinct points, each field-equal to the one at the same index |
| PointLists.PointList.constructor | pointlist.go:10-12 | the empty list |
| PointLists.PointList.Add | pointlist.go:24-26 | appends the given object itself at the end |
| PointLists.PointList.AddXYZ | pointlist.go:29-31 | appends one fresh point at (x, y, z) with a zero cache; earlier elements are kept |
| PointLists.PointList.Clone | pointlist.go:15-21 | same length; each element is a fresh point field-equal to the source element |
| PointLists.PointList.Project | pointlist.go:75-79 | every point's cache becomes its projection; coordinates unchanged |
| PointLists.PointList.Get | pointlist.go:94-100 | as written: only a non-negative index reaches an element, and it returns element index |
| PointLists.PointList.GetIntended | pointlist.go:94-100 | index i ≥ 0 gives element i; a negative index counts from the end (−1 is the last) |
| PointLists.NegativeIndexOutOfRange | pointlist.go:96-99 | for a negative index the computed position len − index is beyond the end |
| PointLists.PointList.First | pointlist.go:103-105 | element 0 of a non-empty list |
| PointLists.PointList.Last | pointlist.go:108-110 | the final element of a non-empty list |
| PointLists.PointList.Cull | pointlist.go:113-121 | the list becomes the points satisfying the predicate, in order, as the same objects |
| PointLists.PointList.CullBox | pointlist.go:131-141 | Cull with the inclusive box test on all three axes |
| PointLists.PointList.Culled | pointlist.go:124-128 | fresh points whose fields are the filtered fields of the receiver's; the receiver is unchanged |
| PointLists.PointList.Transform | pointlist.go:148-237 | each named bulk transform applies its operation once to every point; length, order and caches are kept |
| PointLists.PointList.RandomizeEach | pointlist.go:239-264 | each point gets its own draw |
| PointLists.PointList.Push | pointlist.go:267-280 | every point moves as PushOne says; caches are kept |
| PointLists.PointList.Transformed | pointlist.go:298-386 | a fresh list of fresh points equal to Clone followed by the transform |
| PointLists.PointList.RandomizedEach | pointlist.go:389-414 | a fresh list of fresh points, each with its own draw applied |
| PathSeqs.ApplyAllPaths | pathlist.go:56-144 | the operation applied to every point of every path; path count and lengths are kept |
| PathSeqs.TransformPaths | pathlist.go:56-172 | the loop over paths: point j of path i moves by its operation; caches are kept |
| PathSeqs.ClonePaths | pathlist.go:36-42 | fresh points in the same shape of paths, field-equal index by index; no point is shared |
| PathLists.PathList.constructor | pathlist.go:10-12 | n paths, each empty |
| PathLists.PathList.Add | pathlist.go:15-17 | appends the given path by reference as the last path |
| PathLists.PathList.AddPoint | pathlist.go:20-25 | only path index grows, by the given point at its end; requires a valid index, since log.Fatal ends the program otherwise |
| PathLists.PathList.AddXYZ | pathlist.go:28-33 | only path index grows, by one fresh point at (x, y, z) |
| PathLists.PathList.Clone | pathlist.go:36-42 | same path count and lengths, every point fresh and field-equal |
| PathLists.PathList.Transform | pathlist.go:56-145 | each in-place transform other than TranslateY reaches every point of every path |
| PathLists.PathList.TranslateY | pathlist.go:63-67 | as written: every point moves by ty along X |
| PathLists.PathList.TranslateYIntended | pathlist.go:63-67 | every point moves by ty along Y |
| PathLists.TranslateYMovesX | pathlist.go:63-67 | on the origin with ty = 1 the written body gives (1, 0, 0) where a Y translation gives (0, 1, 0) |
| PathLists.PathList.RandomizeEach | pathlist.go:146-172 | each point gets its own draw |
| PathLists.PathList.Transformed | pathlist.go:179-269 | a fresh path list of fresh points equal to Clone followed by the transform |
| PathLists.PathList.TranslatedY | pathlist.go:186-191 | inherits TranslateY: the copy is moved along X |
| PathLists.PathList.RandomizedEach | pathlist.go:270-295 | a fresh copy with each point's own draw applied |
| PathShapes.Shape.constructor | shape.go:31-36 | n empty paths and the given Closed flag |
| PathShapes.Shape.Add | shape.go:39-41 | appends the path by reference; Closed kept |
| PathShapes.Shape.AddPoint | shape.go:44-49 | only Paths[index] grows, by the given point; requires a valid index |
| PathShapes.Shape.AddXYZ | shape.go:52-57 | only Paths[index] grows, by one fresh point at (x, y, z) |
| PathShapes.Shape.AddRandomPointInBox | shape.go:61-63 | a fresh point whose draws lie within half the box's extents is appended to Paths[index] |
| PathShapes.Shape.AddRandomPointOnSphere | shape.go:66-68 | a fresh point at squared distance radius² from the origin is appended |
| PathShapes.Shape.AddRandomPointInSphere | shape.go:71-73 | a fresh point within the sphere is appended |
| PathShapes.Shape.AddRandomPointOnCylinder | shape.go:76-78 | a fresh point on the cylinder wall, within half the height, is appended |
| PathShapes.Shape.AddRandomPointInCylinder | shape.go:81-83 | a fresh point inside the cylinder is appended |
| PathShapes.Shape.Clone | shape.go:86-92 | Closed, the path count and each path's length are kept; every point is fresh and field-equal |
| PathShapes.Shape.Transform | shape.go:120-209 | each in-place transform reaches every point of every path |
| PathShapes.Shape.RandomizeEach | shape.go:211-238 | each point gets its own draw |
| PathShapes.Shape.Transformed | shape.go:243-333 | a fresh shape, same Closed, of fresh points equal to Clone followed by the transform |
| PathShapes.Shape.RandomizedEach | shape.go:334-359 | a fresh copy with each point's own draw applied |
| SegmentShapes.WiredSnoc | serialize.go:108 | appending a segment between points a and b extends the index pairs by (a, b) |
| SegmentShapes.WiredAppend | shape_defs.go:76 | appended segment lists are wired by the appended pair lists |
| SegmentShapes.WiredShift | shape_defs.go:78 | a ring appended after n points is wired by its pairs shifted by n |
| SegmentShapes.ChainSegsSnoc | shape_defs.go:49-52 | one more point adds one segment, from the previous last point to it |
| SegmentShapes.Shape.constructor | shape_defs.go:13 | NewShape: no points, no segments |
| SegmentShapes.Shape.AddPoint | shape_defs.go:130 | appends the given point; segments kept |
| SegmentShapes.Shape.AddXYZ | shape_defs.go:14-21 | appends one fresh point at (x, y, z); segments kept |
| SegmentShapes.Shape.AddSegmentByIndex | shape_defs.go:23-36 | appends the segment between points i and j; requires both indices to be valid |
| SegmentShapes.Shape.Transform | shape_defs.go:37 | the shape-wide Scale/Translate/UniScale/RotateY moves every point once |
| ShapeIndices.LoopPairs | shape_defs.go:45-54 | n pairs, all within n points |
| ShapeIndices.ChainPairs | shape_defs.go:211-213 | n − 1 pairs for n ≥ 1 points, all within n |
| ShapeIndices.LoopPairsClosed | shape_defs.go:266-268 | pair k starts at k, each pair starts where the previous ended, and the last returns to point 0 |
| ShapeIndices.LoopIsClosedChain | shape_defs.go:45-54 | the loop is the chain plus the closing pair (n − 1, 0) |
| ShapeIndices.ChainPairsConnected | shape_defs.go:211-213 | pair k starts at k, consecutive pairs meet, and the chain ends at n − 1 |
| ShapeIndices.ChainSegsWired | shape_defs.go:49-52 | the chain's segments join consecutive points |
| ShapeIndices.RingPairsSpec | shape_defs.go:70-79 | count rings of res points give count·res pairs, in range, each within one ring |
| ShapeIndices.LongPairsSpec | shape_defs.go:80-88 | m·res longitudinal pairs, each joining i·res + j to (i+1)·res + j, all below (m+1)·res |
| ShapeIndices.ClosingPairsSpec | shape_defs.go:240-247 | the res closing pairs join the last ring to point j of the first, all in range |
| GridIndices.GridCoordsAt | shape_defs.go:100-104 | grid point x·(cols+1) + z is (x, 0, z) |
| GridIndices.GridPairsCount | shape_defs.go:105-115 | the loops generate rows·(cols+1) + cols·(rows+1) pairs |
| GridIndices.GridPairsInRange | shape_defs.go:105-115 | every generated index is below (rows+1)·(cols+1) |
| GridIndices.GridPairsAsWrittenSkip | shape_defs.go:107-112 | as written, with rows 1 and cols 2, the second pair is (0, 2) |
| GridIndices.GridCoordsTwoApart | shape_defs.go:100-104 | points 0 and 2 of that grid are 2 apart, not one grid step |
| GridIndices.GridPairsIntendedAreSteps | shape_defs.go:105-115 | with the storage-order strides every pair joins two points one grid step apart |
| ShapeDefs.CirclePointsOnCircle | shape_defs.go:45-47 | with a true cosine/sine, every circle point lies in the plane y = 0 at distance radius from the origin |
| ShapeDefs.CircleChain | shape_defs.go:45-53 | res fresh distinct points at the circle coordinates, chained i−1 → i |
| ShapeDefs.CirclePath | shape_defs.go:42-56 | res points and the closed loop of res segments; requires res ≥ 1, since First/Last panic otherwise |
| ShapeDefs.Circle | shape_defs.go:59-65 | a fresh shape holding exactly CirclePath's points and segments |
| ShapeDefs.BoxEdges | shape_defs.go:12-36 | 8 corners and 12 distinct edges in range, each joining corners 2 apart (a cube edge) |
| ShapeDefs.Box | shape_defs.go:12-39 | 8 fresh points at the corners scaled by (w/2, h/2, d/2), wired by the 12 edges |
| ShapeDefs.AddLongSegments | shape_defs.go:80-88 | the nested loops add exactly the longitudinal pairs |
| ShapeDefs.AddConeRings | shape_defs.go:70-79 | slices rings of res fresh points at the cone coordinates, with ring segments when shown |
| ShapeDefs.Cone | shape_defs.go:68-90 | slices·res points; ring loops when showSlices; (slices−1)·res longitudinal segments when showLong |
| ShapeDefs.ConeEnds | shape_defs.go:71-73 | the first ring has radius0 at y = −height/2; the last has radius1 at y = height/2 |
| ShapeDefs.Cylinder | shape_defs.go:93-95 | Cone with equal radii |
| ShapeDefs.CylinderRadius | shape_defs.go:93-95 | every ring of a cylinder has the same radius |
| ShapeDefs.Pyramid | shape_defs.go:123-125 | Cone(height, 0, baseRadius, 2, sides, true, true): 2·sides points, both rings and the sides |
| ShapeDefs.AddSphereRings | shape_defs.go:178-187 | long+1 latitude rings of lat fresh points, with ring segments when shown |
| ShapeDefs.Sphere | shape_defs.go:176-197 | (long+1)·lat points; latitude loops when showLat; long·lat longitudinal segments when showLong |
| ShapeDefs.SpherePointsOnSphere | shape_defs.go:179-195 | with a true cosine/sine every sphere point lies at distance radius from the origin |
| ShapeDefs.AddTorusRings | shape_defs.go:220-231 | slices rings of res fresh points at the torus coordinates |
| ShapeDefs.AddClosingSegments | shape_defs.go:240-247 | adds exactly the res closing pairs |
| ShapeDefs.Torus | shape_defs.go:218-250 | slices·res points; ring loops; longitudinal segments; and the closing segments when arc ≥ Tau |
| ShapeDefs.AddGridPoints | shape_defs.go:100-104 | (rows+1)·(cols+1) fresh points at (x, 0, z), row by row |
| ShapeDefs.AddGridSegments | shape_defs.go:105-115 | the segments are exactly the pairs the written loops generate |
| ShapeDefs.PlaceGrid | shape_defs.go:116-117 | the grid is scaled to w by d and centred on the origin |
| ShapeDefs.GridPlane | shape_defs.go:98-120 | the placed grid points, wired as the written loops say |
| ShapeDefs.SpringCount | shape_defs.go:199-203 | the float-stepped loop adds no point exactly when turns are negative, and only the point at angle 0 when res = 0 |
| ShapeDefs.SpringStepBound | shape_defs.go:203 | step k is within the loop bound exactly when k < SpringCount |
| ShapeDefs.AddSpringPoints | shape_defs.go:199-210 | one fresh point per step at the spring coordinates; none for negative turns, and the point at angle 0 alone for res = 0 |
| ShapeDefs.Spring | shape_defs.go:199-215 | SpringCount points joined by the open chain i → i+1, for negative turns and for res = 0 as well |
| ShapeDefs.SpringFalls | shape_defs.go:204-208 | the spring starts at height/2 and falls steadily, never below −height/2 |
| ShapeDefs.KnotCount | shape_defs.go:255 | the knot loop runs at least once |
| ShapeDefs.KnotStepBound | shape_defs.go:255 | step k is before Tau exactly when k < KnotCount |
| ShapeDefs.AddKnotPoints | shape_defs.go:255-265 | one fresh point per step at the knot coordinates |
| ShapeDefs.TorusKnot | shape_defs.go:253-270 | KnotCount points joined by the closed loop i → (i+1) mod n |
| Layout.FlattenDistinct | text.go:88-89 | letters that share no point give a combined point list without repeats |
| Layout.ApplyAllFlatten | text.go:104 | transforming the combined list transforms each letter's part |
| Layout.CoordsOfFlatten | text.go:100 | the combined shape's coordinates are the letters' coordinates concatenated |
| Layout.SpreadThenShift | text.go:99-104 | spreading letter i by 50 + (100+spacing)·i and then shifting the line is the line layout |
| Layout.LineLayout | text.go:99-104 | neighbouring letters are 100 + spacing apart, and the line is centred on spacing/2 |
| Layout.WrappedStep | text.go:87-90 | one more letter appended then turned extends the cylinder layout by one letter |
| Layout.TurnedKeepsRadius | text.go:90 | turning about the y-axis keeps each point's height and its distance from the axis |
| Layout.PushedBackRadius | text.go:87 | a flat letter pushed back by radius sits at squared axis distance x² + radius² |
| Glyphs.SplitJoin | text.go:61 | joining the pieces of a split with the separator gives the string back |
| Glyphs.JoinSplit | text.go:61 | splitting a join of separator-free pieces gives those pieces |
| Glyphs.SplitPiecesFree | text.go:61 | no piece of a split contains the separator |
| Glyphs.TrimSpaceCuts | text.go:65 | TrimSpace is a slice of the string that cuts off only white space, from both ends |
| Glyphs.ToUpper | text.go:41 | one character out per character in, each upper-cased |
| Glyphs.ToUpperSpec | text.go:41 | no lower-case ASCII letter survives; each becomes its capital; other characters are kept; upper-casing twice is upper-casing once |
| Glyphs.HexValue | text.go:68-69 | every character has a value below 16; a parse error gives 0 |
| Glyphs.HexRoundTrip | text.go:68-69 | the value of the hex digit written for v is v |
| Glyphs.TokenPoint | text.go:68-71 | the token's point lies in the plane z = 0, within the range hex digits can reach |
| Glyphs.TokenOfGridPoint | text.go:68-71 | the token for column x and row y is the point (x/4 − 1, 1 − y/4, 0) |
| Glyphs.TokenInGlyphBox | text.go:68-71 | digits 0..8 stay inside the glyph box [−1, 1]² |
| Glyphs.GlyphTokens | text.go:61-66 | a glyph has at least one stroke and each stroke at least one token |
| Glyphs.MissingGlyphMalformed | text.go:60-69 | a character missing from the font reads as one empty token, on which ParseChar panics |
| Glyphs.GlyphPointCount | text.go:64-77 | ParseChar makes one point per token over all strokes |
| Glyphs.GlyphPointAt | text.go:64-76 | token j of stroke i becomes point TokenCount(earlier strokes) + j |
| Glyphs.GlyphPairsCount | text.go:64-77 | a stroke of k tokens contributes k − 1 segments |
| Glyphs.GlyphPairsInRange | text.go:73-75 | every segment index names a parsed point |
| Glyphs.GlyphPairsStep | text.go:73-75 | every segment joins a point to the next one |
| Glyphs.GlyphPairsMissStrokeStarts | text.go:73-75 | no segment ends at the first point of a stroke, so no segment joins two strokes |
| Glyphs.ArcadeSemicolonMalformed | text.go:142 | as written, the arcade ';' has a stroke of one-character tokens, on which ParseChar panics, so ParseChar's precondition excludes it |
| Glyphs.ArcadeSemicolonCorrected | text.go:142 | the corrected ';' is three strokes of two-character tokens, which ParseCharIntended accepts |
| Glyphs.ThreeStrokeGlyph | text.go:61-66 | a glyph of three ':'-separated strokes of space-separated pairs is well formed |
| Text.AddToken | text.go:67-76 | one token: a fresh point at its place, plus the segment from the previous point when it is not the first of its stroke |
| Text.AddStroke | text.go:64-77 | the inner loop appends the stroke's points and chains them, starting at the running index |
| Text.ParseStroke | text.go:64-77 | one stroke extends the glyph's points and pairs by that stroke |
| Text.ParseStrokes | text.go:61-78 | the loops produce exactly GlyphPoints and GlyphPairs of the stroke tokens |
| Text.ParseGlyph | text.go:61-80 | the glyph's points scaled by 50, with the stroke pairs |
| Text.ParseChar | text.go:55-81 | as ParseGlyph, on the asteroid font exactly when font == FontAsteroid and on the arcade font as written otherwise |
| Text.ParseCharIntended | text.go:55-81 | ParseChar over the arcade font with the corrected ';' |
| Text.NextLetter | text.go:43-45 | one more fresh letter parsed from the next character, sharing no point with the earlier letters |
| Text.ParseLetters | text.go:42-46 | one fresh letter per character, in order, no point shared between letters |
| Text.NewString | text.go:40-48 | Orig is the upper-cased text and letter i is ParseChar of its character i |
| Text.Str.constructor | text.go:34-37 | the given text and letters |
| Text.GatherLetter | text.go:86-89 | appends the letter's own points and segments after transforming them; later letters are untouched |
| Text.SpreadLetter | text.go:98-102 | one turn of AsLine's loop keeps the layout invariant |
| Text.CentreLine | text.go:103-104 | the final shift turns the spread letters into the centred line |
| Text.CentreIsLineShift | text.go:104 | −(50·2 + spacing)·n/2 + spacing is the line's shift |
| Text.WrapLetter | text.go:86-91 | one turn of AsCylinder's loop keeps the cylinder invariant |
| Text.Str.AsLine | text.go:96-106 | the result holds the letters' own points and segments, in order, at the centred line layout |
| Text.Str.AsCylinder | text.go:84-93 | the result holds the letters' own points and segments, each letter pushed back by radius and turned once per later letter |
| Serialize.ParseInt | serialize.go:78 | a parsed integer fits in 64 bits |
| Serialize.ParseIntItoa | serialize.go:44 | every 64-bit integer Itoa writes parses back to itself |
| Serialize.ItoaNoSpace | serialize.go:60 | a written integer is a single space-free field |
| Serialize.ParseCoordsLine | serialize.go:48 | parseCoords reads back the coordinates of the line Save writes, as the float text reads them |
| Serialize.ParseIndicesLine | serialize.go:60 | parseIndices reads back the pair of the line Save writes |
| Serialize.ShortCoordsLine | serialize.go:113-128 | a line with fewer than three fields never gives a point; when its fields parse, it panics |
| Serialize.ShortIndicesLine | serialize.go:130-141 | a line with one field never gives a pair; when the field parses, it panics |
| Serialize.IndexLine | serialize.go:101-107 | a pair read from a line names two of the loaded points |
| Serialize.Collect | serialize.go:82-109 | the lines give values only when every line does, one value per line |
| Serialize.CollectValues | serialize.go:82-109 | when the lines give values, line k gave value k |
| Serialize.CollectDone | serialize.go:82-109 | lines that each give a value give the sequence of those values |
| Serialize.CollectStops | serialize.go:82-109 | once a line fails, the lines after it are not read |
| Serialize.CollectFirstFailure | serialize.go:82-109 | the first line that fails decides the outcome: its error, or its panic |
| Serialize.CollectedInRange | serialize.go:98-109 | index lines that all give pairs give pairs within the point count |
| Serialize.LoadSegments | serialize.go:93-110 | a loaded segment list keeps the points and names only loaded points |
| Serialize.Load | serialize.go:66-111 | a loaded shape has as many points as the count line says, and segments within them |
| Serialize.AddPoints | serialize.go:82-90 | the first loop adds one fresh point per coordinate line, or stops with the first line's error |
| Serialize.AddSegments | serialize.go:98-109 | the second loop adds one segment per index line, or stops with the first error |
| Serialize.FinishShape | serialize.go:93-110 | reads the segment count and segments; returns nil with the error on failure |
| Serialize.LoadShape | serialize.go:66-111 | returns exactly what Load describes: nil and the first error, or a fresh shape of fresh points with those coordinates and segments |
| Serialize.IndexOf | serialize.go:58-59 | slices.Index: the first position of the point, or −1 when it is absent |
| Serialize.SavedPairs | serialize.go:57-63 | one pair per segment: the positions of its two end points |
| Serialize.SavedLines | serialize.go:44-63 | count line, one line per point, count line, one line per segment, in order |
| Serialize.Save | serialize.go:38-64 | writes exactly SavedLines of the shape's coordinates and segment positions |
| Serialize.IndexOfDistinct | serialize.go:58-59 | in a list without repeats, the position of element i is i |
| Serialize.SavedPairsOfWired | serialize.go:57-63 | Save writes exactly the pairs a shape's segments were wired by |
| Serialize.ReadSavedPoints | serialize.go:82-90 | the saved point lines read back as the reread coordinates |
| Serialize.ReadSavedPairs | serialize.go:98-109 | the saved segment lines read back as the same pairs |
| Serialize.LoadSavedLines | serialize.go:44-110 | loading what Save writes gives the same point count, the reread coordinates and the same pairs |
| Serialize.SaveThenLoad | serialize.go:38-111 | a shape whose points are listed once each loads back from its saved lines with the same segments by index |
| Serialize.TriangleLoads | serialize.go:27-35 | the header's triangle with last segment "2 d" loads when d < 3 and is rejected as a bad index otherwise |
| Serialize.TriangleAsWrittenRejected | serialize.go:27-35 | the header's example as written fails with the index error |
| Serialize.TriangleIntendedLoads | serialize.go:27-35 | with "2 0" it loads as three points and the closed loop 0-1, 1-2, 2-0 |
| WirePoints.Perspective | wire/point.go:27-30 | scale × depth = FL, and the 2d point is the centre offset by x and y times the scale |
| WirePoints.SameRaySamePoint | wire/point.go:27-30 | points on one ray through the eye project to the same 2d point, with scale inversely proportional to depth |
| WirePoints.Point.constructor | wire/point.go:17-19 | NewPoint at the given coordinates |
| WirePoints.Point.Clone | wire/point.go:22-24 | a fresh point with equal X, Y, Z |
| WirePoints.Point.Project | wire/point.go:27-30 | returns the perspective projection and scale; nothing changes |
| WirePoints.Point.TranslateX | wire/point.go:37-39 | X only |
| WirePoints.Point.TranslateY | wire/point.go:42-44 | Y only |
| WirePoints.Point.TranslateZ | wire/point.go:47-49 | Z only |
| WirePoints.Point.Translate | wire/point.go:52-56 | adds (tx, ty, tz) |
| WirePoints.Point.RotateX | wire/point.go:59-66 | X kept; Y and Z rotated from their old values |
| WirePoints.Point.RotateY | wire/point.go:69-76 | Y kept; X and Z rotated from their old values |
| WirePoints.Point.RotateZ | wire/point.go:79-86 | Z kept; X and Y rotated from their old values |
| WirePoints.Point.Rotate | wire/point.go:89-93 | X, then Y, then Z rotation |
| WirePoints.Point.Scale | wire/point.go:96-100 | each axis by its own factor |
| WirePoints.Point.UniScale | wire/point.go:103-107 | the same as Scale(k, k, k) |
| WirePoints.Point.Randomize | wire/point.go:110-114 | one independent draw per axis |
| WirePoints.Point.Apply | wire/point.go:37-114 | the named in-place method moves the point as `Geometry.Apply` says |
| WirePoints.Point.Transformed | wire/point.go:121-195 | a fresh point equal to Clone followed by the operation; the receiver is not modified |
| WirePointLists.PathAlongRay | wire/pointlist.go:36-46 | scaling every point about the eye leaves the projected path unchanged |
| WirePointLists.TransformEach | wire/pointlist.go:59-112 | point i moves by op i, once |
| WirePointLists.ClonePoints | wire/pointlist.go:17-23 | fresh, distinct, coordinate-equal points index by index |
| WirePointLists.ProjectPoints | wire/pointlist.go:36-46 | two sequences as long as the list, entry i the projection and scale of point i |
| WirePointLists.StrokePoints | wire/pointlist.go:49-52 | exactly one StrokePath call with the projected points in order and the closed flag |
| WirePointLists.PointList.constructor | wire/pointlist.go:12-14 | the empty list |
| WirePointLists.PointList.Add | wire/pointlist.go:26-28 | appends the given object at the end |
| WirePointLists.PointList.AddXYZ | wire/pointlist.go:31-33 | appends one fresh point; earlier elements kept |
| WirePointLists.PointList.Clone | wire/pointlist.go:17-23 | same length, fresh coordinate-equal points |
| WirePointLists.PointList.Project | wire/pointlist.go:36-46 | the projected points and scales in list order; no point changes |
| WirePointLists.PointList.Stroke | wire/pointlist.go:49-52 | one StrokePath call with the projected points and the closed flag |
| WirePointLists.PointList.Transform | wire/pointlist.go:59-105 | each bulk transform applies its operation once to every point |
| WirePointLists.PointList.Randomize | wire/pointlist.go:108-112 | each point gets its own three draws |
| WirePointLists.PointList.Transformed | wire/pointlist.go:119-165 | a fresh list of fresh points equal to Clone followed by the transform |
| WirePointLists.PointList.Randomized | wire/pointlist.go:168-172 | a fresh copy with each point's own draws |
| WirePathLists.TransformPaths | wire/pathlist.go:56-109 | point j of path i moves by its operation, once |
| WirePathLists.ClonePaths | wire/pathlist.go:36-42 | fresh points in the same shape of paths; none shared |
| WirePathLists.PathList.constructor | wire/pathlist.go:10-12 | n empty paths |
| WirePathLists.PathList.Add | wire/pathlist.go:15-17 | appends the path by reference |
| WirePathLists.PathList.AddPoint | wire/pathlist.go:20-25 | only that path grows; requires a valid index |
| WirePathLists.PathList.AddXYZ | wire/pathlist.go:28-33 | only that path grows, by one fresh point |
| WirePathLists.PathList.Clone | wire/pathlist.go:36-42 | same path count and lengths; every point fresh |
| WirePathLists.PathList.Stroke | wire/pathlist.go:45-49 | one StrokePath call per path, in order, all with the same closed flag |
| WirePathLists.PathList.Transform | wire/pathlist.go:56-102 | each in-place transform reaches every point of every path |
| WirePathLists.PathList.Randomize | wire/pathlist.go:105-109 | each point gets its own draws |
| WirePathLists.PathList.Transformed | wire/pathlist.go:116-162 | a fresh path list of fresh points equal to Clone followed by the transform |
| WirePathLists.PathList.Randomized | wire/pathlist.go:165-169 | a fresh copy with each point's own draws |

## Left out

**Numbers**
- Floating-point rounding: coordinates are exact `real`s, so every equality above holds for exact arithmetic.
- `math.Cos`, `math.Sin`, `math.Sqrt` and `math.Atan2` are parameters (`Trig`, `sqrt`, `atan2`). Properties that need them assume the exact identity c² + s² = 1 or sqrt(x)² = x.
- `%f` formatting and `strconv.ParseFloat` are the `RealText` parameter. The round trip is stated up to one format-then-parse of each coordinate.
- Float-stepped loop counts:
  - Spring's and TorusKnot's `for a := 0.0; a <= totalAngle; a += step` loops are counted as exact multiples of the step;
  - Sphere's and Torus's `i++` float loops are counted as integer loops.

**Randomness, noise and non-termination**
- Randomness: every draw of `random.FloatRange` is a parameter constrained to its range.
- The RandomPoint* samplers (point.go:31-122) are left out. The AddRandom* methods receive their points.
- RandomInnerBox/RandomSurfaceBox/RandomInnerSphere/RandomSurfaceSphere (shape_defs.go:127-173) are generators over random points and are left out.
- AddRandomPointOnTorus and AddRandomPointInTorus (pointlist.go:62-71) call themselves unconditionally and never return, so they are not modelled.
- Noisify (pointlist.go:282-291) needs an external simplex-noise library.

**Drawing**
- RenderPoints (pointlist.go:82-92) draws through the unseen ApplyFog.
- Shape.Stroke/Points/Subdivide (shape.go:95-113) and the root PathList.Stroke (pathlist.go:45-49) call PointList methods that pointlist.go does not define.
- The Context interfaces are modelled only for the calls the modelled code makes.

**Files**
- File I/O: os.Create/Open, bufio and the checkErr panic (serialize.go:38-42, 66-71, 143-147). Save and LoadShape work on a sequence of lines, and a Scan past the end reads "".
- The scanner's token-size limit and `\r\n` line ends are not modelled.
- The text of strconv's error messages is not modelled. `LoadError` keeps only which of the two messages LoadShape returns.
- cloud.go, main.go, the example program, shapes.go, wire/shapes.go and wire/world.go are not part of this model. The wire camera defaults are the `WirePoints.World` constant.
- LerpPoint (point.go:23-29) is used by no modelled operation and is not modelled.

**Global state**
- The global `World` is an explicit receiver or parameter (`Worlds.WorldDef`, `WirePoints.Camera`).
- point.go reads a `world` that no modelled file declares; it is taken to be that record.

**Aliasing**
- Bulk transforms, Push and Clone-then-transform require the points of a list, or of all paths, to be distinct objects. A point listed twice would be moved twice, and the model does not describe that case.
- PointLists.PointList.Push: requires the pusher not to be one of the pushed points. Go would then move the pusher while measuring against it.

**Panics and Fatal as preconditions**
- Panics and `log.Fatal` on the caller's input are preconditions, not modelled error paths:
  - path indices out of range;
  - First/Last of an empty list;
  - CirclePath with res = 0;
  - parsing a glyph token shorter than two characters.
- LoadShape's panics on short lines are modelled as the `Panicked` outcome. LoadShape itself requires that the lines do not panic.
- Points.Point.Project: requires CZ + Z ≠ 0, where Go would divide by zero and yield ±Inf or NaN. The same holds for WirePoints.Point.Project and the list projections.
- PointLists.PointList.Push: also requires that no point lies exactly on the pusher while radius > 0. Go divides by that zero distance and gives the point NaN coordinates, which reals cannot hold.
- PointLists.PushPoint: requires that the point does not lie exactly on the pusher while radius > 0, for the same reason as Push.
- Worlds.WorldDef.FogAmount: requires NearFog ≠ FarFog when fog is on, where Go's Map would divide by zero.

**Generator domains**
- ShapeDefs.Cone: requires slices ≠ 1. With a single slice, Map and the y formula divide 0 by 0 and Go gives NaN coordinates.
- ShapeDefs.Sphere: requires long > 0 and lat > 0, which excludes the NaN and empty-ring cases.
- ShapeDefs.GridPlane: requires rows > 0 and cols > 0, which excludes the division by zero in its Scale.
- ShapeDefs.Spring: requires turns ≠ 0, and res ≥ 0 when turns > 0 (`SpringEnds`). With no turns Go's first point divides 0 by 0 and has NaN coordinates. A negative res with positive turns never ends the loop. Negative turns (an empty shape) and res = 0 (the point at angle 0 alone) are modelled.
- ShapeDefs.AddSpringPoints: the same domain as Spring, for the same reasons.
- ShapeDefs.TorusKnot: requires r2 ≠ 0. Go then computes r1/r2 = ±Inf, or NaN when r1 = 0 too, and returns KnotCount(res) points joined in a loop whose x and z are NaN, which reals cannot hold. It also requires res > 0, without which the loop never ends.
- ShapeDefs.AddKnotPoints: requires r2 ≠ 0 and res > 0, for the same reasons as TorusKnot.

**Text**
- Glyphs.ToUpper: upper-cases the ASCII letters and the two characters whose capitals the fonts define (ı and ſ). Other non-ASCII characters are kept, whereas Go's Unicode tables would change some of them. No such character has a glyph.
- Text.NewString: iterates over characters, where Go iterates over runes. The two agree on the characters the fonts define.
- Text.ParseChar: requires the glyph to be well formed. Go panics otherwise, and `Glyphs.MissingGlyphMalformed` and `Glyphs.ArcadeSemicolonMalformed` state when that happens.

## Findings

| source | as written | input that shows it | evidently intended | confidence | as-written member | corrected member |
|---|---|---|---|---|---|---|
| point.go:345-349 | ScaledZ clones the point and calls ScaleY | ScaledZ(2) on (0, 1, 1) gives (0, 2, 1) | scale the Z axis, giving (0, 1, 2) | high, not executed | Points.Point.ScaledZ | Points.Point.ScaledZIntended |
| pointlist.go:94-100 | a negative index becomes len(p) − index | Get(−1) on a list of 3 reads p[4], out of range | count back from the end: p[len + index] | high, not executed | PointLists.NegativeIndexOutOfRange | PointLists.PointList.GetIntended |
| pathlist.go:63-67 | TranslateY calls path.TranslateX(ty); TranslatedY inherits it | TranslateY(1) on a path holding the origin moves it to (1, 0, 0) | move along Y, to (0, 1, 0) | high, not executed | PathLists.TranslateYMovesX | PathLists.PathList.TranslateYIntended |
| shape_defs.go:105-115 | segment index x + z·(rows+1), strides 1 and rows+1, while points are stored with stride cols+1 | rows 1, cols 2: segment (0, 2) joins (0,0,0) to (0,0,2), two steps apart | strides cols+1 and 1, so every segment joins grid neighbours | high, not executed | GridIndices.GridPairsAsWrittenSkip | GridIndices.GridPairsIntendedAreSteps |
| serialize.go:27-35 | the format's example triangle ends with the segment "2 3" | loading the example: point 3 does not exist among 3 points, so LoadShape returns the index error | "2 0", closing the triangle | high, not executed | Serialize.TriangleAsWrittenRejected | Serialize.TriangleIntendedLoads |
| text.go:142 | the arcade ';' glyph's last stroke is "1 2 0 0" | ParseChar(";", FontArcade) reads coord[1] of the token "1" and panics | two-character tokens "12 00", like every other glyph | medium, not executed | Glyphs.ArcadeSemicolonMalformed | Glyphs.ArcadeSemicolonCorrected |
