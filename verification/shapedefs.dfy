/**
 * The shape generators of shape_defs.go: each builds a Points+Segments shape
 * by appending points and wiring segments between them by index, then
 * transforms the whole shape in place.
 *
 * Cosine and sine are a parameter (`trig`): the model fixes where each
 * angle comes from, not its floating-point value.  Tau and Pi are the
 * float64 constants the source uses.
 */
module ShapeDefs {
  import opened Geometry
  import opened Points
  import opened PointLists
  import opened Segments
  import opened SegmentShapes
  import opened ShapeIndices
  import opened GridIndices
  import Worlds

  const Pi: real := 3.141592653589793
  const Tau: real := 6.283185307179586

  const Zero := Projection(0.0, 0.0, 0.0)

  /** The cosine and sine the generators call. */
  datatype Trig = Trig(cos: real -> real, sin: real -> real)

  /** The angle of point i of a circle of `res` points. */
  function CircleAngle(i: nat, res: nat): real
    requires res > 0
  {
    Tau * (i as real) / (res as real)
  }

  /** Point i of CirclePath(radius, res): on the circle of `radius` in the plane y = 0. */
  function CirclePoint(radius: real, res: nat, i: nat, trig: Trig): Vec3
    requires res > 0
  {
    var t := CircleAngle(i, res);
    Vec3(trig.cos(t) * radius, 0.0, trig.sin(t) * radius)
  }

  function CircleCoords(radius: real, res: nat, trig: Trig): (r: seq<Vec3>)
    ensures |r| == res
  {
    seq(res, i requires 0 <= i < res => CirclePoint(radius, res, i, trig))
  }

  /** The cosine and sine of every angle lie on the unit circle. */
  ghost predicate UnitCircle(trig: Trig) {
    forall t :: trig.cos(t) * trig.cos(t) + trig.sin(t) * trig.sin(t) == 1.0
  }

  /**
   * With a cosine and sine on the unit circle, every point of CirclePath lies
   * in the plane y = 0 at distance |radius| from the y-axis.
   */
  lemma CirclePointsOnCircle(radius: real, res: nat, trig: Trig)
    requires res > 0 && UnitCircle(trig)
    ensures forall i :: 0 <= i < res ==>
      CircleCoords(radius, res, trig)[i].y == 0.0 &&
      NormSq(CircleCoords(radius, res, trig)[i]) == radius * radius
  {
    forall i | 0 <= i < res
      ensures NormSq(CircleCoords(radius, res, trig)[i]) == radius * radius
    {
      var t := CircleAngle(i, res);
      var c, s := trig.cos(t), trig.sin(t);
      assert c * c + s * s == 1.0;
      calc {
        NormSq(Vec3(c * radius, 0.0, s * radius));
        (c * radius) * (c * radius) + 0.0 * 0.0 + (s * radius) * (s * radius);
        (c * c + s * s) * (radius * radius);
        radius * radius;
      }
    }
  }

  lemma CoordsOfAppend(a: seq<Point>, b: seq<Point>)
    ensures CoordsOf(a + b) == CoordsOf(a) + CoordsOf(b)
  {
  }

  /** Appending the point at `full[i]` to points with the coordinates full[..i] gives full[..i + 1]. */
  lemma CoordsOfGrow(points: seq<Point>, p: Point, full: seq<Vec3>, i: nat)
    requires i < |full| && CoordsOf(points) == full[..i] && p.Coords() == full[i]
    ensures CoordsOf(points + [p]) == full[..i + 1]
  {
    CoordsOfAppend(points, [p]);
    assert full[..i + 1] == full[..i] + [full[i]];
  }

  /** The body of CirclePath's loop: a new point at angle Tau * i / res, with an empty projection. */
  method NewCirclePoint(radius: real, res: nat, i: nat, trig: Trig) returns (p: Point)
    requires res > 0
    ensures fresh(p) && p.Snap() == Snapshot(CirclePoint(radius, res, i, trig), Zero)
  {
    var t := Tau * (i as real) / (res as real);
    p := new Point(trig.cos(t) * radius, 0.0, trig.sin(t) * radius);
  }

  /** CirclePath's loop: `res` new points around the circle, each joined to the one before. */
  method CircleChain(radius: real, res: nat, trig: Trig)
    returns (points: seq<Point>, segments: seq<Segment>)
    ensures |points| == res && Distinct(points)
    ensures forall j :: 0 <= j < res ==> fresh(points[j])
    ensures CoordsOf(points) == CircleCoords(radius, res, trig)
    ensures segments == ChainSegs(points)
  {
    points, segments := [], [];
    var i := 0;
    while i < res
      invariant 0 <= i <= res && |points| == i && Distinct(points)
      invariant forall j :: 0 <= j < i ==> fresh(points[j])
      invariant CoordsOf(points) == CircleCoords(radius, res, trig)[..i]
      invariant segments == ChainSegs(points)
    {
      var p := NewCirclePoint(radius, res, i, trig);
      ghost var prev := points;
      CoordsOfGrow(points, p, CircleCoords(radius, res, trig), i);
      points := points + [p];
      if i > 0 {
        ChainSegsSnoc(prev, p);
        segments := segments + [NewSegment(points[i - 1], points[i])];
      }
      i := i + 1;
    }
    assert CircleCoords(radius, res, trig)[..res] == CircleCoords(radius, res, trig);
  }

  /**
   * CirclePath: `res` new points around the circle, each joined to the next
   * and the last back to the first.  A count below 1 leaves no last point
   * for the closing segment and panics.
   */
  method CirclePath(radius: real, res: int, trig: Trig)
    returns (points: seq<Point>, segments: seq<Segment>)
    requires res >= 1
    ensures |points| == res && Distinct(points)
    ensures forall j :: 0 <= j < res ==> fresh(points[j])
    ensures CoordsOf(points) == CircleCoords(radius, res, trig)
    ensures Wired(points, segments, LoopPairs(res))
  {
    points, segments := CircleChain(radius, res, trig);
    ChainSegsWired(points);
    ghost var chain := segments;
    segments := segments + [NewSegment(points[|points| - 1], points[0])];
    WiredSnoc(points, chain, ChainPairs(res), res - 1, 0);
    LoopIsClosedChain(res);
  }

  /** Circle: a shape holding exactly the points and segments of CirclePath. */
  method Circle(radius: real, res: int, trig: Trig) returns (shape: Shape)
    requires res >= 1
    ensures fresh(shape) && |shape.Points| == res && Distinct(shape.Points)
    ensures forall j :: 0 <= j < res ==> fresh(shape.Points[j])
    ensures CoordsOf(shape.Points) == CircleCoords(radius, res, trig)
    ensures Wired(shape.Points, shape.Segments, LoopPairs(res))
  {
    shape := new Shape();
    var p, s := CirclePath(radius, res, trig);
    shape.Points := p;
    shape.Segments := s;
  }

  /** The eight corners of the unit box, in the order Box adds them. */
  function BoxCorners(): seq<Vec3> {
    [Vec3(-1.0, -1.0, -1.0), Vec3(-1.0, 1.0, -1.0), Vec3(1.0, 1.0, -1.0), Vec3(1.0, -1.0, -1.0),
     Vec3(-1.0, -1.0, 1.0), Vec3(-1.0, 1.0, 1.0), Vec3(1.0, 1.0, 1.0), Vec3(1.0, -1.0, 1.0)]
  }

  /** The twelve edges of Box: the back face, the front face, then the four joining edges. */
  function BoxPairs(): seq<(int, int)> {
    [(0, 1), (1, 2), (2, 3), (3, 0), (4, 5), (5, 6), (6, 7), (7, 4), (0, 4), (1, 5), (2, 6), (3, 7)]
  }

  /**
   * Box's twelve segments are exactly the twelve edges of the cube: every one
   * joins two corners that differ on one axis, and no corner pair is wired twice.
   */
  lemma BoxEdges()
    ensures |BoxCorners()| == 8 && |BoxPairs()| == 12 && InRange(BoxPairs(), 8)
    ensures forall k :: 0 <= k < 12 ==> DistSq(BoxCorners()[BoxPairs()[k].0], BoxCorners()[BoxPairs()[k].1]) == 4.0
    ensures forall k, l :: 0 <= k < l < 12 ==>
      BoxPairs()[k] != BoxPairs()[l] && BoxPairs()[k] != (BoxPairs()[l].1, BoxPairs()[l].0)
  {
  }

  /** AddXYZ, seen through the coordinates: one new point at v on the end. */
  method AddVertex(shape: Shape, v: Vec3)
    requires Distinct(shape.Points)
    modifies shape
    ensures |shape.Points| == |old(shape.Points)| + 1 && Distinct(shape.Points)
    ensures shape.Points[..|old(shape.Points)|] == old(shape.Points) && shape.Segments == old(shape.Segments)
    ensures fresh(shape.Points[|old(shape.Points)|])
    ensures CoordsOf(shape.Points) == old(CoordsOf(shape.Points)) + [v]
  {
    ghost var before := shape.Points;
    shape.AddXYZ(v.x, v.y, v.z);
    assert shape.Points == before + [shape.Points[|before|]];
    CoordsOfAppend(before, [shape.Points[|before|]]);
  }
  /** Appends one new point per entry of `vs`, in order: a run of AddXYZ calls. */
  method AddAllXYZ(shape: Shape, vs: seq<Vec3>)
    requires Distinct(shape.Points)
    modifies shape
    ensures |shape.Points| == |old(shape.Points)| + |vs| && Distinct(shape.Points)
    ensures shape.Points[..|old(shape.Points)|] == old(shape.Points) && shape.Segments == old(shape.Segments)
    ensures forall j :: |old(shape.Points)| <= j < |shape.Points| ==> fresh(shape.Points[j])
    ensures CoordsOf(shape.Points) == old(CoordsOf(shape.Points)) + vs
  {
    ghost var start := CoordsOf(shape.Points);
    for k := 0 to |vs|
      invariant |shape.Points| == |old(shape.Points)| + k && Distinct(shape.Points)
      invariant shape.Points[..|old(shape.Points)|] == old(shape.Points) && shape.Segments == old(shape.Segments)
      invariant forall j :: |old(shape.Points)| <= j < |shape.Points| ==> fresh(shape.Points[j])
      invariant CoordsOf(shape.Points) == start + vs[..k]
    {
      AddVertex(shape, vs[k]);
      PrefixSnoc(start, vs, k);
    }
    assert vs[..|vs|] == vs;
  }

  lemma PrefixSnoc<T>(start: seq<T>, vs: seq<T>, k: nat)
    requires k < |vs|
    ensures start + vs[..k + 1] == (start + vs[..k]) + [vs[k]]
  {
    assert vs[..k + 1] == vs[..k] + [vs[k]];
  }


  /** Appends one segment per index pair, in order: a run of AddSegmentByIndex calls. */
  method AddSegmentsByIndex(shape: Shape, pairs: seq<(int, int)>, ghost wired: seq<(int, int)>)
    requires InRange(pairs, |shape.Points|) && Wired(shape.Points, shape.Segments, wired)
    modifies shape
    ensures shape.Points == old(shape.Points)
    ensures Wired(shape.Points, shape.Segments, wired + pairs)
  {
    for k := 0 to |pairs|
      invariant shape.Points == old(shape.Points)
      invariant Wired(shape.Points, shape.Segments, wired + pairs[..k])
    {
      shape.AddSegmentByIndex(pairs[k].0, pairs[k].1);
      assert wired + pairs[..k + 1] == (wired + pairs[..k]) + [pairs[k]];
    }
  }

  /**
   * Box: the unit cube's corners and edges, scaled by half the requested
   * size.  The source spells out the eight AddXYZ and twelve
   * AddSegmentByIndex calls; here they run over the two tables in the same order.
   */
  method Box(w: real, h: real, d: real) returns (shape: Shape)
    ensures fresh(shape) && |shape.Points| == 8 && Distinct(shape.Points)
    ensures forall j :: 0 <= j < 8 ==> fresh(shape.Points[j])
    ensures CoordsOf(shape.Points) == ApplyAll(Op.Scale(w / 2.0, h / 2.0, d / 2.0), BoxCorners())
    ensures Wired(shape.Points, shape.Segments, BoxPairs())
  {
    shape := new Shape();
    AddAllXYZ(shape, BoxCorners());
    BoxEdges();
    AddSegmentsByIndex(shape, BoxPairs(), []);
    shape.Transform(Op.Scale(w / 2.0, h / 2.0, d / 2.0));
  }

  /**
   * Appends a ring made by CirclePath: its segments first when `showSegs`,
   * then its points.  The ring's loop is wired at indices shifted past the
   * points already in the shape.
   */
  method AppendRing(shape: Shape, ring: seq<Point>, segs: seq<Segment>, showSegs: bool, ghost wired: seq<(int, int)>)
    requires Distinct(shape.Points) && Distinct(ring)
    requires forall j, k :: 0 <= j < |ring| && 0 <= k < |shape.Points| ==> ring[j] != shape.Points[k]
    requires Wired(ring, segs, LoopPairs(|ring|)) && Wired(shape.Points, shape.Segments, wired)
    modifies shape
    ensures shape.Points == old(shape.Points) + ring && Distinct(shape.Points)
    ensures CoordsOf(shape.Points) == old(CoordsOf(shape.Points)) + CoordsOf(ring)
    ensures Wired(shape.Points, shape.Segments,
      wired + (if showSegs then Shift(LoopPairs(|ring|), |old(shape.Points)|) else []))
  {
    ghost var points, segments := shape.Points, shape.Segments;
    CoordsOfAppend(points, ring);
    if showSegs {
      shape.Segments := shape.Segments + segs;
    }
    shape.Points := shape.Points + ring;
    WiredExtend(points, ring, segments, wired);
    if showSegs {
      WiredShift(points, ring, segs, LoopPairs(|ring|));
      WiredAppend(points + ring, segments, wired, segs, Shift(LoopPairs(|ring|), |points|));
    }
  }

  /** Point j of ring i joined to point j of ring i + 1, for every j, in order of j. */
  method AddColumnSegments(shape: Shape, i: nat, res: nat, ghost wired: seq<(int, int)>)
    requires (i + 2) * res <= |shape.Points| && Wired(shape.Points, shape.Segments, wired)
    modifies shape
    ensures shape.Points == old(shape.Points)
    ensures Wired(shape.Points, shape.Segments, wired + Column(i, res))
  {
    var j := 0;
    while j < res
      invariant 0 <= j <= res && shape.Points == old(shape.Points)
      invariant Wired(shape.Points, shape.Segments, wired + Column(i, res)[..j])
    {
      var index0 := i * res + j;
      var index1 := (i + 1) * res + j;
      RingBounds(i, j, res, i + 2);
      RingBounds(i + 1, j, res, i + 2);
      ghost var pairs, segs := wired + Column(i, res)[..j], shape.Segments;
      shape.AddSegmentByIndex(index0, index1);
      WiredSnoc(shape.Points, segs, pairs, index0, index1);
      assert wired + Column(i, res)[..j + 1] == pairs + [(index0, index1)];
      j := j + 1;
    }
    assert Column(i, res)[..res] == Column(i, res);
  }

  /**
   * The longitudinal segments of Cone, Sphere and Torus: for each of the
   * first m rings, point j joined to point j of the next ring.
   */
  method AddLongSegments(shape: Shape, m: nat, res: nat, ghost wired: seq<(int, int)>)
    requires (m + 1) * res <= |shape.Points| && Wired(shape.Points, shape.Segments, wired)
    modifies shape
    ensures shape.Points == old(shape.Points)
    ensures Wired(shape.Points, shape.Segments, wired + LongPairs(m, res))
  {
    var i := 0;
    while i < m
      invariant 0 <= i <= m && shape.Points == old(shape.Points)
      invariant Wired(shape.Points, shape.Segments, wired + LongPairs(i, res))
    {
      MulMono(i + 2, m + 1, res);
      AddColumnSegments(shape, i, res, wired + LongPairs(i, res));
      assert wired + LongPairs(i + 1, res) == wired + LongPairs(i, res) + Column(i, res);
      i := i + 1;
    }
  }

  /** The radius of ring i of Cone: mapped linearly from radius0 at ring 0 to radius1 at the last ring. */
  function ConeRadius(i: nat, slices: nat, radius0: real, radius1: real): real
    requires slices != 1
  {
    Worlds.Map(i as real, 0.0, (slices - 1) as real, radius0, radius1)
  }

  /** The height of ring i of Cone: from -height/2 at ring 0 to height/2 at the last ring. */
  function ConeY(i: nat, slices: nat, height: real): real
    requires slices != 1
  {
    (i as real) / ((slices as real) - 1.0) * height - height / 2.0
  }

  /** Ring i of Cone: the circle of its radius, lifted to its height. */
  function ConeRing(i: nat, height: real, radius0: real, radius1: real, slices: nat, res: nat, trig: Trig): (r: seq<Vec3>)
    requires slices != 1
    ensures |r| == res
  {
    ApplyAll(Op.TranslateY(ConeY(i, slices, height)), CircleCoords(ConeRadius(i, slices, radius0, radius1), res, trig))
  }

  /** The points of the first n rings of Cone, ring after ring. */
  function ConeCoords(n: nat, height: real, radius0: real, radius1: real, slices: nat, res: nat, trig: Trig): (r: seq<Vec3>)
    requires slices != 1
    ensures |r| == n * res
  {
    if n == 0 then []
    else
      MulStep(n - 1, res);
      ConeCoords(n - 1, height, radius0, radius1, slices, res, trig) + ConeRing(n - 1, height, radius0, radius1, slices, res, trig)
  }

  /** Point j of ring i sits at index i * res + j, on ring i's circle at ring i's height. */
  lemma {:induction false} ConeCoordsAt(n: nat, height: real, radius0: real, radius1: real, slices: nat, res: nat, trig: Trig, i: nat, j: nat)
    requires slices != 1 && i < n && j < res
    ensures i * res + j < n * res
    ensures ConeCoords(n, height, radius0, radius1, slices, res, trig)[i * res + j] ==
      Apply(Op.TranslateY(ConeY(i, slices, height)), CirclePoint(ConeRadius(i, slices, radius0, radius1), res, j, trig))
  {
    RingBounds(i, j, res, n);
    if i < n - 1 {
      ConeCoordsAt(n - 1, height, radius0, radius1, slices, res, trig, i, j);
    } else {
      assert |ConeCoords(n - 1, height, radius0, radius1, slices, res, trig)| == i * res;
    }
  }

  /** The body of Cone's loop: ring i made by CirclePath and lifted to its height. */
  method ConeRingPoints(i: nat, height: real, radius0: real, radius1: real, slices: nat, res: nat, trig: Trig)
    returns (p: seq<Point>, s: seq<Segment>)
    requires slices != 1 && res > 0
    ensures |p| == res && Distinct(p) && forall j :: 0 <= j < res ==> fresh(p[j])
    ensures CoordsOf(p) == ConeRing(i, height, radius0, radius1, slices, res, trig)
    ensures Wired(p, s, LoopPairs(res))
  {
    var radius := Worlds.Map(i as real, 0.0, (slices - 1) as real, radius0, radius1);
    p, s := CirclePath(radius, res, trig);
    var y := (i as real) / ((slices as real) - 1.0) * height - height / 2.0;
    assert radius == ConeRadius(i, slices, radius0, radius1) && y == ConeY(i, slices, height);
    ghost var circle := CoordsOf(p);
    TransformAll(p, Op.TranslateY(y));
    assert CoordsOf(p) == ApplyAll(Op.TranslateY(y), circle);
  }

  /** The ring loops' wiring: every ring's loop when the rings' segments are shown, none otherwise. */
  function ShownRings(show: bool, count: nat, res: nat): seq<(int, int)> {
    if show then RingPairs(count, res) else []
  }

  /** One pass of Cone's loop: ring i appended after rings 0 .. i - 1. */
  method AddConeRing(shape: Shape, i: nat, height: real, radius0: real, radius1: real, slices: nat, res: nat, showSlices: bool, trig: Trig)
    returns (ghost ring: seq<Point>)
    requires slices != 1 && res > 0
    requires |shape.Points| == i * res && Distinct(shape.Points)
    requires CoordsOf(shape.Points) == ConeCoords(i, height, radius0, radius1, slices, res, trig)
    requires Wired(shape.Points, shape.Segments, ShownRings(showSlices, i, res))
    modifies shape
    ensures shape.Points == old(shape.Points) + ring && fresh(ring)
    ensures |shape.Points| == (i + 1) * res && Distinct(shape.Points)
    ensures CoordsOf(shape.Points) == ConeCoords(i + 1, height, radius0, radius1, slices, res, trig)
    ensures Wired(shape.Points, shape.Segments, ShownRings(showSlices, i + 1, res))
  {
    var p, s := ConeRingPoints(i, height, radius0, radius1, slices, res, trig);
    AppendRing(shape, p, s, showSlices, ShownRings(showSlices, i, res));
    MulStep(i, res);
    ring := p;
  }

  /** The loop of Cone: appends its `slices` rings to an empty shape. */
  method AddConeRings(shape: Shape, height: real, radius0: real, radius1: real, slices: nat, res: nat, showSlices: bool, trig: Trig)
    requires slices != 1 && (slices > 0 ==> res > 0)
    requires shape.Points == [] && shape.Segments == []
    modifies shape
    ensures |shape.Points| == slices * res && Distinct(shape.Points)
    ensures forall j :: 0 <= j < |shape.Points| ==> fresh(shape.Points[j])
    ensures CoordsOf(shape.Points) == ConeCoords(slices, height, radius0, radius1, slices, res, trig)
    ensures Wired(shape.Points, shape.Segments, ShownRings(showSlices, slices, res))
  {
    var i := 0;
    while i < slices
      invariant 0 <= i <= slices && |shape.Points| == i * res && Distinct(shape.Points)
      invariant fresh(shape.Points)
      invariant CoordsOf(shape.Points) == ConeCoords(i, height, radius0, radius1, slices, res, trig)
      invariant Wired(shape.Points, shape.Segments, ShownRings(showSlices, i, res))
    {
      ghost var ring := AddConeRing(shape, i, height, radius0, radius1, slices, res, showSlices, trig);
      i := i + 1;
    }
  }

  /**
   * Cone: `slices` rings of `res` points, ring i at height ConeY and of
   * radius ConeRadius.  Ring segments are kept when showSlices holds, and
   * longitudinal segments are added when showLong holds.  A single slice
   * divides zero by zero in both the radius and the height, and a ring of
   * fewer than one point panics in CirclePath.
   */
  method Cone(height: real, radius0: real, radius1: real, slices: nat, res: nat, showSlices: bool, showLong: bool, trig: Trig)
    returns (shape: Shape)
    requires slices != 1 && (slices > 0 ==> res > 0)
    ensures fresh(shape) && |shape.Points| == slices * res && Distinct(shape.Points)
    ensures forall j :: 0 <= j < |shape.Points| ==> fresh(shape.Points[j])
    ensures CoordsOf(shape.Points) == ConeCoords(slices, height, radius0, radius1, slices, res, trig)
    ensures Wired(shape.Points, shape.Segments,
      (ShownRings(showSlices, slices, res)) + (if showLong && slices > 0 then LongPairs(slices - 1, res) else []))
  {
    shape := new Shape();
    AddConeRings(shape, height, radius0, radius1, slices, res, showSlices, trig);
    if showLong && slices > 0 {
      AddLongSegments(shape, slices - 1, res, ShownRings(showSlices, slices, res));
    }
  }

  /** Cylinder: a Cone whose two radii are equal. */
  method Cylinder(height: real, radius: real, slices: nat, res: nat, showSlices: bool, showLong: bool, trig: Trig)
    returns (shape: Shape)
    requires slices != 1 && (slices > 0 ==> res > 0)
    ensures fresh(shape) && |shape.Points| == slices * res && Distinct(shape.Points)
    ensures CoordsOf(shape.Points) == ConeCoords(slices, height, radius, radius, slices, res, trig)
    ensures Wired(shape.Points, shape.Segments,
      (ShownRings(showSlices, slices, res)) + (if showLong && slices > 0 then LongPairs(slices - 1, res) else []))
  {
    shape := Cone(height, radius, radius, slices, res, showSlices, showLong, trig);
  }

  /** Pyramid: a Cone of two slices, the first of radius 0, with every segment shown. */
  method Pyramid(height: real, baseRadius: real, sides: nat, trig: Trig) returns (shape: Shape)
    requires sides > 0
    ensures fresh(shape) && |shape.Points| == 2 * sides && Distinct(shape.Points)
    ensures CoordsOf(shape.Points) == ConeCoords(2, height, 0.0, baseRadius, 2, sides, trig)
    ensures Wired(shape.Points, shape.Segments, RingPairs(2, sides) + LongPairs(1, sides))
  {
    shape := Cone(height, 0.0, baseRadius, 2, sides, true, true, trig);
  }

  /**
   * The first ring of Cone has radius0 and sits at -height/2; the last has
   * radius1 and sits at height/2.
   */
  lemma ConeEnds(height: real, radius0: real, radius1: real, slices: nat)
    requires slices >= 2
    ensures ConeRadius(0, slices, radius0, radius1) == radius0
    ensures ConeRadius(slices - 1, slices, radius0, radius1) == radius1
    ensures ConeY(0, slices, height) == -height / 2.0
    ensures ConeY(slices - 1, slices, height) == height / 2.0
  {
    Worlds.MapEnds(0.0, (slices - 1) as real, radius0, radius1);
    assert ((slices - 1) as real) / ((slices as real) - 1.0) == 1.0;
  }

  /** Every ring of a Cylinder has the same radius. */
  lemma CylinderRadius(i: nat, slices: nat, radius: real)
    requires slices != 1
    ensures ConeRadius(i, slices, radius, radius) == radius
  {
  }

  /** The angle of Sphere's ring i: from 0 at the first ring to Pi at the last. */
  function SphereAngle(i: nat, long: nat): real
    requires long > 0
  {
    (i as real) / (long as real) * Pi
  }

  /** Ring i of Sphere, before scaling: a circle of radius sin a, lifted to height cos a. */
  function SphereRing(i: nat, long: nat, lat: nat, trig: Trig): (r: seq<Vec3>)
    requires long > 0 && lat > 0
    ensures |r| == lat
  {
    var a := SphereAngle(i, long);
    ApplyAll(Op.TranslateY(trig.cos(a)), CircleCoords(trig.sin(a), lat, trig))
  }

  /** The points of Sphere's first n rings, before scaling. */
  function SphereCoords(n: nat, long: nat, lat: nat, trig: Trig): (r: seq<Vec3>)
    requires long > 0 && lat > 0
    ensures |r| == n * lat
  {
    if n == 0 then []
    else
      MulStep(n - 1, lat);
      SphereCoords(n - 1, long, lat, trig) + SphereRing(n - 1, long, lat, trig)
  }

  /** Sphere's points: its rings scaled by `radius`. */
  function SpherePoints(radius: real, long: nat, lat: nat, trig: Trig): (r: seq<Vec3>)
    requires long > 0 && lat > 0
    ensures |r| == (long + 1) * lat
  {
    ApplyAll(Op.UniScale(radius), SphereCoords(long + 1, long, lat, trig))
  }

  /** The body of Sphere's loop: ring i made by CirclePath and lifted to its height. */
  method SphereRingPoints(i: nat, long: nat, lat: nat, trig: Trig) returns (p: seq<Point>, s: seq<Segment>)
    requires long > 0 && lat > 0
    ensures |p| == lat && Distinct(p) && forall j :: 0 <= j < lat ==> fresh(p[j])
    ensures CoordsOf(p) == SphereRing(i, long, lat, trig)
    ensures Wired(p, s, LoopPairs(lat))
  {
    var a := (i as real) / (long as real) * Pi;
    p, s := CirclePath(trig.sin(a), lat, trig);
    ghost var circle := CoordsOf(p);
    TransformAll(p, Op.TranslateY(trig.cos(a)));
    assert CoordsOf(p) == ApplyAll(Op.TranslateY(trig.cos(a)), circle);
  }

  /** One pass of Sphere's loop: ring i appended after rings 0 .. i - 1. */
  method AddSphereRing(shape: Shape, i: nat, long: nat, lat: nat, showLat: bool, trig: Trig)
    returns (ghost ring: seq<Point>)
    requires long > 0 && lat > 0
    requires |shape.Points| == i * lat && Distinct(shape.Points)
    requires CoordsOf(shape.Points) == SphereCoords(i, long, lat, trig)
    requires Wired(shape.Points, shape.Segments, ShownRings(showLat, i, lat))
    modifies shape
    ensures shape.Points == old(shape.Points) + ring && fresh(ring)
    ensures |shape.Points| == (i + 1) * lat && Distinct(shape.Points)
    ensures CoordsOf(shape.Points) == SphereCoords(i + 1, long, lat, trig)
    ensures Wired(shape.Points, shape.Segments, ShownRings(showLat, i + 1, lat))
  {
    var p, s := SphereRingPoints(i, long, lat, trig);
    AppendRing(shape, p, s, showLat, ShownRings(showLat, i, lat));
    MulStep(i, lat);
    ring := p;
  }

  /** The loop of Sphere: appends its long + 1 rings to an empty shape. */
  method AddSphereRings(shape: Shape, long: nat, lat: nat, showLat: bool, trig: Trig)
    requires long > 0 && lat > 0
    requires shape.Points == [] && shape.Segments == []
    modifies shape
    ensures |shape.Points| == (long + 1) * lat && Distinct(shape.Points)
    ensures forall j :: 0 <= j < |shape.Points| ==> fresh(shape.Points[j])
    ensures CoordsOf(shape.Points) == SphereCoords(long + 1, long, lat, trig)
    ensures Wired(shape.Points, shape.Segments, ShownRings(showLat, long + 1, lat))
  {
    var i := 0;
    while i <= long
      invariant 0 <= i <= long + 1 && |shape.Points| == i * lat && Distinct(shape.Points)
      invariant fresh(shape.Points)
      invariant CoordsOf(shape.Points) == SphereCoords(i, long, lat, trig)
      invariant Wired(shape.Points, shape.Segments, ShownRings(showLat, i, lat))
    {
      ghost var ring := AddSphereRing(shape, i, long, lat, showLat, trig);
      i := i + 1;
    }
  }

  /**
   * Sphere: long + 1 rings of `lat` points from pole to pole, scaled by
   * `radius`.  Ring segments are kept when showLat holds, and longitudinal
   * segments are added when showLong holds.  No rings divides zero by zero
   * in the first angle, and a ring of fewer than one point panics in CirclePath.
   */
  method Sphere(radius: real, long: nat, lat: nat, showLong: bool, showLat: bool, trig: Trig) returns (shape: Shape)
    requires long > 0 && lat > 0
    ensures fresh(shape) && |shape.Points| == (long + 1) * lat && Distinct(shape.Points)
    ensures forall j :: 0 <= j < |shape.Points| ==> fresh(shape.Points[j])
    ensures CoordsOf(shape.Points) == SpherePoints(radius, long, lat, trig)
    ensures Wired(shape.Points, shape.Segments,
      (ShownRings(showLat, long + 1, lat)) + (if showLong then LongPairs(long, lat) else []))
  {
    shape := new Shape();
    AddSphereRings(shape, long, lat, showLat, trig);
    if showLong {
      MulStep(long, lat);
      AddLongSegments(shape, long, lat, ShownRings(showLat, long + 1, lat));
    }
    shape.Transform(Op.UniScale(radius));
  }

  /** Scaling by k multiplies the squared norm by k * k. */
  lemma UniScaleNormSq(v: Vec3, k: real)
    ensures NormSq(Apply(Op.UniScale(k), v)) == k * k * NormSq(v)
  {
    assert (v.x * k) * (v.x * k) == k * k * (v.x * v.x);
    assert (v.y * k) * (v.y * k) == k * k * (v.y * v.y);
    assert (v.z * k) * (v.z * k) == k * k * (v.z * v.z);
  }

  /** Before scaling, every point of ring i of Sphere lies on the unit sphere. */
  lemma SphereRingOnUnitSphere(i: nat, long: nat, lat: nat, trig: Trig)
    requires long > 0 && lat > 0 && UnitCircle(trig)
    ensures forall j :: 0 <= j < lat ==> NormSq(SphereRing(i, long, lat, trig)[j]) == 1.0
  {
    var a := SphereAngle(i, long);
    var sa, ca := trig.sin(a), trig.cos(a);
    assert sa * sa + ca * ca == 1.0;
    var ring := SphereRing(i, long, lat, trig);
    forall j | 0 <= j < lat ensures NormSq(ring[j]) == 1.0 {
      var t := CircleAngle(j, lat);
      var c, s := trig.cos(t), trig.sin(t);
      assert c * c + s * s == 1.0;
      assert ring[j] == Vec3(c * sa, 0.0 + ca, s * sa);
      calc {
        NormSq(Vec3(c * sa, 0.0 + ca, s * sa));
        (c * sa) * (c * sa) + ca * ca + (s * sa) * (s * sa);
        { assert (c * sa) * (c * sa) + (s * sa) * (s * sa) == (c * c + s * s) * (sa * sa); }
        (c * c + s * s) * (sa * sa) + ca * ca;
        1.0;
      }
    }
  }

  /** Before scaling, every point of the first n rings of Sphere lies on the unit sphere. */
  lemma {:induction false} SphereCoordsOnUnitSphere(n: nat, long: nat, lat: nat, trig: Trig)
    requires long > 0 && lat > 0 && UnitCircle(trig)
    ensures forall k :: 0 <= k < n * lat ==> NormSq(SphereCoords(n, long, lat, trig)[k]) == 1.0
  {
    if n > 0 {
      SphereCoordsOnUnitSphere(n - 1, long, lat, trig);
      SphereRingOnUnitSphere(n - 1, long, lat, trig);
      MulStep(n - 1, lat);
      var prev, ring := SphereCoords(n - 1, long, lat, trig), SphereRing(n - 1, long, lat, trig);
      assert SphereCoords(n, long, lat, trig) == prev + ring;
      forall k | 0 <= k < n * lat ensures NormSq((prev + ring)[k]) == 1.0 {
        if k >= |prev| {
          assert (prev + ring)[k] == ring[k - |prev|];
        }
      }
    }
  }

  /** With a cosine and sine on the unit circle, every Sphere point lies at distance |radius| from the centre. */
  lemma SpherePointsOnSphere(radius: real, long: nat, lat: nat, trig: Trig)
    requires long > 0 && lat > 0 && UnitCircle(trig)
    ensures forall k :: 0 <= k < |SpherePoints(radius, long, lat, trig)| ==>
      NormSq(SpherePoints(radius, long, lat, trig)[k]) == radius * radius
  {
    var coords := SphereCoords(long + 1, long, lat, trig);
    SphereCoordsOnUnitSphere(long + 1, long, lat, trig);
    forall k | 0 <= k < (long + 1) * lat
      ensures NormSq(ApplyAll(Op.UniScale(radius), coords)[k]) == radius * radius
    {
      UniScaleNormSq(coords[k], radius);
    }
  }

  /** The angle ring i of Torus is turned about the y-axis: `arc` split evenly over the slices. */
  function TorusAngle(i: nat, slices: nat, arc: real): real
    requires slices > 0
  {
    (i as real) / (slices as real) * arc
  }

  /**
   * Ring i of Torus: the tube circle of radius r2 stood upright by a quarter
   * turn about the x-axis, moved out by r1, then turned about the y-axis.
   */
  function TorusRing(i: nat, r1: real, r2: real, arc: real, slices: nat, res: nat, trig: Trig): (r: seq<Vec3>)
    requires slices > 0
    ensures |r| == res
  {
    var angle := TorusAngle(i, slices, arc);
    ApplyAll(Op.RotateY(trig.cos(angle), trig.sin(angle)),
      ApplyAll(Op.TranslateX(r1),
        ApplyAll(Op.RotateX(trig.cos(Pi / 2.0), trig.sin(Pi / 2.0)), CircleCoords(r2, res, trig))))
  }

  /** The points of the first n rings of Torus. */
  function TorusCoords(n: nat, r1: real, r2: real, arc: real, slices: nat, res: nat, trig: Trig): (r: seq<Vec3>)
    requires slices > 0
    ensures |r| == n * res
  {
    if n == 0 then []
    else
      MulStep(n - 1, res);
      TorusCoords(n - 1, r1, r2, arc, slices, res, trig) + TorusRing(n - 1, r1, r2, arc, slices, res, trig)
  }

  /** The body of Torus's loop: ring i made by CirclePath and moved into place. */
  method TorusRingPoints(i: nat, r1: real, r2: real, arc: real, slices: nat, res: nat, trig: Trig)
    returns (p: seq<Point>, s: seq<Segment>)
    requires slices > 0 && res > 0
    ensures |p| == res && Distinct(p) && forall j :: 0 <= j < res ==> fresh(p[j])
    ensures CoordsOf(p) == TorusRing(i, r1, r2, arc, slices, res, trig)
    ensures Wired(p, s, LoopPairs(res))
  {
    var angle := (i as real) / (slices as real) * arc;
    p, s := CirclePath(r2, res, trig);
    ghost var circle := CoordsOf(p);
    TransformAll(p, Op.RotateX(trig.cos(Pi / 2.0), trig.sin(Pi / 2.0)));
    ghost var upright := CoordsOf(p);
    TransformAll(p, Op.TranslateX(r1));
    ghost var moved := CoordsOf(p);
    TransformAll(p, Op.RotateY(trig.cos(angle), trig.sin(angle)));
    assert CoordsOf(p) == ApplyAll(Op.RotateY(trig.cos(angle), trig.sin(angle)), moved);
  }

  /** One pass of Torus's loop: ring i appended after rings 0 .. i - 1. */
  method AddTorusRing(shape: Shape, i: nat, r1: real, r2: real, arc: real, slices: nat, res: nat, showSlices: bool, trig: Trig)
    returns (ghost ring: seq<Point>)
    requires slices > 0 && res > 0
    requires |shape.Points| == i * res && Distinct(shape.Points)
    requires CoordsOf(shape.Points) == TorusCoords(i, r1, r2, arc, slices, res, trig)
    requires Wired(shape.Points, shape.Segments, ShownRings(showSlices, i, res))
    modifies shape
    ensures shape.Points == old(shape.Points) + ring && fresh(ring)
    ensures |shape.Points| == (i + 1) * res && Distinct(shape.Points)
    ensures CoordsOf(shape.Points) == TorusCoords(i + 1, r1, r2, arc, slices, res, trig)
    ensures Wired(shape.Points, shape.Segments, ShownRings(showSlices, i + 1, res))
  {
    var p, s := TorusRingPoints(i, r1, r2, arc, slices, res, trig);
    AppendRing(shape, p, s, showSlices, ShownRings(showSlices, i, res));
    MulStep(i, res);
    ring := p;
  }

  /** The loop of Torus: appends its `slices` rings to an empty shape. */
  method AddTorusRings(shape: Shape, r1: real, r2: real, arc: real, slices: nat, res: nat, showSlices: bool, trig: Trig)
    requires slices > 0 && res > 0
    requires shape.Points == [] && shape.Segments == []
    modifies shape
    ensures |shape.Points| == slices * res && Distinct(shape.Points)
    ensures forall j :: 0 <= j < |shape.Points| ==> fresh(shape.Points[j])
    ensures CoordsOf(shape.Points) == TorusCoords(slices, r1, r2, arc, slices, res, trig)
    ensures Wired(shape.Points, shape.Segments, ShownRings(showSlices, slices, res))
  {
    var i := 0;
    while i < slices
      invariant 0 <= i <= slices && |shape.Points| == i * res && Distinct(shape.Points)
      invariant fresh(shape.Points)
      invariant CoordsOf(shape.Points) == TorusCoords(i, r1, r2, arc, slices, res, trig)
      invariant Wired(shape.Points, shape.Segments, ShownRings(showSlices, i, res))
    {
      ghost var ring := AddTorusRing(shape, i, r1, r2, arc, slices, res, showSlices, trig);
      i := i + 1;
    }
  }

  /** The closing segments of a full Torus: point j of the last ring joined to point j of the first. */
  method AddClosingSegments(shape: Shape, slices: nat, res: nat, ghost wired: seq<(int, int)>)
    requires slices >= 1 && slices * res <= |shape.Points| && Wired(shape.Points, shape.Segments, wired)
    modifies shape
    ensures shape.Points == old(shape.Points)
    ensures Wired(shape.Points, shape.Segments, wired + ClosingPairs(slices, res))
  {
    var i := slices - 1;
    var j := 0;
    while j < res
      invariant 0 <= j <= res && shape.Points == old(shape.Points)
      invariant Wired(shape.Points, shape.Segments, wired + ClosingPairs(slices, res)[..j])
    {
      var index0 := i * res + j;
      var index1 := j;
      RingBounds(i, j, res, slices);
      ghost var pairs, segs := wired + ClosingPairs(slices, res)[..j], shape.Segments;
      shape.AddSegmentByIndex(index0, index1);
      WiredSnoc(shape.Points, segs, pairs, index0, index1);
      assert ClosingPairs(slices, res)[..j + 1] == ClosingPairs(slices, res)[..j] + [(index0, index1)];
      assert wired + ClosingPairs(slices, res)[..j + 1] == pairs + [(index0, index1)];
      j := j + 1;
    }
    assert ClosingPairs(slices, res)[..res] == ClosingPairs(slices, res);
  }

  /**
   * Torus: `slices` rings of `res` points spread over the angle `arc`.  Ring
   * segments are kept when showSlices holds; when showLong holds,
   * longitudinal segments are added, and for an arc of a full turn or more
   * the last ring is also joined back to the first.  With no slices but a
   * full arc, the closing loop would index ring -1, which panics.
   */
  method Torus(r1: real, r2: real, arc: real, slices: nat, res: nat, showSlices: bool, showLong: bool, trig: Trig)
    returns (shape: Shape)
    requires slices > 0 ==> res > 0
    requires showLong && arc >= Tau && slices == 0 ==> res == 0
    ensures fresh(shape) && |shape.Points| == slices * res && Distinct(shape.Points)
    ensures forall j :: 0 <= j < |shape.Points| ==> fresh(shape.Points[j])
    ensures slices > 0 ==> CoordsOf(shape.Points) == TorusCoords(slices, r1, r2, arc, slices, res, trig)
    ensures Wired(shape.Points, shape.Segments,
      (ShownRings(showSlices, slices, res))
      + (if showLong && slices > 0 then LongPairs(slices - 1, res) else [])
      + (if showLong && arc >= Tau && slices > 0 then ClosingPairs(slices, res) else []))
  {
    shape := new Shape();
    if slices > 0 {
      AddTorusRings(shape, r1, r2, arc, slices, res, showSlices, trig);
    }
    ghost var wired := ShownRings(showSlices, slices, res);
    if showLong && slices > 0 {
      AddLongSegments(shape, slices - 1, res, wired);
      wired := wired + LongPairs(slices - 1, res);
      if arc >= Tau {
        AddClosingSegments(shape, slices, res, wired);
      }
    }
  }

  /** Row x of GridPlane's points, appended in order of z. */
  method AddGridLine(shape: Shape, x: nat, cols: nat)
    requires Distinct(shape.Points)
    modifies shape
    ensures |shape.Points| == |old(shape.Points)| + cols + 1 && Distinct(shape.Points)
    ensures shape.Points[..|old(shape.Points)|] == old(shape.Points) && shape.Segments == old(shape.Segments)
    ensures forall j :: |old(shape.Points)| <= j < |shape.Points| ==> fresh(shape.Points[j])
    ensures CoordsOf(shape.Points) == old(CoordsOf(shape.Points)) + GridLine(x, cols)
  {
    ghost var start := CoordsOf(shape.Points);
    var z := 0;
    while z <= cols
      invariant 0 <= z <= cols + 1
      invariant |shape.Points| == |old(shape.Points)| + z && Distinct(shape.Points)
      invariant shape.Points[..|old(shape.Points)|] == old(shape.Points) && shape.Segments == old(shape.Segments)
      invariant forall j :: |old(shape.Points)| <= j < |shape.Points| ==> fresh(shape.Points[j])
      invariant CoordsOf(shape.Points) == start + GridLine(x, cols)[..z]
    {
      AddVertex(shape, Vec3(x as real, 0.0, z as real));
      assert GridLine(x, cols)[..z + 1] == GridLine(x, cols)[..z] + [Vec3(x as real, 0.0, z as real)];
      z := z + 1;
    }
  }

  /** The first loop of GridPlane: the (rows + 1) * (cols + 1) grid points, row by row. */
  method AddGridPoints(shape: Shape, rows: nat, cols: nat)
    requires shape.Points == [] && shape.Segments == []
    modifies shape
    ensures |shape.Points| == (rows + 1) * (cols + 1) && Distinct(shape.Points) && shape.Segments == []
    ensures forall j :: 0 <= j < |shape.Points| ==> fresh(shape.Points[j])
    ensures CoordsOf(shape.Points) == GridCoords(rows + 1, cols)
  {
    var x := 0;
    while x <= rows
      invariant 0 <= x <= rows + 1 && |shape.Points| == x * (cols + 1) && Distinct(shape.Points)
      invariant shape.Segments == []
      invariant forall j :: 0 <= j < |shape.Points| ==> fresh(shape.Points[j])
      invariant CoordsOf(shape.Points) == GridCoords(x, cols)
    {
      AddGridLine(shape, x, cols);
      MulStep(x, cols + 1);
      x := x + 1;
    }
  }

  /** One pass of GridPlane's inner loop, as written: the segments of grid position (x, z). */
  method AddGridCellSegments(shape: Shape, x: nat, z: nat, rows: nat, cols: nat, ghost wired: seq<(int, int)>)
    requires x <= rows && z <= cols
    requires |shape.Points| == (rows + 1) * (cols + 1) && Wired(shape.Points, shape.Segments, wired)
    modifies shape
    ensures shape.Points == old(shape.Points)
    ensures Wired(shape.Points, shape.Segments, wired + GridCell(x, z, rows, cols, 1, rows + 1))
  {
    var index := x + z * (rows + 1);
    GridCellInRange(x, z, rows, cols);
    ghost var down := if x < rows then [(index, index + 1)] else [];
    ghost var across := if z < cols then [(index, index + rows + 1)] else [];
    assert GridCell(x, z, rows, cols, 1, rows + 1) == down + across by {
      assert x * 1 + z * (rows + 1) == index;
    }
    if x < rows {
      shape.AddSegmentByIndex(index, index + 1);
    }
    assert Wired(shape.Points, shape.Segments, wired + down);
    if z < cols {
      assert (down + across)[|down|] == (index, index + rows + 1);
      shape.AddSegmentByIndex(index, index + rows + 1);
    }
    assert wired + down + across == wired + GridCell(x, z, rows, cols, 1, rows + 1);
  }

  /** GridPlane's inner loop: the cells of row x, for z = 0 .. cols. */
  method AddGridRowSegments(shape: Shape, x: nat, rows: nat, cols: nat, ghost wired: seq<(int, int)>)
    requires x <= rows
    requires |shape.Points| == (rows + 1) * (cols + 1) && Wired(shape.Points, shape.Segments, wired)
    modifies shape
    ensures shape.Points == old(shape.Points)
    ensures Wired(shape.Points, shape.Segments, wired + GridRow(x, cols + 1, rows, cols, 1, rows + 1))
  {
    var z := 0;
    while z <= cols
      invariant 0 <= z <= cols + 1 && shape.Points == old(shape.Points)
      invariant Wired(shape.Points, shape.Segments, wired + GridRow(x, z, rows, cols, 1, rows + 1))
    {
      AddGridCellSegments(shape, x, z, rows, cols, wired + GridRow(x, z, rows, cols, 1, rows + 1));
      assert wired + GridRow(x, z + 1, rows, cols, 1, rows + 1) ==
        wired + GridRow(x, z, rows, cols, 1, rows + 1) + GridCell(x, z, rows, cols, 1, rows + 1);
      z := z + 1;
    }
  }

  /** The second loop of GridPlane, as written: the segments of every grid position. */
  method AddGridSegments(shape: Shape, rows: nat, cols: nat)
    requires |shape.Points| == (rows + 1) * (cols + 1) && shape.Segments == []
    modifies shape
    ensures shape.Points == old(shape.Points)
    ensures Wired(shape.Points, shape.Segments, GridPairs(rows, cols))
  {
    var x := 0;
    while x <= rows
      invariant 0 <= x <= rows + 1 && shape.Points == old(shape.Points)
      invariant Wired(shape.Points, shape.Segments, GridRows(x, rows, cols, 1, rows + 1))
    {
      AddGridRowSegments(shape, x, rows, cols, GridRows(x, rows, cols, 1, rows + 1));
      assert GridRows(x + 1, rows, cols, 1, rows + 1) ==
        GridRows(x, rows, cols, 1, rows + 1) + GridRow(x, cols + 1, rows, cols, 1, rows + 1);
      x := x + 1;
    }
  }

  /** GridPlane's points after its two transforms: scaled to w by d, then centred on the origin. */
  function GridPlanePoints(w: real, d: real, rows: nat, cols: nat): (r: seq<Vec3>)
    requires rows > 0 && cols > 0
    ensures |r| == (rows + 1) * (cols + 1)
  {
    ApplyAll(Op.Translate(-w / 2.0, 0.0, -d / 2.0),
      ApplyAll(Op.Scale(w / (rows as real), 1.0, d / (cols as real)), GridCoords(rows + 1, cols)))
  }

  /** The end of GridPlane: the unit grid scaled to w by d, then moved so its centre is the origin. */
  method PlaceGrid(shape: Shape, w: real, d: real, rows: nat, cols: nat)
    requires rows > 0 && cols > 0 && Distinct(shape.Points)
    requires CoordsOf(shape.Points) == GridCoords(rows + 1, cols)
    modifies shape.Points
    ensures CoordsOf(shape.Points) == GridPlanePoints(w, d, rows, cols)
  {
    var scale := Op.Scale(w / (rows as real), 1.0, d / (cols as real));
    shape.Transform(scale);
    shape.Transform(Op.Translate(-w / 2.0, 0.0, -d / 2.0));
  }

  /**
   * GridPlane: a grid of rows + 1 by cols + 1 points over a w by d plane
   * centred on the origin, with segments wired by the strides as written.
   * No rows or no columns divides by zero in the scale.
   */
  method GridPlane(w: real, d: real, rows: nat, cols: nat) returns (shape: Shape)
    requires rows > 0 && cols > 0
    ensures fresh(shape) && |shape.Points| == (rows + 1) * (cols + 1) && Distinct(shape.Points)
    ensures forall j :: 0 <= j < |shape.Points| ==> fresh(shape.Points[j])
    ensures CoordsOf(shape.Points) == GridPlanePoints(w, d, rows, cols)
    ensures Wired(shape.Points, shape.Segments, GridPairs(rows, cols))
  {
    shape := new Shape();
    AddGridPoints(shape, rows, cols);
    AddGridSegments(shape, rows, cols);
    PlaceGrid(shape, w, d, rows, cols);
  }

  /** Linear interpolation from a (at t = 0) to b (at t = 1). */
  function Lerp(t: real, a: real, b: real): real {
    a + (b - a) * t
  }

  /** For c > 0, multiplying both sides by c keeps the order. */
  lemma MulLeCancel(c: real, x: real, y: real)
    requires c > 0.0
    ensures c * x <= c * y <==> x <= y
  {
    if x <= y {
      assert c * y - c * x == c * (y - x);
    } else {
      assert c * x - c * y == c * (x - y);
    }
  }

  /**
   * The turns and steps for which Spring's first loop ends with every point
   * real: negative turns put the end below the first angle, and a positive
   * number of turns needs a step Tau / res that is positive, or infinite
   * when res is zero.
   */
  predicate SpringEnds(turns: real, res: real) {
    turns < 0.0 || (turns > 0.0 && res >= 0.0)
  }

  /**
   * The number of points Spring adds: the angle a = k * Tau / res stays
   * within Tau * turns exactly while k <= turns * res.  Negative turns add
   * none, and a zero res adds the point at angle 0 only, the next angle
   * being +Inf.
   */
  function SpringCount(turns: real, res: real): (n: nat)
    requires SpringEnds(turns, res)
    ensures n == 0 <==> turns < 0.0
    ensures res == 0.0 && turns > 0.0 ==> n == 1
  {
    if turns < 0.0 then 0
    else if res == 0.0 then 1
    else
      assert turns * res > 0.0;
      (turns * res).Floor + 1
  }

  /** The angle of Spring's point k after k steps. */
  function SpringAngle(k: nat, res: real): real
    requires res > 0.0
  {
    (k as real) * (Tau / res)
  }

  /** Step k is still within the total angle exactly when k is below SpringCount. */
  lemma SpringStepBound(k: nat, turns: real, res: real)
    requires turns > 0.0 && res > 0.0
    ensures SpringAngle(k, res) <= Tau * turns <==> k < SpringCount(turns, res)
  {
    assert SpringCount(turns, res) == (turns * res).Floor + 1;
    var q := (k as real) / res;
    assert SpringAngle(k, res) == Tau * q;
    MulLeCancel(Tau, q, turns);
    assert q * res == k as real;
    MulLeCancel(res, q, turns);
    assert res * q == k as real && res * turns == turns * res;
  }

  /** The point of the spiral at angle a: its radius runs from r0 to r1 while its height falls from height/2 to -height/2. */
  function SpringPointAt(a: real, height: real, r0: real, r1: real, totalAngle: real, trig: Trig): Vec3
    requires totalAngle != 0.0
  {
    var t := a / totalAngle;
    var radius := Lerp(t, r0, r1);
    Vec3(trig.cos(a) * radius, Lerp(t, height / 2.0, -height / 2.0), trig.sin(a) * radius)
  }

  /** Spring's point k, at angle SpringAngle(k, res). */
  function SpringPoint(k: nat, height: real, r0: real, r1: real, turns: real, res: real, trig: Trig): Vec3
    requires turns > 0.0 && res > 0.0
  {
    SpringPointAt(SpringAngle(k, res), height, r0, r1, Tau * turns, trig)
  }

  lemma SpringAngleNext(k: nat, res: real)
    requires res > 0.0
    ensures SpringAngle(k + 1, res) == SpringAngle(k, res) + Tau / res
  {
  }

  function SpringCoords(n: nat, height: real, r0: real, r1: real, turns: real, res: real, trig: Trig): (r: seq<Vec3>)
    requires turns > 0.0 && res > 0.0
    ensures |r| == n
  {
    seq(n, k requires 0 <= k < n => SpringPoint(k, height, r0, r1, turns, res, trig))
  }


  lemma SpringCoordsSnoc(k: nat, height: real, r0: real, r1: real, turns: real, res: real, trig: Trig)
    requires turns > 0.0 && res > 0.0
    ensures SpringCoords(k + 1, height, r0, r1, turns, res, trig) ==
      SpringCoords(k, height, r0, r1, turns, res, trig) + [SpringPointAt(SpringAngle(k, res), height, r0, r1, Tau * turns, trig)]
  {
    assert SpringCoords(k + 1, height, r0, r1, turns, res, trig)[k] == SpringPoint(k, height, r0, r1, turns, res, trig);
  }

  /** The body of Spring's first loop: the point at angle a added to the shape. */
  method AddSpringPoint(shape: Shape, a: real, height: real, r0: real, r1: real, totalAngle: real, trig: Trig)
    requires totalAngle != 0.0 && Distinct(shape.Points)
    modifies shape
    ensures |shape.Points| == |old(shape.Points)| + 1 && Distinct(shape.Points)
    ensures shape.Points[..|old(shape.Points)|] == old(shape.Points) && shape.Segments == old(shape.Segments)
    ensures fresh(shape.Points[|old(shape.Points)|])
    ensures CoordsOf(shape.Points) == old(CoordsOf(shape.Points)) + [SpringPointAt(a, height, r0, r1, totalAngle, trig)]
  {
    var t := a / totalAngle;
    var radius := Lerp(t, r0, r1);
    var x := trig.cos(a) * radius;
    var y := Lerp(t, height / 2.0, -height / 2.0);
    var z := trig.sin(a) * radius;
    assert Vec3(x, y, z) == SpringPointAt(a, height, r0, r1, totalAngle, trig);
    AddVertex(shape, Vec3(x, y, z));
  }

  /** One pass of Spring's loop: point k appended after points 0 .. k - 1. */
  method AddSpringStep(shape: Shape, ghost k: nat, a: real, height: real, r0: real, r1: real, turns: real, res: real, trig: Trig) returns (ghost pt: Point)
    requires turns > 0.0 && res > 0.0 && a == SpringAngle(k, res)
    requires |shape.Points| == k && Distinct(shape.Points)
    requires CoordsOf(shape.Points) == SpringCoords(k, height, r0, r1, turns, res, trig)
    modifies shape
    ensures |shape.Points| == k + 1 && Distinct(shape.Points) && shape.Segments == old(shape.Segments)
    ensures shape.Points == old(shape.Points) + [pt] && fresh(pt)
    ensures CoordsOf(shape.Points) == SpringCoords(k + 1, height, r0, r1, turns, res, trig)
  {
    AddSpringPoint(shape, a, height, r0, r1, Tau * turns, trig);
    pt := shape.Points[k];
    assert shape.Points == old(shape.Points) + [pt];
    SpringCoordsSnoc(k, height, r0, r1, turns, res, trig);
  }

  /** Spring's first loop: a point every Tau / res of angle while the angle stays within Tau * turns. */
  method AddSpringPoints(shape: Shape, height: real, r0: real, r1: real, turns: real, res: real, trig: Trig)
    requires SpringEnds(turns, res) && shape.Points == [] && shape.Segments == []
    modifies shape
    ensures |shape.Points| == SpringCount(turns, res) && Distinct(shape.Points) && shape.Segments == []
    ensures fresh(shape.Points)
    ensures turns > 0.0 && res > 0.0 ==>
      CoordsOf(shape.Points) == SpringCoords(SpringCount(turns, res), height, r0, r1, turns, res, trig)
    ensures turns > 0.0 && res == 0.0 ==>
      CoordsOf(shape.Points) == [SpringPointAt(0.0, height, r0, r1, Tau * turns, trig)]
  {
    var totalAngle := Tau * turns;
    if turns < 0.0 {
      // The first angle, 0, is already past the negative total.
      assert totalAngle < 0.0;
      return;
    }
    if res == 0.0 {
      // The step Tau / 0 is +Inf: the point at angle 0 is the only one within the total.
      AddSpringPoint(shape, 0.0, height, r0, r1, totalAngle, trig);
      return;
    }
    var a := 0.0;
    ghost var k: nat := 0;
    while a <= totalAngle
      invariant a == SpringAngle(k, res) && k <= SpringCount(turns, res)
      invariant |shape.Points| == k && Distinct(shape.Points) && shape.Segments == []
      invariant fresh(shape.Points)
      invariant CoordsOf(shape.Points) == SpringCoords(k, height, r0, r1, turns, res, trig)
      decreases SpringCount(turns, res) - k
    {
      SpringStepBound(k, turns, res);
      ghost var pt := AddSpringStep(shape, k, a, height, r0, r1, turns, res, trig);
      SpringAngleNext(k, res);
      a := a + Tau / res;
      k := k + 1;
    }
    SpringStepBound(k, turns, res);
  }

  /**
   * Spring: a spiral of SpringCount(turns, res) points, Tau / res apart in
   * angle, joined in one open chain.  Negative turns give an empty shape and
   * a zero res the first point alone.  No turns divides zero by zero in the
   * first point, and a negative step with positive turns never reaches the
   * end, so SpringEnds excludes both.
   */
  method Spring(height: real, r0: real, r1: real, turns: real, res: real, trig: Trig) returns (shape: Shape)
    requires SpringEnds(turns, res)
    ensures fresh(shape) && |shape.Points| == SpringCount(turns, res) && Distinct(shape.Points)
    ensures forall j :: 0 <= j < |shape.Points| ==> fresh(shape.Points[j])
    ensures turns > 0.0 && res > 0.0 ==>
      CoordsOf(shape.Points) == SpringCoords(SpringCount(turns, res), height, r0, r1, turns, res, trig)
    ensures turns > 0.0 && res == 0.0 ==>
      CoordsOf(shape.Points) == [SpringPointAt(0.0, height, r0, r1, Tau * turns, trig)]
    ensures Wired(shape.Points, shape.Segments, ChainPairs(SpringCount(turns, res)))
  {
    shape := new Shape();
    AddSpringPoints(shape, height, r0, r1, turns, res, trig);
    var n := |shape.Points|;
    AddSegmentsByIndex(shape, ChainPairs(n), []);
    assert [] + ChainPairs(n) == ChainPairs(n);
  }

  /** For 0 <= a1 <= a2 <= total, the fractions a1 / total <= a2 / total lie in [0, 1]. */
  lemma FractionsInUnit(a1: real, a2: real, total: real)
    requires 0.0 <= a1 <= a2 <= total && total > 0.0
    ensures 0.0 <= a1 / total <= a2 / total <= 1.0
  {
    var t1, t2 := a1 / total, a2 / total;
    assert t1 * total == a1 && t2 * total == a2;
    MulLeCancel(total, t1, t2);
    MulLeCancel(total, t2, 1.0);
    MulLeCancel(total, 0.0, t1);
  }

  /** Multiplying by c <= 0 reverses the order. */
  lemma MulLeNeg(c: real, x: real, y: real)
    requires c <= 0.0 && x <= y
    ensures c * y <= c * x
  {
    assert c * x - c * y == c * (x - y);
  }

  /** Interpolating downwards from a to b: a later t gives a value no higher. */
  lemma LerpMono(t1: real, t2: real, a: real, b: real)
    requires t1 <= t2 && b <= a
    ensures Lerp(t2, a, b) <= Lerp(t1, a, b)
  {
    MulLeNeg(b - a, t1, t2);
  }

  /** Interpolating downwards from a to b: a later t gives a value no higher, and all stay within [b, a]. */
  lemma LerpFalls(t1: real, t2: real, a: real, b: real)
    requires 0.0 <= t1 <= t2 <= 1.0 && b <= a
    ensures b <= Lerp(t2, a, b) <= Lerp(t1, a, b) <= a
  {
    LerpMono(t1, t2, a, b);
    LerpMono(0.0, t1, a, b);
    LerpMono(t2, 1.0, a, b);
    assert Lerp(0.0, a, b) == a && Lerp(1.0, a, b) == b;
  }


  /**
   * Spring runs from height/2 down towards -height/2 without leaving that
   * band: the first point is at height/2, and for height >= 0 every later
   * point lies no higher than an earlier one.
   */
  lemma SpringFalls(height: real, r0: real, r1: real, turns: real, res: real, trig: Trig, k1: nat, k2: nat)
    requires turns > 0.0 && res > 0.0 && height >= 0.0 && k1 <= k2 < SpringCount(turns, res)
    ensures SpringPoint(0, height, r0, r1, turns, res, trig).y == height / 2.0
    ensures -height / 2.0 <= SpringPoint(k2, height, r0, r1, turns, res, trig).y
      <= SpringPoint(k1, height, r0, r1, turns, res, trig).y <= height / 2.0
  {
    SpringStepBound(k2, turns, res);
    var total := Tau * turns;
    var a1, a2 := SpringAngle(k1, res), SpringAngle(k2, res);
    assert 0.0 <= a1 <= a2 by {
      MulLeCancel(Tau / res, k1 as real, k2 as real);
    }
    FractionsInUnit(a1, a2, total);
    LerpFalls(a1 / total, a2 / total, height / 2.0, -height / 2.0);
    LerpFalls(0.0, 0.0, height / 2.0, -height / 2.0);
  }

  /** The number of points TorusKnot adds: the parameter t = k * res stays below Tau exactly while k < KnotCount. */
  function KnotCount(res: real): (n: nat)
    requires res > 0.0
    ensures n >= 1
  {
    assert Tau / res > 0.0;
    -((-(Tau / res)).Floor)
  }

  /** The parameter after k steps of `res`, summed step by step as TorusKnot's loop sums it. */
  function KnotTime(k: nat, res: real): real {
    if k == 0 then 0.0 else KnotTime(k - 1, res) + res
  }

  /** The summed parameter is k * res. */
  lemma {:induction false} KnotTimeProduct(k: nat, res: real)
    ensures KnotTime(k, res) == (k as real) * res
  {
    if k > 0 {
      KnotTimeProduct(k - 1, res);
    }
  }

  /** The loop runs while the parameter is below Tau: exactly for the first KnotCount(res) steps. */
  lemma KnotStepBound(k: nat, res: real)
    requires res > 0.0
    ensures KnotTime(k, res) < Tau <==> k < KnotCount(res)
  {
    KnotTimeProduct(k, res);
    var q, kr := Tau / res, k as real;
    assert res * q == Tau;
    assert res * kr == kr * res;
    MulLeCancel(res, q, kr);
    assert KnotTime(k, res) < Tau <==> kr < q;
  }

  /** The point of the (p, q) knot on the torus of radii r1 and r2 at parameter t. */
  function KnotPointAt(t: real, p: real, q: real, r1: real, r2: real, trig: Trig): Vec3
    requires r2 != 0.0
  {
    var r := trig.cos(q * t) + r1 / r2;
    var x := r * trig.cos(p * t);
    var y := -trig.sin(q * t);
    var z := r * trig.sin(p * t);
    Vec3(x * r2, y * r2, z * r2)
  }

  /** TorusKnot's point k, at the parameter reached after k steps. */
  function KnotPoint(k: nat, p: real, q: real, r1: real, r2: real, res: real, trig: Trig): Vec3
    requires r2 != 0.0
  {
    KnotPointAt(KnotTime(k, res), p, q, r1, r2, trig)
  }

  function KnotCoords(n: nat, p: real, q: real, r1: real, r2: real, res: real, trig: Trig): (r: seq<Vec3>)
    requires r2 != 0.0
    ensures |r| == n
  {
    seq(n, k requires 0 <= k < n => KnotPoint(k, p, q, r1, r2, res, trig))
  }

  lemma KnotCoordsSnoc(k: nat, p: real, q: real, r1: real, r2: real, res: real, trig: Trig)
    requires r2 != 0.0
    ensures KnotCoords(k + 1, p, q, r1, r2, res, trig) ==
      KnotCoords(k, p, q, r1, r2, res, trig) + [KnotPointAt(KnotTime(k, res), p, q, r1, r2, trig)]
  {
    assert KnotCoords(k + 1, p, q, r1, r2, res, trig)[k] == KnotPoint(k, p, q, r1, r2, res, trig);
  }

  /** The body of TorusKnot's loop: the point at parameter t added to the shape. */
  method AddKnotPoint(shape: Shape, t: real, p: real, q: real, r1: real, r2: real, trig: Trig)
    requires r2 != 0.0 && Distinct(shape.Points)
    modifies shape
    ensures |shape.Points| == |old(shape.Points)| + 1 && Distinct(shape.Points)
    ensures shape.Points[..|old(shape.Points)|] == old(shape.Points) && shape.Segments == old(shape.Segments)
    ensures fresh(shape.Points[|old(shape.Points)|])
    ensures CoordsOf(shape.Points) == old(CoordsOf(shape.Points)) + [KnotPointAt(t, p, q, r1, r2, trig)]
  {
    var r := trig.cos(q * t) + r1 / r2;
    var x := r * trig.cos(p * t);
    var y := -trig.sin(q * t);
    var z := r * trig.sin(p * t);
    assert Vec3(x * r2, y * r2, z * r2) == KnotPointAt(t, p, q, r1, r2, trig);
    AddVertex(shape, Vec3(x * r2, y * r2, z * r2));
  }

  /** One pass of TorusKnot's loop: point k appended after points 0 .. k - 1. */
  method AddKnotStep(shape: Shape, ghost k: nat, t: real, p: real, q: real, r1: real, r2: real, res: real, trig: Trig) returns (ghost pt: Point)
    requires r2 != 0.0 && t == KnotTime(k, res)
    requires |shape.Points| == k && Distinct(shape.Points)
    requires CoordsOf(shape.Points) == KnotCoords(k, p, q, r1, r2, res, trig)
    modifies shape
    ensures |shape.Points| == k + 1 && Distinct(shape.Points) && shape.Segments == old(shape.Segments)
    ensures shape.Points == old(shape.Points) + [pt] && fresh(pt)
    ensures CoordsOf(shape.Points) == KnotCoords(k + 1, p, q, r1, r2, res, trig)
  {
    AddKnotPoint(shape, t, p, q, r1, r2, trig);
    pt := shape.Points[k];
    assert shape.Points == old(shape.Points) + [pt];
    KnotCoordsSnoc(k, p, q, r1, r2, res, trig);
  }

  /** TorusKnot's first loop: a point at every step of res in t while t stays below Tau. */
  method AddKnotPoints(shape: Shape, p: real, q: real, r1: real, r2: real, res: real, trig: Trig)
    requires res > 0.0 && r2 != 0.0 && shape.Points == [] && shape.Segments == []
    modifies shape
    ensures |shape.Points| == KnotCount(res) && Distinct(shape.Points) && shape.Segments == []
    ensures fresh(shape.Points)
    ensures CoordsOf(shape.Points) == KnotCoords(KnotCount(res), p, q, r1, r2, res, trig)
  {
    var t := 0.0;
    ghost var k: nat := 0;
    while t < Tau
      invariant t == KnotTime(k, res) && k <= KnotCount(res)
      invariant |shape.Points| == k && Distinct(shape.Points) && shape.Segments == []
      invariant fresh(shape.Points)
      invariant CoordsOf(shape.Points) == KnotCoords(k, p, q, r1, r2, res, trig)
      decreases KnotCount(res) - k
    {
      KnotStepBound(k, res);
      ghost var pt := AddKnotStep(shape, k, t, p, q, r1, r2, res, trig);
      t := t + res;
      k := k + 1;
    }
    KnotStepBound(k, res);
  }

  /**
   * TorusKnot: KnotCount(res) points along the knot, joined in one closed
   * loop.  A step that is not positive never reaches Tau, and r2 = 0
   * divides by zero.
   */
  method TorusKnot(p: real, q: real, r1: real, r2: real, res: real, trig: Trig) returns (shape: Shape)
    requires res > 0.0 && r2 != 0.0
    ensures fresh(shape) && |shape.Points| == KnotCount(res) && Distinct(shape.Points)
    ensures forall j :: 0 <= j < |shape.Points| ==> fresh(shape.Points[j])
    ensures CoordsOf(shape.Points) == KnotCoords(KnotCount(res), p, q, r1, r2, res, trig)
    ensures Wired(shape.Points, shape.Segments, LoopPairs(KnotCount(res)))
  {
    shape := new Shape();
    AddKnotPoints(shape, p, q, r1, r2, res, trig);
    var n := |shape.Points|;
    AddSegmentsByIndex(shape, LoopPairs(n), []);
    assert [] + LoopPairs(n) == LoopPairs(n);
  }
}
