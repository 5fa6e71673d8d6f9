/**
 * The path-based Shape of the root package (shape.go): a list of paths of
 * shared points plus the flag saying whether each path is drawn closed.
 *
 * The random samplers behind AddRandom* are not computed here: each takes
 * the coordinates the sampler returned, constrained to the region that
 * sampler draws from.
 */
module PathShapes {
  import opened Geometry
  import opened Points
  import opened PointLists
  import opened PathSeqs

  class Shape {
    var Paths: seq<seq<Point>>
    var Closed: bool

    /** NewShape: `numPaths` empty paths and the given closed flag. */
    constructor (numPaths: nat, closed: bool)
      ensures |Paths| == numPaths && forall i :: 0 <= i < numPaths ==> Paths[i] == []
      ensures Closed == closed
    {
      Paths := seq(numPaths, _ => []);
      Closed := closed;
    }

    /** Appends `path` itself, sharing its points, as the last path. */
    method Add(path: seq<Point>)
      modifies this
      ensures Paths == old(Paths) + [path] && Closed == old(Closed)
    {
      Paths := Paths + [path];
    }

    /** Appends `point` itself to the end of path `index`; an index out of range is fatal. */
    method AddPoint(index: int, point: Point)
      requires 0 <= index < |Paths|
      modifies this
      ensures Paths == old(Paths)[index := old(Paths)[index] + [point]] && Closed == old(Closed)
    {
      Paths := Paths[index := Paths[index] + [point]];
    }

    /** Appends a new point at (x, y, z) to the end of path `index`; an index out of range is fatal. */
    method AddXYZ(index: int, x: real, y: real, z: real)
      requires 0 <= index < |Paths|
      modifies this
      ensures AppendedNew(old(Paths), Paths, index, Vec3(x, y, z)) && Closed == old(Closed)
      ensures fresh(Paths[index][|old(Paths)[index]|])
    {
      var p := new Point(x, y, z);
      AddPoint(index, p);
    }

    /** AddRandomPointInBox, given the draws: each coordinate within half the box's size. */
    method AddRandomPointInBox(index: int, w: real, h: real, d: real, x: real, y: real, z: real)
      requires 0 <= index < |Paths|
      requires IsDraw(x, w / 2.0) && IsDraw(y, h / 2.0) && IsDraw(z, d / 2.0)
      modifies this
      ensures AppendedNew(old(Paths), Paths, index, Vec3(x, y, z)) && Closed == old(Closed)
      ensures fresh(Paths[index][|old(Paths)[index]|])
    {
      var p := new Point(x, y, z);
      AddPoint(index, p);
    }

    /** AddRandomPointOnSphere, given the sampled point: on the sphere about the origin. */
    method AddRandomPointOnSphere(index: int, radius: real, x: real, y: real, z: real)
      requires 0 <= index < |Paths|
      requires NormSq(Vec3(x, y, z)) == radius * radius
      modifies this
      ensures AppendedNew(old(Paths), Paths, index, Vec3(x, y, z)) && Closed == old(Closed)
      ensures fresh(Paths[index][|old(Paths)[index]|])
    {
      var p := new Point(x, y, z);
      AddPoint(index, p);
    }

    /** AddRandomPointInSphere, given the sampled point: inside the sphere about the origin. */
    method AddRandomPointInSphere(index: int, radius: real, x: real, y: real, z: real)
      requires 0 <= index < |Paths|
      requires NormSq(Vec3(x, y, z)) <= radius * radius
      modifies this
      ensures AppendedNew(old(Paths), Paths, index, Vec3(x, y, z)) && Closed == old(Closed)
      ensures fresh(Paths[index][|old(Paths)[index]|])
    {
      var p := new Point(x, y, z);
      AddPoint(index, p);
    }

    /** AddRandomPointOnCylinder, given the sampled point: on the mantle of a y-axis cylinder. */
    method AddRandomPointOnCylinder(index: int, height: real, radius: real, x: real, y: real, z: real)
      requires 0 <= index < |Paths|
      requires x * x + z * z == radius * radius && IsDraw(y, height / 2.0)
      modifies this
      ensures AppendedNew(old(Paths), Paths, index, Vec3(x, y, z)) && Closed == old(Closed)
      ensures fresh(Paths[index][|old(Paths)[index]|])
    {
      var p := new Point(x, y, z);
      AddPoint(index, p);
    }

    /** AddRandomPointInCylinder, given the sampled point: inside a y-axis cylinder. */
    method AddRandomPointInCylinder(index: int, height: real, radius: real, x: real, y: real, z: real)
      requires 0 <= index < |Paths|
      requires x * x + z * z <= radius * radius && IsDraw(y, height / 2.0)
      modifies this
      ensures AppendedNew(old(Paths), Paths, index, Vec3(x, y, z)) && Closed == old(Closed)
      ensures fresh(Paths[index][|old(Paths)[index]|])
    {
      var p := new Point(x, y, z);
      AddPoint(index, p);
    }

    /** A new shape with the same flag and shape of paths, whose points are all new copies. */
    method Clone() returns (r: Shape)
      ensures fresh(r) && r.Closed == Closed && |r.Paths| == |Paths| && DistinctPaths(r.Paths)
      ensures forall i :: 0 <= i < |Paths| ==> |r.Paths[i]| == |Paths[i]|
      ensures forall i, j :: 0 <= i < |Paths| && 0 <= j < |Paths[i]| ==>
        fresh(r.Paths[i][j]) && r.Paths[i][j].Snap() == Paths[i][j].Snap()
    {
      r := new Shape(0, Closed);
      var copies := ClonePaths(Paths);
      r.Paths := copies;
    }

    /**
     * Every in-place transform except Randomize*: `op` applied once to every
     * point of every path.  The paths and the closed flag do not change.
     */
    method Transform(op: Op)
      requires DistinctPaths(Paths) && op.Drawn()
      modifies Footprint(Paths)
      ensures CoordsOfPaths(Paths) == ApplyAllPaths(op, old(CoordsOfPaths(Paths)))
      ensures forall i, j :: 0 <= i < |Paths| && 0 <= j < |Paths[i]| ==>
        Paths[i][j].Cache() == old(Paths[i][j].Cache())
    {
      ghost var before := CoordsOfPaths(Paths);
      TransformPaths(Paths, RepeatPaths(op, Paths));
      forall i | 0 <= i < |Paths| ensures CoordsOf(Paths[i]) == ApplyAll(op, before[i]) { }
    }

    /** Randomize*: each point gets its own draw, opss[i][j] for Paths[i][j]. */
    method RandomizeEach(opss: seq<seq<Op>>)
      requires DistinctPaths(Paths) && OpsFit(opss, Paths)
      modifies Footprint(Paths)
      ensures forall i, j :: 0 <= i < |Paths| && 0 <= j < |Paths[i]| ==>
        Paths[i][j].Coords() == Apply(opss[i][j], old(Paths[i][j].Coords()))
      ensures forall i, j :: 0 <= i < |Paths| && 0 <= j < |Paths[i]| ==>
        Paths[i][j].Cache() == old(Paths[i][j].Cache())
    {
      TransformPaths(Paths, opss);
    }

    /** Every "...ed" copy except Randomized*: a clone with `op` applied. */
    method Transformed(op: Op) returns (r: Shape)
      requires op.Drawn()
      ensures fresh(r) && r.Closed == Closed && DistinctPaths(r.Paths)
      ensures forall i, j :: 0 <= i < |r.Paths| && 0 <= j < |r.Paths[i]| ==> fresh(r.Paths[i][j])
      ensures CoordsOfPaths(r.Paths) == ApplyAllPaths(op, old(CoordsOfPaths(Paths)))
    {
      r := Clone();
      SameSnapsSameCoords(r.Paths, Paths);
      r.Transform(op);
    }

    /** Randomized*: a clone with each point's own draw applied. */
    method RandomizedEach(opss: seq<seq<Op>>) returns (r: Shape)
      requires OpsFit(opss, Paths)
      ensures fresh(r) && r.Closed == Closed && DistinctPaths(r.Paths) && |r.Paths| == |Paths|
      ensures forall i :: 0 <= i < |Paths| ==> |r.Paths[i]| == |Paths[i]|
      ensures forall i, j :: 0 <= i < |Paths| && 0 <= j < |Paths[i]| ==>
        fresh(r.Paths[i][j]) && r.Paths[i][j].Coords() == Apply(opss[i][j], old(Paths[i][j].Coords()))
    {
      r := Clone();
      r.RandomizeEach(opss);
    }
  }
}
