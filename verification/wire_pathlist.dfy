/**
 * The `wire` package's PathList (wire/pathlist.go): a list of paths, each a
 * PointList of shared wire points.  Go's PathList is a slice of PointList
 * slices; here it is an object whose one field is that sequence of sequences.
 */
module WirePathLists {
  import opened Geometry
  import opened WirePoints
  import opened WirePointLists
  import PathSeqs
  import Worlds

  /** No point object occurs twice anywhere in `paths`, within a path or across two. */
  predicate DistinctPaths(paths: seq<seq<Point>>) {
    forall i, j, k, l ::
      0 <= i < |paths| && 0 <= j < |paths[i]| && 0 <= k < |paths| && 0 <= l < |paths[k]| && (i != k || j != l)
      ==> paths[i][j] != paths[k][l]
  }

  /** Every point object of every path. */
  function Footprint(paths: seq<seq<Point>>): set<Point> {
    set i, j | 0 <= i < |paths| && 0 <= j < |paths[i]| :: paths[i][j]
  }

  /** The coordinates of every point, path by path. */
  function CoordsOfPaths(paths: seq<seq<Point>>): (r: seq<seq<Vec3>>)
    reads Footprint(paths)
    ensures |r| == |paths|
    ensures forall i :: 0 <= i < |paths| ==> r[i] == CoordsOf(paths[i])
  {
    seq(|paths|, i reads Footprint(paths) requires 0 <= i < |paths| =>
      assert forall j :: 0 <= j < |paths[i]| ==> paths[i][j] in Footprint(paths);
      CoordsOf(paths[i]))
  }

  /** One op per point: `opss` has the shape of `paths`, and each op is one a wire point has. */
  predicate OpsFit(opss: seq<seq<Op>>, paths: seq<seq<Point>>) {
    |opss| == |paths| &&
    forall i :: 0 <= i < |paths| ==>
      |opss[i]| == |paths[i]| && forall j :: 0 <= j < |paths[i]| ==> WireOp(opss[i][j]) && opss[i][j].Drawn()
  }

  /** The StrokePath calls of the paths `vss`, one per path, in order. */
  function StrokeCalls(world: Camera, vss: seq<seq<Vec3>>, closed: bool): (r: seq<Worlds.Call>)
    requires forall i :: 0 <= i < |vss| ==> Projectable(world, vss[i])
    ensures |r| == |vss|
    ensures forall i :: 0 <= i < |vss| ==> r[i] == Worlds.Call.StrokePath(ProjectedPath(world, vss[i]), closed)
  {
    seq(|vss|, i requires 0 <= i < |vss| => Worlds.Call.StrokePath(ProjectedPath(world, vss[i]), closed))
  }

  /** Distinct paths share no point: a point of another path is not in path i. */
  lemma OtherPathsOutside(paths: seq<seq<Point>>, i: int)
    requires DistinctPaths(paths) && 0 <= i < |paths|
    ensures Distinct(paths[i])
    ensures forall k, j :: 0 <= k < |paths| && k != i && 0 <= j < |paths[k]| ==> paths[k][j] !in paths[i]
  {
    forall k, j | 0 <= k < |paths| && k != i && 0 <= j < |paths[k]| ensures paths[k][j] !in paths[i] {
      assert forall l :: 0 <= l < |paths[i]| ==> paths[i][l] != paths[k][j];
    }
  }

  /**
   * Applies opss[i][j] to paths[i][j], path by path: the loop of every bulk
   * transform.  Only the listed points move.
   */
  method TransformPaths(paths: seq<seq<Point>>, opss: seq<seq<Op>>)
    requires DistinctPaths(paths) && OpsFit(opss, paths)
    modifies Footprint(paths)
    ensures forall i, j :: 0 <= i < |paths| && 0 <= j < |paths[i]| ==>
      paths[i][j].Coords() == Apply(opss[i][j], old(paths[i][j].Coords()))
  {
    for i := 0 to |paths|
      invariant forall k, j :: 0 <= k < i && 0 <= j < |paths[k]| ==>
        paths[k][j].Coords() == Apply(opss[k][j], old(paths[k][j].Coords()))
      invariant forall k, j :: i <= k < |paths| && 0 <= j < |paths[k]| ==>
        paths[k][j].Coords() == old(paths[k][j].Coords())
    {
      forall j | 0 <= j < |paths[i]| ensures paths[i][j] in Footprint(paths) { }
      OtherPathsOutside(paths, i);
      TransformEach(paths[i], opss[i]);
    }
  }

  /** New copies of every path: the loop of Clone. */
  method ClonePaths(paths: seq<seq<Point>>) returns (r: seq<seq<Point>>)
    ensures |r| == |paths| && DistinctPaths(r)
    ensures forall i :: 0 <= i < |paths| ==> |r[i]| == |paths[i]|
    ensures forall i, j :: 0 <= i < |paths| && 0 <= j < |paths[i]| ==>
      fresh(r[i][j]) && r[i][j].Coords() == paths[i][j].Coords()
  {
    r := [];
    for i := 0 to |paths|
      invariant |r| == i && DistinctPaths(r)
      invariant forall k :: 0 <= k < i ==> |r[k]| == |paths[k]|
      invariant forall k, j :: 0 <= k < i && 0 <= j < |paths[k]| ==>
        fresh(r[k][j]) && r[k][j].Coords() == paths[k][j].Coords()
    {
      var copy := ClonePoints(paths[i]);
      r := r + [copy];
    }
  }

  /** Paths of the same shape whose points pair up with equal coordinates have the same coordinates. */
  lemma SameCoordsPaths(a: seq<seq<Point>>, b: seq<seq<Point>>)
    requires |a| == |b| && forall i :: 0 <= i < |a| ==> |a[i]| == |b[i]|
    requires forall i, j :: 0 <= i < |a| && 0 <= j < |a[i]| ==> a[i][j].Coords() == b[i][j].Coords()
    ensures CoordsOfPaths(a) == CoordsOfPaths(b)
  {
    forall i | 0 <= i < |a| ensures CoordsOf(a[i]) == CoordsOf(b[i]) {
      forall j | 0 <= j < |a[i]| ensures a[i][j].Coords() == b[i][j].Coords() {
      }
    }
  }

  class PathList {
    var paths: seq<seq<Point>>

    /** NewPathList: `size` empty paths. */
    constructor (size: nat)
      ensures |paths| == size && forall i :: 0 <= i < size ==> paths[i] == []
    {
      paths := seq(size, _ => []);
    }

    /** Appends `path` itself, sharing its points, as the last path. */
    method Add(path: seq<Point>)
      modifies this
      ensures paths == old(paths) + [path]
    {
      paths := paths + [path];
    }

    /** Appends `point` itself to the end of path `index`; an index out of range is fatal. */
    method AddPoint(index: int, point: Point)
      requires 0 <= index < |paths|
      modifies this
      ensures paths == old(paths)[index := old(paths)[index] + [point]]
    {
      paths := paths[index := paths[index] + [point]];
    }

    /** Appends a new point at (x, y, z) to the end of path `index`; an index out of range is fatal. */
    method AddXYZ(index: int, x: real, y: real, z: real)
      requires 0 <= index < |paths|
      modifies this
      ensures |paths| == |old(paths)| && forall i :: 0 <= i < |paths| && i != index ==> paths[i] == old(paths)[i]
      ensures |paths[index]| == |old(paths)[index]| + 1 && paths[index][..|old(paths)[index]|] == old(paths)[index]
      ensures fresh(paths[index][|old(paths)[index]|]) && paths[index][|old(paths)[index]|].Coords() == Vec3(x, y, z)
    {
      var p := new Point(x, y, z);
      AddPoint(index, p);
    }

    /** A new path list with the same shape whose points are all new copies. */
    method Clone() returns (r: PathList)
      ensures fresh(r) && |r.paths| == |paths| && DistinctPaths(r.paths)
      ensures forall i :: 0 <= i < |paths| ==> |r.paths[i]| == |paths[i]|
      ensures forall i, j :: 0 <= i < |paths| && 0 <= j < |paths[i]| ==>
        fresh(r.paths[i][j]) && r.paths[i][j].Coords() == paths[i][j].Coords()
    {
      r := new PathList(0);
      var copies := ClonePaths(paths);
      r.paths := copies;
    }

    /** Strokes every path in order, each with one StrokePath call and the same closed flag. */
    method Stroke(context: Worlds.Context, closed: bool, world: Camera)
      requires forall i :: 0 <= i < |paths| ==> Projectable(world, CoordsOf(paths[i]))
      modifies context
      ensures context.calls == old(context.calls) + StrokeCalls(world, CoordsOfPaths(paths), closed)
      ensures context.lineWidth == old(context.lineWidth)
    {
      ghost var vss := CoordsOfPaths(paths);
      for i := 0 to |paths|
        invariant context.calls == old(context.calls) + StrokeCalls(world, vss[..i], closed)
        invariant context.lineWidth == old(context.lineWidth)
      {
        StrokePoints(paths[i], context, closed, world);
        assert StrokeCalls(world, vss[..i + 1], closed) == StrokeCalls(world, vss[..i], closed) + [StrokeCalls(world, vss, closed)[i]];
      }
      assert vss[..|paths|] == vss;
    }

    /** Translate, RotateX/Y/Z, Rotate, Scale and UniScale: `op` applied once to every point of every path. */
    method Transform(op: Op)
      requires DistinctPaths(paths) && ListOp(op)
      modifies Footprint(paths)
      ensures CoordsOfPaths(paths) == PathSeqs.ApplyAllPaths(op, old(CoordsOfPaths(paths)))
    {
      ghost var before := CoordsOfPaths(paths);
      var ps := paths;
      var opss := seq(|ps|, i requires 0 <= i < |ps| => seq(|ps[i]|, _ => op));
      assert forall i :: 0 <= i < |ps| ==> opss[i] == seq(|ps[i]|, _ => op);
      TransformPaths(paths, opss);
      forall i | 0 <= i < |paths| ensures CoordsOf(paths[i]) == ApplyAll(op, before[i]) { }
    }

    /** Randomize: each point gets its own three draws, opss[i][j] for paths[i][j]. */
    method Randomize(amount: real, opss: seq<seq<Op>>)
      requires DistinctPaths(paths) && |opss| == |paths|
      requires forall i :: 0 <= i < |paths| ==> |opss[i]| == |paths[i]| && RandomDraws(opss[i], amount)
      modifies Footprint(paths)
      ensures forall i, j :: 0 <= i < |paths| && 0 <= j < |paths[i]| ==>
        paths[i][j].Coords() == Apply(opss[i][j], old(paths[i][j].Coords()))
    {
      TransformPaths(paths, opss);
    }

    /** Every "...ed" copy except Randomized: a clone with `op` applied; the receiver does not move. */
    method Transformed(op: Op) returns (r: PathList)
      requires ListOp(op)
      ensures fresh(r) && DistinctPaths(r.paths)
      ensures forall i, j :: 0 <= i < |r.paths| && 0 <= j < |r.paths[i]| ==> fresh(r.paths[i][j])
      ensures CoordsOfPaths(r.paths) == PathSeqs.ApplyAllPaths(op, CoordsOfPaths(paths))
    {
      r := Clone();
      SameCoordsPaths(r.paths, paths);
      r.Transform(op);
    }

    /** Randomized: a clone with each point's own draws applied. */
    method Randomized(amount: real, opss: seq<seq<Op>>) returns (r: PathList)
      requires |opss| == |paths|
      requires forall i :: 0 <= i < |paths| ==> |opss[i]| == |paths[i]| && RandomDraws(opss[i], amount)
      ensures fresh(r) && DistinctPaths(r.paths) && |r.paths| == |paths|
      ensures forall i :: 0 <= i < |paths| ==> |r.paths[i]| == |paths[i]|
      ensures forall i, j :: 0 <= i < |paths| && 0 <= j < |paths[i]| ==>
        fresh(r.paths[i][j]) && r.paths[i][j].Coords() == Apply(opss[i][j], paths[i][j].Coords())
    {
      r := Clone();
      r.Randomize(amount, opss);
    }
  }
}
