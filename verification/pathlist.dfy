/**
 * The root package's PathList (pathlist.go): a list of paths, each a list of
 * shared point objects.  Go's PathList is a slice of PointList slices; here
 * it is an object whose one field is that sequence of sequences.
 */
module PathLists {
  import opened Geometry
  import opened Points
  import opened PointLists
  import opened PathSeqs

  class PathList {
    var paths: seq<seq<Point>>

    /** NewPathList: `size` empty paths. */
    constructor (size: nat)
      ensures |paths| == size && forall i :: 0 <= i < size ==> paths[i] == []
    {
      paths := seq(size, _ => []);
    }

    /** Appends `path` itself, sharing its points, as the last path. */
    method Add(path: seq<Point>)
      modifies this
      ensures paths == old(paths) + [path]
    {
      paths := paths + [path];
    }

    /** Appends `point` itself to the end of path `index`; an index out of range is fatal. */
    method AddPoint(index: int, point: Point)
      requires 0 <= index < |paths|
      modifies this
      ensures paths == old(paths)[index := old(paths)[index] + [point]]
    {
      paths := paths[index := paths[index] + [point]];
    }

    /** Appends a new point at (x, y, z) to the end of path `index`; an index out of range is fatal. */
    method AddXYZ(index: int, x: real, y: real, z: real)
      requires 0 <= index < |paths|
      modifies this
      ensures AppendedNew(old(paths), paths, index, Vec3(x, y, z))
      ensures fresh(paths[index][|old(paths)[index]|])
    {
      var p := new Point(x, y, z);
      AddPoint(index, p);
    }

    /** A new path list with the same shape whose points are all new copies. */
    method Clone() returns (r: PathList)
      ensures fresh(r) && |r.paths| == |paths| && DistinctPaths(r.paths)
      ensures forall i :: 0 <= i < |paths| ==> |r.paths[i]| == |paths[i]|
      ensures forall i, j :: 0 <= i < |paths| && 0 <= j < |paths[i]| ==>
        fresh(r.paths[i][j]) && r.paths[i][j].Snap() == paths[i][j].Snap()
    {
      r := new PathList(0);
      var copies := ClonePaths(paths);
      r.paths := copies;
    }

    /**
     * Every in-place transform except TranslateY and Randomize*: `op` applied
     * once to every point of every path.  The paths themselves do not change.
     */
    method Transform(op: Op)
      requires DistinctPaths(paths) && op.Drawn()
      modifies Footprint(paths)
      ensures CoordsOfPaths(paths) == ApplyAllPaths(op, old(CoordsOfPaths(paths)))
      ensures forall i, j :: 0 <= i < |paths| && 0 <= j < |paths[i]| ==>
        paths[i][j].Cache() == old(paths[i][j].Cache())
    {
      ghost var before := CoordsOfPaths(paths);
      TransformPaths(paths, RepeatPaths(op, paths));
      forall i | 0 <= i < |paths| ensures CoordsOf(paths[i]) == ApplyAll(op, before[i]) { }
    }

    /** TranslateY as written: every path is translated on the x-axis by `ty`. */
    method TranslateY(ty: real)
      requires DistinctPaths(paths)
      modifies Footprint(paths)
      ensures CoordsOfPaths(paths) == ApplyAllPaths(Op.TranslateX(ty), old(CoordsOfPaths(paths)))
      ensures forall i, j :: 0 <= i < |paths| && 0 <= j < |paths[i]| ==>
        paths[i][j].Cache() == old(paths[i][j].Cache())
    {
      Transform(Op.TranslateX(ty));
    }

    /** TranslateY as its documentation describes it: every path translated on the y-axis. */
    method TranslateYIntended(ty: real)
      requires DistinctPaths(paths)
      modifies Footprint(paths)
      ensures CoordsOfPaths(paths) == ApplyAllPaths(Op.TranslateY(ty), old(CoordsOfPaths(paths)))
      ensures forall i, j :: 0 <= i < |paths| && 0 <= j < |paths[i]| ==>
        paths[i][j].Cache() == old(paths[i][j].Cache())
    {
      Transform(Op.TranslateY(ty));
    }

    /** Randomize*: each point gets its own draw, opss[i][j] for paths[i][j]. */
    method RandomizeEach(opss: seq<seq<Op>>)
      requires DistinctPaths(paths) && OpsFit(opss, paths)
      modifies Footprint(paths)
      ensures forall i, j :: 0 <= i < |paths| && 0 <= j < |paths[i]| ==>
        paths[i][j].Coords() == Apply(opss[i][j], old(paths[i][j].Coords()))
      ensures forall i, j :: 0 <= i < |paths| && 0 <= j < |paths[i]| ==>
        paths[i][j].Cache() == old(paths[i][j].Cache())
    {
      TransformPaths(paths, opss);
    }

    /** Every "...ed" copy except TranslatedY and Randomized*: a clone with `op` applied. */
    method Transformed(op: Op) returns (r: PathList)
      requires op.Drawn()
      ensures fresh(r) && DistinctPaths(r.paths)
      ensures forall i, j :: 0 <= i < |r.paths| && 0 <= j < |r.paths[i]| ==> fresh(r.paths[i][j])
      ensures CoordsOfPaths(r.paths) == ApplyAllPaths(op, old(CoordsOfPaths(paths)))
    {
      r := Clone();
      SameSnapsSameCoords(r.paths, paths);
      r.Transform(op);
    }

    /** TranslatedY as written: a clone translated on the x-axis by `ty`. */
    method TranslatedY(ty: real) returns (r: PathList)
      ensures fresh(r) && DistinctPaths(r.paths)
      ensures forall i, j :: 0 <= i < |r.paths| && 0 <= j < |r.paths[i]| ==> fresh(r.paths[i][j])
      ensures CoordsOfPaths(r.paths) == ApplyAllPaths(Op.TranslateX(ty), old(CoordsOfPaths(paths)))
    {
      r := Clone();
      SameSnapsSameCoords(r.paths, paths);
      r.TranslateY(ty);
    }

    /** Randomized*: a clone with each point's own draw applied. */
    method RandomizedEach(opss: seq<seq<Op>>) returns (r: PathList)
      requires OpsFit(opss, paths)
      ensures fresh(r) && DistinctPaths(r.paths) && |r.paths| == |paths|
      ensures forall i :: 0 <= i < |paths| ==> |r.paths[i]| == |paths[i]|
      ensures forall i, j :: 0 <= i < |paths| && 0 <= j < |paths[i]| ==>
        fresh(r.paths[i][j]) && r.paths[i][j].Coords() == Apply(opss[i][j], old(paths[i][j].Coords()))
    {
      r := Clone();
      r.RandomizeEach(opss);
    }
  }

  /** The x-offset TranslateY applies lands on x, where a y-offset belongs on y. */
  lemma TranslateYMovesX()
    ensures ApplyAllPaths(Op.TranslateX(1.0), [[Vec3(0.0, 0.0, 0.0)]]) == [[Vec3(1.0, 0.0, 0.0)]]
    ensures ApplyAllPaths(Op.TranslateY(1.0), [[Vec3(0.0, 0.0, 0.0)]]) == [[Vec3(0.0, 1.0, 0.0)]]
  {
    var vss := [[Vec3(0.0, 0.0, 0.0)]];
    assert ApplyAll(Op.TranslateX(1.0), vss[0]) == [Vec3(1.0, 0.0, 0.0)];
    assert ApplyAll(Op.TranslateY(1.0), vss[0]) == [Vec3(0.0, 1.0, 0.0)];
  }
}
