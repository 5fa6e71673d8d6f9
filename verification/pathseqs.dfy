/**
 * What the root PathList (pathlist.go) and the path-based Shape (shape.go)
 * have in common: a sequence of paths, each a sequence of shared point
 * objects, that they clone path by path and transform point by point.
 */
module PathSeqs {
  import opened Geometry
  import opened Points
  import opened PointLists

  /** No point object occurs twice anywhere in `paths`, within a path or across two. */
  predicate DistinctPaths(paths: seq<seq<Point>>) {
    forall i, j, k, l ::
      0 <= i < |paths| && 0 <= j < |paths[i]| && 0 <= k < |paths| && 0 <= l < |paths[k]| && (i != k || j != l)
      ==> paths[i][j] != paths[k][l]
  }

  /** Every point object of every path. */
  function Footprint(paths: seq<seq<Point>>): set<Point> {
    set i, j | 0 <= i < |paths| && 0 <= j < |paths[i]| :: paths[i][j]
  }

  /** The coordinates of every point, path by path. */
  function CoordsOfPaths(paths: seq<seq<Point>>): (r: seq<seq<Vec3>>)
    reads Footprint(paths)
    ensures |r| == |paths|
    ensures forall i :: 0 <= i < |paths| ==> r[i] == CoordsOf(paths[i])
  {
    seq(|paths|, i reads Footprint(paths) requires 0 <= i < |paths| =>
      assert forall j :: 0 <= j < |paths[i]| ==> paths[i][j] in Footprint(paths);
      CoordsOf(paths[i]))
  }

  /** `op` applied to every coordinate triple, keeping the paths' shape. */
  function ApplyAllPaths(op: Op, vss: seq<seq<Vec3>>): (r: seq<seq<Vec3>>)
    ensures |r| == |vss|
    ensures forall i :: 0 <= i < |vss| ==> r[i] == ApplyAll(op, vss[i])
  {
    seq(|vss|, i requires 0 <= i < |vss| => ApplyAll(op, vss[i]))
  }

  /** One op per point: `opss` has the shape of `paths`, every random offset drawn. */
  predicate OpsFit(opss: seq<seq<Op>>, paths: seq<seq<Point>>) {
    |opss| == |paths| && forall i :: 0 <= i < |paths| ==> |opss[i]| == |paths[i]| && AllDrawn(opss[i])
  }

  /** The same op for every point of `paths`. */
  function RepeatPaths(op: Op, paths: seq<seq<Point>>): (r: seq<seq<Op>>)
    ensures |r| == |paths|
    ensures forall i :: 0 <= i < |paths| ==> r[i] == Repeat(op, |paths[i]|)
  {
    seq(|paths|, i requires 0 <= i < |paths| => Repeat(op, |paths[i]|))
  }

  /**
   * Applies opss[i][j] to paths[i][j], path by path: the loop of every bulk
   * transform.  Only the coordinates of the listed points change.
   */
  method TransformPaths(paths: seq<seq<Point>>, opss: seq<seq<Op>>)
    requires DistinctPaths(paths) && OpsFit(opss, paths)
    modifies Footprint(paths)
    ensures forall i, j :: 0 <= i < |paths| && 0 <= j < |paths[i]| ==>
      paths[i][j].Coords() == Apply(opss[i][j], old(paths[i][j].Coords()))
    ensures forall i, j :: 0 <= i < |paths| && 0 <= j < |paths[i]| ==>
      paths[i][j].Cache() == old(paths[i][j].Cache())
  {
    var i := 0;
    while i < |paths|
      invariant 0 <= i <= |paths|
      invariant forall k, j :: 0 <= k < i && 0 <= j < |paths[k]| ==>
        paths[k][j].Coords() == Apply(opss[k][j], old(paths[k][j].Coords()))
      invariant forall k, j :: i <= k < |paths| && 0 <= j < |paths[k]| ==>
        paths[k][j].Coords() == old(paths[k][j].Coords())
      invariant forall k, j :: 0 <= k < |paths| && 0 <= j < |paths[k]| ==>
        paths[k][j].Cache() == old(paths[k][j].Cache())
    {
      forall j | 0 <= j < |paths[i]| ensures paths[i][j] in Footprint(paths) { }
      OtherPathsOutside(paths, i);
      TransformEach(paths[i], opss[i]);
      i := i + 1;
    }
  }

  /** Distinct paths share no point: a point of another path is not in path i. */
  lemma OtherPathsOutside(paths: seq<seq<Point>>, i: int)
    requires DistinctPaths(paths) && 0 <= i < |paths|
    ensures Distinct(paths[i])
    ensures forall k, j :: 0 <= k < |paths| && k != i && 0 <= j < |paths[k]| ==> paths[k][j] !in paths[i]
  {
    forall k, j | 0 <= k < |paths| && k != i && 0 <= j < |paths[k]| ensures paths[k][j] !in paths[i] {
      assert forall l :: 0 <= l < |paths[i]| ==> paths[i][l] != paths[k][j];
    }
  }

  /** New copies of every path: the loop of Clone. */
  method ClonePaths(paths: seq<seq<Point>>) returns (r: seq<seq<Point>>)
    ensures |r| == |paths| && DistinctPaths(r)
    ensures forall i :: 0 <= i < |paths| ==> |r[i]| == |paths[i]|
    ensures forall i, j :: 0 <= i < |paths| && 0 <= j < |paths[i]| ==>
      fresh(r[i][j]) && r[i][j].Snap() == paths[i][j].Snap()
  {
    r := [];
    var i := 0;
    while i < |paths|
      invariant 0 <= i <= |paths| && |r| == i && DistinctPaths(r)
      invariant forall k :: 0 <= k < i ==> |r[k]| == |paths[k]|
      invariant forall k, j :: 0 <= k < i && 0 <= j < |paths[k]| ==>
        fresh(r[k][j]) && r[k][j].Snap() == paths[k][j].Snap()
    {
      var copy := CloneAll(paths[i]);
      r := r + [copy];
      i := i + 1;
    }
  }

  /** Paths of the same shape whose points pair up with equal snapshots have the same coordinates. */
  lemma SameSnapsSameCoords(a: seq<seq<Point>>, b: seq<seq<Point>>)
    requires |a| == |b| && forall i :: 0 <= i < |a| ==> |a[i]| == |b[i]|
    requires forall i, j :: 0 <= i < |a| && 0 <= j < |a[i]| ==> a[i][j].Snap() == b[i][j].Snap()
    ensures CoordsOfPaths(a) == CoordsOfPaths(b)
  {
    forall i | 0 <= i < |a| ensures CoordsOf(a[i]) == CoordsOf(b[i]) {
      forall j | 0 <= j < |a[i]| ensures a[i][j].Coords() == b[i][j].Coords() {
        assert a[i][j].Snap() == b[i][j].Snap();
      }
    }
  }

  /**
   * `after` is `before` with one point appended to path `index`, at
   * coordinates `v` and with a zero projection cache; every other path is unchanged.
   */
  predicate AppendedNew(before: seq<seq<Point>>, after: seq<seq<Point>>, index: int, v: Vec3)
    requires 0 <= index < |before|
    reads if |after| == |before| && |after[index]| == |before[index]| + 1 then {after[index][|before[index]|]} else {}
  {
    |after| == |before| &&
    (forall i :: 0 <= i < |after| && i != index ==> after[i] == before[i]) &&
    |after[index]| == |before[index]| + 1 &&
    after[index][..|before[index]|] == before[index] &&
    after[index][|before[index]|].Snap() == Snapshot(v, Projection(0.0, 0.0, 0.0))
  }
}
