/**
 * The `wire` package's PointList (wire/pointlist.go): an ordered list of
 * shared wire points, with cloning, projection to parallel lists of 2d
 * points and scales, stroking, bulk in-place transforms and copy-returning
 * transforms.
 */
module WirePointLists {
  import opened Geometry
  import opened WirePoints
  import Worlds

  /** No point object occurs twice in `pts`. */
  predicate Distinct(pts: seq<Point>) {
    forall i, j :: 0 <= i < j < |pts| ==> pts[i] != pts[j]
  }

  function CoordsOf(pts: seq<Point>): (r: seq<Vec3>)
    reads pts
    ensures |r| == |pts|
    ensures forall i :: 0 <= i < |pts| ==> r[i] == pts[i].Coords()
  {
    seq(|pts|, i reads pts requires 0 <= i < |pts| => pts[i].Coords())
  }

  /** Every point lies off the camera's plane, where its projection is defined. */
  predicate Projectable(world: Camera, vs: seq<Vec3>) {
    forall i :: 0 <= i < |vs| ==> world.CZ + vs[i].z != 0.0
  }

  /** The 2d points of `vs` projected through `world`, in order. */
  function ProjectedPath(world: Camera, vs: seq<Vec3>): (r: seq<(real, real)>)
    requires Projectable(world, vs)
    ensures |r| == |vs| && forall i :: 0 <= i < |vs| ==> r[i] == Perspective(world, vs[i]).0
  {
    seq(|vs|, i requires 0 <= i < |vs| => Perspective(world, vs[i]).0)
  }

  /** The scales of `vs` projected through `world`, in order. */
  function ProjectedScales(world: Camera, vs: seq<Vec3>): (r: seq<real>)
    requires Projectable(world, vs)
    ensures |r| == |vs| && forall i :: 0 <= i < |vs| ==> r[i] == Perspective(world, vs[i]).1
  {
    seq(|vs|, i requires 0 <= i < |vs| => Perspective(world, vs[i]).1)
  }

  /**
   * A list uniformly scaled about the eye keeps its picture: every point moved
   * k times as far along its ray projects to the same 2d point.
   */
  lemma PathAlongRay(world: Camera, vs: seq<Vec3>, k: real)
    requires Projectable(world, vs) && k != 0.0
    ensures Projectable(world, seq(|vs|, i requires 0 <= i < |vs| => AlongRay(world, vs[i], k)))
    ensures ProjectedPath(world, seq(|vs|, i requires 0 <= i < |vs| => AlongRay(world, vs[i], k))) ==
      ProjectedPath(world, vs)
  {
    var ws := seq(|vs|, i requires 0 <= i < |vs| => AlongRay(world, vs[i], k));
    forall i | 0 <= i < |vs| ensures world.CZ + ws[i].z != 0.0 && Perspective(world, ws[i]).0 == Perspective(world, vs[i]).0 {
      SameRaySamePoint(world, vs[i], k);
    }
  }

  /** The transforms PointList has: Translate, the rotations, Scale and UniScale. */
  predicate ListOp(op: Op) {
    op.Translate? || op.RotateX? || op.RotateY? || op.RotateZ? || op.Rotate? || op.Scale? || op.UniScale?
  }

  /** One Randomize per point, every offset drawn from [-amount, amount]. */
  predicate RandomDraws(ops: seq<Op>, amount: real) {
    forall i :: 0 <= i < |ops| ==> ops[i].Randomize? && ops[i].amount == amount && ops[i].Drawn()
  }

  /**
   * Applies ops[i] to pts[i], for each index in order: the loop of every bulk
   * transform.  Only the listed points move.
   */
  method TransformEach(pts: seq<Point>, ops: seq<Op>)
    requires |ops| == |pts| && Distinct(pts)
    requires forall i :: 0 <= i < |ops| ==> WireOp(ops[i]) && ops[i].Drawn()
    modifies pts
    ensures forall i :: 0 <= i < |pts| ==> pts[i].Coords() == Apply(ops[i], old(pts[i].Coords()))
  {
    for i := 0 to |pts|
      invariant forall j :: 0 <= j < i ==> pts[j].Coords() == Apply(ops[j], old(pts[j].Coords()))
      invariant forall j :: i <= j < |pts| ==> pts[j].Coords() == old(pts[j].Coords())
    {
      pts[i].Apply(ops[i]);
    }
  }

  /** Copies of `pts`, index by index: the loop of Clone. */
  method ClonePoints(pts: seq<Point>) returns (r: seq<Point>)
    ensures |r| == |pts| && Distinct(r)
    ensures forall i :: 0 <= i < |pts| ==> fresh(r[i]) && r[i].Coords() == pts[i].Coords()
  {
    r := [];
    for i := 0 to |pts|
      invariant |r| == i && Distinct(r)
      invariant forall j :: 0 <= j < i ==> fresh(r[j]) && r[j].Coords() == pts[j].Coords()
    {
      var q := pts[i].Clone();
      r := r + [q];
    }
  }

  /**
   * Project on a list of points: two lists as long as `pts`, filled index by
   * index with each point's 2d projection and scale.  No point changes.
   */
  method ProjectPoints(pts: seq<Point>, world: Camera) returns (list: seq<(real, real)>, scales: seq<real>)
    requires Projectable(world, CoordsOf(pts))
    ensures list == ProjectedPath(world, CoordsOf(pts))
    ensures scales == ProjectedScales(world, CoordsOf(pts))
  {
    var size := |pts|;
    var gps := new (real, real)[size](_ => (0.0, 0.0));
    var ss := new real[size](_ => 0.0);
    for i := 0 to size
      invariant forall j :: 0 <= j < i ==> (gps[j], ss[j]) == Perspective(world, pts[j].Coords())
    {
      assert world.CZ + CoordsOf(pts)[i].z != 0.0;
      var gp, scale := pts[i].Project(world);
      gps[i], ss[i] := gp, scale;
    }
    list, scales := gps[..], ss[..];
  }

  /** Stroke on a list of points: its projected 2d points, in order, in one StrokePath call. */
  method StrokePoints(pts: seq<Point>, context: Worlds.Context, closed: bool, world: Camera)
    requires Projectable(world, CoordsOf(pts))
    modifies context
    ensures context.calls == old(context.calls) + [Worlds.Call.StrokePath(ProjectedPath(world, CoordsOf(pts)), closed)]
    ensures context.lineWidth == old(context.lineWidth)
  {
    var points, _ := ProjectPoints(pts, world);
    context.StrokePath(points, closed);
  }

  class PointList {
    var points: seq<Point>

    /** NewPointList: the empty list. */
    constructor ()
      ensures points == []
    {
      points := [];
    }

    /** Appends `p` itself (not a copy) after the existing points. */
    method Add(p: Point)
      modifies this
      ensures points == old(points) + [p]
    {
      points := points + [p];
    }

    /** Appends a new point at (x, y, z). */
    method AddXYZ(x: real, y: real, z: real)
      modifies this
      ensures |points| == |old(points)| + 1 && points[..|old(points)|] == old(points)
      ensures fresh(points[|old(points)|]) && points[|old(points)|].Coords() == Vec3(x, y, z)
    {
      var p := new Point(x, y, z);
      points := points + [p];
    }

    /** A new list of new points, each at the coordinates of the point at the same index. */
    method Clone() returns (r: PointList)
      ensures fresh(r) && |r.points| == |points| && Distinct(r.points)
      ensures forall i :: 0 <= i < |points| ==> fresh(r.points[i]) && r.points[i].Coords() == points[i].Coords()
    {
      r := new PointList();
      var copies := ClonePoints(points);
      r.points := copies;
    }

    /** The projected 2d points and their scales, in list order; nothing is stored. */
    method Project(world: Camera) returns (list: seq<(real, real)>, scales: seq<real>)
      requires Projectable(world, CoordsOf(points))
      ensures list == ProjectedPath(world, CoordsOf(points))
      ensures scales == ProjectedScales(world, CoordsOf(points))
    {
      list, scales := ProjectPoints(points, world);
    }

    /** One StrokePath call with the projected points and the closed flag. */
    method Stroke(context: Worlds.Context, closed: bool, world: Camera)
      requires Projectable(world, CoordsOf(points))
      modifies context
      ensures context.calls == old(context.calls) + [Worlds.Call.StrokePath(ProjectedPath(world, CoordsOf(points)), closed)]
      ensures context.lineWidth == old(context.lineWidth)
    {
      StrokePoints(points, context, closed, world);
    }

    /** Translate, RotateX/Y/Z, Rotate, Scale and UniScale: `op` applied once to every point. */
    method Transform(op: Op)
      requires Distinct(points) && ListOp(op)
      modifies points
      ensures CoordsOf(points) == ApplyAll(op, old(CoordsOf(points)))
    {
      TransformEach(points, seq(|points|, _ => op));
    }

    /** Randomize: each point gets its own three draws, ops[i] for points[i]. */
    method Randomize(amount: real, ops: seq<Op>)
      requires Distinct(points) && |ops| == |points| && RandomDraws(ops, amount)
      modifies points
      ensures forall i :: 0 <= i < |points| ==> points[i].Coords() == Apply(ops[i], old(points[i].Coords()))
    {
      TransformEach(points, ops);
    }

    /** Every "...ed" copy except Randomized: a clone with `op` applied; the receiver does not move. */
    method Transformed(op: Op) returns (r: PointList)
      requires ListOp(op)
      ensures fresh(r) && Distinct(r.points)
      ensures forall i :: 0 <= i < |r.points| ==> fresh(r.points[i])
      ensures CoordsOf(r.points) == ApplyAll(op, CoordsOf(points))
    {
      r := Clone();
      r.Transform(op);
    }

    /** Randomized: a clone with each point's own draws applied. */
    method Randomized(amount: real, ops: seq<Op>) returns (r: PointList)
      requires |ops| == |points| && RandomDraws(ops, amount)
      ensures fresh(r) && Distinct(r.points) && |r.points| == |points|
      ensures forall i :: 0 <= i < |r.points| ==> fresh(r.points[i])
      ensures forall i :: 0 <= i < |points| ==> r.points[i].Coords() == Apply(ops[i], points[i].Coords())
    {
      r := Clone();
      r.Randomize(amount, ops);
    }
  }
}
