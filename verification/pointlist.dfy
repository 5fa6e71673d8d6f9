/**
 * The root package's PointList (pointlist.go): an ordered list of shared
 * Point objects, with cloning, order-preserving culling, bulk in-place
 * transforms and copy-returning transforms.
 */
module PointLists {
  import opened Geometry
  import opened Points
  import Worlds

  /** No point object occurs twice in `pts`. */
  predicate Distinct(pts: seq<Point>) {
    forall i, j :: 0 <= i < j < |pts| ==> pts[i] != pts[j]
  }

  function CoordsOf(pts: seq<Point>): (r: seq<Vec3>)
    reads pts
    ensures |r| == |pts|
    ensures forall i :: 0 <= i < |pts| ==> r[i] == pts[i].Coords()
  {
    seq(|pts|, i reads pts requires 0 <= i < |pts| => pts[i].Coords())
  }

  function SnapsOf(pts: seq<Point>): (r: seq<Snapshot>)
    reads pts
    ensures |r| == |pts|
    ensures forall i :: 0 <= i < |pts| ==> r[i] == pts[i].Snap()
  {
    seq(|pts|, i reads pts requires 0 <= i < |pts| => pts[i].Snap())
  }

  /** `n` copies of one op: the same transform for every point of a list. */
  function Repeat(op: Op, n: nat): (r: seq<Op>)
    ensures |r| == n && forall i :: 0 <= i < n ==> r[i] == op
  {
    seq(n, _ => op)
  }

  predicate AllDrawn(ops: seq<Op>) {
    forall i :: 0 <= i < |ops| ==> ops[i].Drawn()
  }

  /**
   * Applies ops[i] to pts[i], for each index in order; the loop body of every
   * bulk transform.  Only coordinates change, and only those of the listed points.
   */
  method TransformEach(pts: seq<Point>, ops: seq<Op>)
    requires |ops| == |pts| && Distinct(pts) && AllDrawn(ops)
    modifies pts
    ensures forall i :: 0 <= i < |pts| ==> pts[i].Coords() == Apply(ops[i], old(pts[i].Coords()))
    ensures forall i :: 0 <= i < |pts| ==> pts[i].Cache() == old(pts[i].Cache())
  {
    var i := 0;
    while i < |pts|
      invariant 0 <= i <= |pts|
      invariant forall j :: 0 <= j < i ==> pts[j].Coords() == Apply(ops[j], old(pts[j].Coords()))
      invariant forall j :: i <= j < |pts| ==> pts[j].Coords() == old(pts[j].Coords())
      invariant forall j :: 0 <= j < |pts| ==> pts[j].Cache() == old(pts[j].Cache())
    {
      pts[i].Apply(ops[i]);
      i := i + 1;
    }
  }

  /** Applies `op` once to every point of `pts`: the loop of every uniform bulk transform. */
  method TransformAll(pts: seq<Point>, op: Op)
    requires Distinct(pts) && op.Drawn()
    modifies pts
    ensures CoordsOf(pts) == ApplyAll(op, old(CoordsOf(pts)))
    ensures forall i :: 0 <= i < |pts| ==> pts[i].Cache() == old(pts[i].Cache())
  {
    TransformEach(pts, Repeat(op, |pts|));
  }

  /** The points `xs` whose snapshots in `ss` satisfy `keep`, in their original order. */
  function Select(xs: seq<Point>, ss: seq<Snapshot>, keep: Snapshot -> bool): seq<Point>
    requires |xs| == |ss|
  {
    if xs == [] then []
    else
      var n := |xs| - 1;
      Select(xs[..n], ss[..n], keep) + (if keep(ss[n]) then [xs[n]] else [])
  }

  /** The snapshots in `ss` that satisfy `keep`, in their original order. */
  function Filter(ss: seq<Snapshot>, keep: Snapshot -> bool): seq<Snapshot> {
    if ss == [] then []
    else
      var n := |ss| - 1;
      Filter(ss[..n], keep) + (if keep(ss[n]) then [ss[n]] else [])
  }

  /** The indices of `ss` whose snapshot satisfies `keep`, in increasing order. */
  function KeptIndices(ss: seq<Snapshot>, keep: Snapshot -> bool): seq<nat> {
    if ss == [] then []
    else
      var n := |ss| - 1;
      KeptIndices(ss[..n], keep) + (if keep(ss[n]) then [n] else [])
  }

  /** KeptIndices lists exactly the satisfying indices, each once, increasing. */
  lemma {:induction false} KeptIndicesSpec(ss: seq<Snapshot>, keep: Snapshot -> bool)
    ensures forall k :: 0 <= k < |KeptIndices(ss, keep)| ==> KeptIndices(ss, keep)[k] < |ss|
    ensures forall k, l :: 0 <= k < l < |KeptIndices(ss, keep)| ==>
      KeptIndices(ss, keep)[k] < KeptIndices(ss, keep)[l]
    ensures forall i :: 0 <= i < |ss| ==> (i in KeptIndices(ss, keep) <==> keep(ss[i]))
  {
    if ss != [] {
      var n := |ss| - 1;
      KeptIndicesSpec(ss[..n], keep);
      assert forall i :: 0 <= i < n ==> ss[..n][i] == ss[i];
    }
  }

  /** Select picks the points at exactly the kept indices, in order. */
  lemma {:induction false} SelectAtKeptIndices(xs: seq<Point>, ss: seq<Snapshot>, keep: Snapshot -> bool)
    requires |xs| == |ss|
    ensures |Select(xs, ss, keep)| == |KeptIndices(ss, keep)|
    ensures forall k :: 0 <= k < |Select(xs, ss, keep)| ==>
      KeptIndices(ss, keep)[k] < |xs| && Select(xs, ss, keep)[k] == xs[KeptIndices(ss, keep)[k]]
  {
    KeptIndicesSpec(ss, keep);
    if xs != [] {
      var n := |xs| - 1;
      SelectAtKeptIndices(xs[..n], ss[..n], keep);
      KeptIndicesSpec(ss[..n], keep);
    }
  }

  /** Filter keeps the snapshots at exactly the kept indices, in order. */
  lemma {:induction false} FilterAtKeptIndices(ss: seq<Snapshot>, keep: Snapshot -> bool)
    ensures |Filter(ss, keep)| == |KeptIndices(ss, keep)|
    ensures forall k :: 0 <= k < |Filter(ss, keep)| ==>
      KeptIndices(ss, keep)[k] < |ss| && Filter(ss, keep)[k] == ss[KeptIndices(ss, keep)[k]]
  {
    KeptIndicesSpec(ss, keep);
    if ss != [] {
      var n := |ss| - 1;
      FilterAtKeptIndices(ss[..n], keep);
      KeptIndicesSpec(ss[..n], keep);
    }
  }

  /** A point survives Select exactly when one of its occurrences is kept. */
  lemma SelectMembers(xs: seq<Point>, ss: seq<Snapshot>, keep: Snapshot -> bool)
    requires |xs| == |ss|
    ensures forall p :: p in Select(xs, ss, keep) <==> exists i :: 0 <= i < |xs| && xs[i] == p && keep(ss[i])
  {
    SelectAtKeptIndices(xs, ss, keep);
    KeptIndicesSpec(ss, keep);
    var r, K := Select(xs, ss, keep), KeptIndices(ss, keep);
    forall p | p in r ensures exists i :: 0 <= i < |xs| && xs[i] == p && keep(ss[i]) {
      var k :| 0 <= k < |r| && r[k] == p;
      assert K[k] in K;
    }
    forall p | exists i :: 0 <= i < |xs| && xs[i] == p && keep(ss[i]) ensures p in r {
      var i :| 0 <= i < |xs| && xs[i] == p && keep(ss[i]);
      var k :| 0 <= k < |K| && K[k] == i;
      assert r[k] == p;
    }
  }

  /** Selecting from distinct points gives distinct points. */
  lemma SelectDistinct(xs: seq<Point>, ss: seq<Snapshot>, keep: Snapshot -> bool)
    requires |xs| == |ss| && Distinct(xs)
    ensures Distinct(Select(xs, ss, keep))
  {
    SelectAtKeptIndices(xs, ss, keep);
    KeptIndicesSpec(ss, keep);
  }

  /** Selecting the points by their own current snapshots yields the filtered snapshots. */
  lemma SnapsOfSelect(xs: seq<Point>, keep: Snapshot -> bool)
    ensures SnapsOf(Select(xs, SnapsOf(xs), keep)) == Filter(SnapsOf(xs), keep)
  {
    var ss := SnapsOf(xs);
    SelectAtKeptIndices(xs, ss, keep);
    FilterAtKeptIndices(ss, keep);
  }

  /** Whether a snapshot lies in the box [minX, maxX] x [minY, maxY] x [minZ, maxZ], ends included. */
  function InBox(minX: real, minY: real, minZ: real, maxX: real, maxY: real, maxZ: real): Snapshot -> bool {
    (s: Snapshot) => minX <= s.coords.x <= maxX && minY <= s.coords.y <= maxY && minZ <= s.coords.z <= maxZ
  }

  /** Push divides by the distance of every point it moves: none may sit on the pusher. */
  predicate PushDefined(v: Vec3, c: Vec3, radius: real, sqrt: real -> real) {
    sqrt(DistSq(v, c)) < radius ==> sqrt(DistSq(v, c)) != 0.0
  }

  /** Where Push leaves coordinates `v`, for the pusher at `c`. */
  function PushOne(v: Vec3, c: Vec3, radius: real, sqrt: real -> real): Vec3
    requires PushDefined(v, c, radius, sqrt)
  {
    var dist := sqrt(DistSq(v, c));
    if dist < radius then PushedAway(v, c, radius / dist) else v
  }

  /**
   * A pushed point ends exactly `radius` from the pusher, on the same ray; a
   * point already at least `radius` away does not move.
   */
  lemma PushOneSpec(v: Vec3, c: Vec3, radius: real, sqrt: real -> real)
    requires IsSqrt(sqrt) && PushDefined(v, c, radius, sqrt)
    ensures sqrt(DistSq(v, c)) >= radius ==> PushOne(v, c, radius, sqrt) == v
    ensures sqrt(DistSq(v, c)) < radius ==>
      DistSq(c, PushOne(v, c, radius, sqrt)) == radius * radius &&
      PushOne(v, c, radius, sqrt) == PushedAway(v, c, radius / sqrt(DistSq(v, c)))
  {
    var d := sqrt(DistSq(v, c));
    if d < radius {
      DistSqSymmetric(v, c);
      assert d * d == DistSq(c, v);
      PushedAwayLandsOnRadius(v, c, d, radius);
    }
  }

  /** The moves Push makes on a point within reach: to the pusher's frame, scaled by k, and back. */
  method ScaleAbout(p: Point, pusher: Point, k: real)
    requires p != pusher
    modifies p
    ensures p.Coords() == PushedAway(old(p.Coords()), pusher.Coords(), k)
    ensures p.Cache() == old(p.Cache())
  {
    ghost var v, c := p.Coords(), pusher.Coords();
    p.Translate(-pusher.X, -pusher.Y, -pusher.Z);
    ghost var v1 := p.Coords();
    assert v1 == Apply(Op.Translate(-c.x, -c.y, -c.z), v);
    p.UniScale(k);
    ghost var v2 := p.Coords();
    assert v2 == Apply(Op.UniScale(k), v1);
    p.Translate(pusher.X, pusher.Y, pusher.Z);
    assert p.Coords() == Apply(Op.Translate(c.x, c.y, c.z), v2);
  }

  /** The body of Push's loop, for one point. */
  method PushPoint(p: Point, pusher: Point, radius: real, sqrt: real -> real)
    requires p != pusher && PushDefined(p.Coords(), pusher.Coords(), radius, sqrt)
    modifies p
    ensures p.Coords() == PushOne(old(p.Coords()), pusher.Coords(), radius, sqrt)
    ensures p.Cache() == old(p.Cache())
  {
    var dist := p.Distance(pusher, sqrt);
    if dist < radius {
      ScaleAbout(p, pusher, radius / dist);
    }
  }

  /** Copies of `pts`, index by index: the loop of PointList.Clone. */
  method CloneAll(pts: seq<Point>) returns (r: seq<Point>)
    ensures |r| == |pts| && Distinct(r)
    ensures forall i :: 0 <= i < |pts| ==> fresh(r[i]) && r[i].Snap() == pts[i].Snap()
  {
    r := [];
    var i := 0;
    while i < |pts|
      invariant 0 <= i <= |pts|
      invariant |r| == i && Distinct(r)
      invariant forall j :: 0 <= j < i ==> fresh(r[j]) && r[j].Snap() == pts[j].Snap()
    {
      var q := pts[i].Clone();
      r := r + [q];
      i := i + 1;
    }
  }

  class PointList {
    var points: seq<Point>

    /** NewPointList: the empty list. */
    constructor ()
      ensures points == []
    {
      points := [];
    }

    /** Appends `p` itself (not a copy) after the existing points. */
    method Add(p: Point)
      modifies this
      ensures points == old(points) + [p]
    {
      points := points + [p];
    }

    /** Appends a new point at (x, y, z) with a zero projection cache. */
    method AddXYZ(x: real, y: real, z: real)
      modifies this
      ensures |points| == |old(points)| + 1 && points[..|old(points)|] == old(points)
      ensures fresh(points[|old(points)|])
      ensures points[|old(points)|].Snap() == Snapshot(Vec3(x, y, z), Projection(0.0, 0.0, 0.0))
    {
      var p := new Point(x, y, z);
      points := points + [p];
    }

    /** A new list of new points, each a copy of the point at the same index. */
    method Clone() returns (r: PointList)
      ensures fresh(r) && |r.points| == |points| && Distinct(r.points)
      ensures forall i :: 0 <= i < |points| ==> fresh(r.points[i]) && r.points[i].Snap() == points[i].Snap()
    {
      r := new PointList();
      var copies := CloneAll(points);
      r.points := copies;
    }

    /** Projects every point through the camera of `world`; coordinates stay. */
    method Project(world: Worlds.WorldDef)
      requires forall i :: 0 <= i < |points| ==> world.CZ + points[i].Z != 0.0
      modifies points
      ensures forall i :: 0 <= i < |points| ==> points[i].Coords() == old(points[i].Coords())
      ensures forall i :: 0 <= i < |points| ==> Projected(points[i], world)
    {
      var i := 0;
      while i < |points|
        invariant 0 <= i <= |points|
        invariant forall j :: 0 <= j < |points| ==> points[j].Coords() == old(points[j].Coords())
        invariant forall j :: 0 <= j < i ==> Projected(points[j], world)
      {
        points[i].Project(world);
        i := i + 1;
      }
    }

    /** Get as written: a negative index is replaced by len - index. */
    function Get(index: int): (p: Point)
      reads this
      requires 0 <= GetIndex(|points|, index) < |points|
      ensures index >= 0 && p == points[index]
    {
      points[GetIndex(|points|, index)]
    }

    /** Get as its documentation describes it: negative indices count back from the end. */
    function GetIntended(index: int): (p: Point)
      reads this
      requires -|points| <= index < |points|
      ensures index >= 0 ==> p == points[index]
      ensures index < 0 ==> p == points[|points| + index]
      ensures index == -1 ==> p == points[|points| - 1]
    {
      if index < 0 then points[|points| + index] else points[index]
    }

    function First(): (p: Point)
      reads this
      requires |points| > 0
      ensures p == points[0]
    {
      points[0]
    }

    function Last(): (p: Point)
      reads this
      requires |points| > 0
      ensures p == points[|points| - 1]
    {
      points[|points| - 1]
    }

    /**
     * Keeps the points whose current fields satisfy `keep`: the same objects,
     * in their original order, with their fields untouched.
     */
    method Cull(keep: Snapshot -> bool)
      modifies this
      ensures points == Select(old(points), old(SnapsOf(points)), keep)
    {
      ghost var ss := SnapsOf(points);
      var kept: seq<Point> := [];
      var i := 0;
      while i < |points|
        invariant 0 <= i <= |points| && points == old(points)
        invariant kept == Select(points[..i], ss[..i], keep)
      {
        if keep(points[i].Snap()) {
          kept := kept + [points[i]];
        }
        assert points[..i + 1][..i] == points[..i] && ss[..i + 1][..i] == ss[..i];
        i := i + 1;
      }
      assert points[..i] == points && ss[..i] == ss;
      points := kept;
    }

    /** Keeps the points inside the box, bounds included, in their original order. */
    method CullBox(minX: real, minY: real, minZ: real, maxX: real, maxY: real, maxZ: real)
      modifies this
      ensures points == Select(old(points), old(SnapsOf(points)), InBox(minX, minY, minZ, maxX, maxY, maxZ))
    {
      ghost var ss := SnapsOf(points);
      ghost var keep := InBox(minX, minY, minZ, maxX, maxY, maxZ);
      var kept: seq<Point> := [];
      var i := 0;
      while i < |points|
        invariant 0 <= i <= |points| && points == old(points)
        invariant kept == Select(points[..i], ss[..i], keep)
      {
        var p := points[i];
        if p.X >= minX && p.X <= maxX && p.Y >= minY && p.Y <= maxY && p.Z >= minZ && p.Z <= maxZ {
          kept := kept + [p];
        }
        assert points[..i + 1][..i] == points[..i] && ss[..i + 1][..i] == ss[..i];
        i := i + 1;
      }
      assert points[..i] == points && ss[..i] == ss;
      points := kept;
    }

    /** A culled copy: fresh points whose fields are those of the kept originals, in order. */
    method Culled(keep: Snapshot -> bool) returns (r: PointList)
      ensures fresh(r) && Distinct(r.points)
      ensures forall i :: 0 <= i < |r.points| ==> fresh(r.points[i])
      ensures SnapsOf(r.points) == Filter(old(SnapsOf(points)), keep)
    {
      r := Clone();
      ghost var clones := r.points;
      assert SnapsOf(clones) == SnapsOf(points);
      r.Cull(keep);
      SnapsOfSelect(clones, keep);
      SelectDistinct(clones, SnapsOf(clones), keep);
      SelectMembers(clones, SnapsOf(clones), keep);
      forall i | 0 <= i < |r.points| ensures fresh(r.points[i]) {
        assert r.points[i] in Select(clones, SnapsOf(clones), keep);
      }
    }

    /** Every in-place transform except Randomize*: `op` applied once to every point. */
    method Transform(op: Op)
      requires Distinct(points) && op.Drawn()
      modifies points
      ensures CoordsOf(points) == ApplyAll(op, old(CoordsOf(points)))
      ensures forall i :: 0 <= i < |points| ==> points[i].Cache() == old(points[i].Cache())
    {
      TransformAll(points, op);
    }

    /** Randomize*: the op with each point's own random draw, applied once to every point. */
    method RandomizeEach(ops: seq<Op>)
      requires Distinct(points) && |ops| == |points| && AllDrawn(ops)
      modifies points
      ensures forall i :: 0 <= i < |points| ==> points[i].Coords() == Apply(ops[i], old(points[i].Coords()))
      ensures forall i :: 0 <= i < |points| ==> points[i].Cache() == old(points[i].Cache())
    {
      TransformEach(points, ops);
    }

    /**
     * Push: every point closer than `radius` to the pusher is moved along the
     * ray from the pusher to exactly `radius` away; the others stay.
     */
    method Push(pusher: Point, radius: real, sqrt: real -> real)
      requires Distinct(points) && pusher !in points
      requires forall i :: 0 <= i < |points| ==> PushDefined(points[i].Coords(), pusher.Coords(), radius, sqrt)
      modifies points
      ensures forall i :: 0 <= i < |points| ==>
        points[i].Coords() == PushOne(old(points[i].Coords()), pusher.Coords(), radius, sqrt)
      ensures forall i :: 0 <= i < |points| ==> points[i].Cache() == old(points[i].Cache())
    {
      var i := 0;
      while i < |points|
        invariant 0 <= i <= |points|
        invariant forall j :: 0 <= j < i ==>
          points[j].Coords() == PushOne(old(points[j].Coords()), pusher.Coords(), radius, sqrt)
        invariant forall j :: i <= j < |points| ==> points[j].Coords() == old(points[j].Coords())
        invariant forall j :: 0 <= j < |points| ==> points[j].Cache() == old(points[j].Cache())
      {
        PushPoint(points[i], pusher, radius, sqrt);
        i := i + 1;
      }
    }

    /** Every "...ed" copy except Randomized*: a clone with `op` applied to each point. */
    method Transformed(op: Op) returns (r: PointList)
      requires op.Drawn()
      ensures fresh(r) && Distinct(r.points)
      ensures forall i :: 0 <= i < |r.points| ==> fresh(r.points[i])
      ensures CoordsOf(r.points) == ApplyAll(op, old(CoordsOf(points)))
      ensures forall i :: 0 <= i < |points| ==> r.points[i].Cache() == old(points[i].Cache())
    {
      r := Clone();
      r.Transform(op);
    }

    /** Randomized*: a clone with each point's own draw applied. */
    method RandomizedEach(ops: seq<Op>) returns (r: PointList)
      requires |ops| == |points| && AllDrawn(ops)
      ensures fresh(r) && Distinct(r.points) && |r.points| == |points|
      ensures forall i :: 0 <= i < |r.points| ==> fresh(r.points[i])
      ensures forall i :: 0 <= i < |points| ==>
        r.points[i].Coords() == Apply(ops[i], old(points[i].Coords())) && r.points[i].Cache() == old(points[i].Cache())
    {
      r := Clone();
      r.RandomizeEach(ops);
    }
  }

  /** The projection cache of `p` is the one Project computes for `world`. */
  predicate Projected(p: Point, world: Worlds.WorldDef)
    reads p, world
  {
    world.CZ + p.Z != 0.0 &&
    p.Scaling == world.FL / (world.CZ + p.Z) &&
    p.Px == world.CX + p.X * p.Scaling && p.Py == world.CY + p.Y * p.Scaling
  }

  /** The index Get reads: negative indices become len - index. */
  function GetIndex(len: nat, index: int): int {
    if index < 0 then len - index else index
  }

  /** For every negative index, the index Get reads is past the end of the list. */
  lemma NegativeIndexOutOfRange(len: nat, index: int)
    requires index < 0
    ensures GetIndex(len, index) > len
  {
  }
}
