/**
 * The Points+Segments Shape of the root package: the shape that the
 * generators (shape_defs.go), the font parser (text.go) and the save/load
 * format (serialize.go) build.  Its declaration is not part of this model;
 * its members here are the ones those files call, with the behaviour their
 * call sites rely on: Points is a list of shared point objects, Segments a
 * list of segments between them, and AddSegmentByIndex joins two points
 * already in the list, an index out of range being a panic.
 */
module SegmentShapes {
  import opened Geometry
  import opened Points
  import opened PointLists
  import opened Segments

  /**
   * Segment k of `segments` joins the points at indices pairs[k].0 and
   * pairs[k].1 of `points`, and every such index is in range.
   */
  predicate Wired(points: seq<Point>, segments: seq<Segment>, pairs: seq<(int, int)>) {
    |segments| == |pairs| &&
    forall k :: 0 <= k < |pairs| ==>
      0 <= pairs[k].0 < |points| && 0 <= pairs[k].1 < |points| &&
      segments[k] == Segment(points[pairs[k].0], points[pairs[k].1])
  }

  /** Every index pair lies within [0, n). */
  predicate InRange(pairs: seq<(int, int)>, n: int) {
    forall k :: 0 <= k < |pairs| ==> 0 <= pairs[k].0 < n && 0 <= pairs[k].1 < n
  }

  /** Wiring survives appending points: the old indices still name the same points. */
  lemma WiredExtend(points: seq<Point>, more: seq<Point>, segments: seq<Segment>, pairs: seq<(int, int)>)
    requires Wired(points, segments, pairs)
    ensures Wired(points + more, segments, pairs)
  {
  }

  /** Wiring of two segment lists over the same points concatenates. */
  lemma WiredAppend(points: seq<Point>, s1: seq<Segment>, p1: seq<(int, int)>, s2: seq<Segment>, p2: seq<(int, int)>)
    requires Wired(points, s1, p1) && Wired(points, s2, p2)
    ensures Wired(points, s1 + s2, p1 + p2)
  {
  }

  /** Appending the segment between points a and b extends the wiring by the pair (a, b). */
  lemma WiredSnoc(points: seq<Point>, segments: seq<Segment>, pairs: seq<(int, int)>, a: int, b: int)
    requires Wired(points, segments, pairs) && 0 <= a < |points| && 0 <= b < |points|
    ensures Wired(points, segments + [Segment(points[a], points[b])], pairs + [(a, b)])
  {
  }

  /** The segments of an open chain through `points`: each point joined to the next. */
  function ChainSegs(points: seq<Point>): (r: seq<Segment>)
    ensures |r| == if |points| <= 1 then 0 else |points| - 1
  {
    if |points| <= 1 then [] else seq(|points| - 1, k requires 0 <= k < |points| - 1 => Segment(points[k], points[k + 1]))
  }

  /** Appending a point to a chain appends one segment, from the old last point to the new one. */
  lemma ChainSegsSnoc(points: seq<Point>, p: Point)
    requires |points| >= 1
    ensures ChainSegs(points + [p]) == ChainSegs(points) + [Segment(points[|points| - 1], p)]
  {
  }

  /** `pairs` with `offset` added to every index. */
  function Shift(pairs: seq<(int, int)>, offset: int): (r: seq<(int, int)>)
    ensures |r| == |pairs|
    ensures forall k :: 0 <= k < |pairs| ==> r[k] == (pairs[k].0 + offset, pairs[k].1 + offset)
  {
    seq(|pairs|, k requires 0 <= k < |pairs| => (pairs[k].0 + offset, pairs[k].1 + offset))
  }

  /** Segments wired into `more` are wired into `points + more` at shifted indices. */
  lemma WiredShift(points: seq<Point>, more: seq<Point>, segments: seq<Segment>, pairs: seq<(int, int)>)
    requires Wired(more, segments, pairs)
    ensures Wired(points + more, segments, Shift(pairs, |points|))
  {
  }

  class Shape {
    var Points: seq<Point>
    var Segments: seq<Segment>

    /** NewShape: no points and no segments. */
    constructor ()
      ensures Points == [] && Segments == []
    {
      Points, Segments := [], [];
    }

    /** Appends `p` itself to the points. */
    method AddPoint(p: Point)
      modifies this
      ensures Points == old(Points) + [p] && Segments == old(Segments)
    {
      Points := Points + [p];
    }

    /** Appends a new point at (x, y, z) with a zero projection cache. */
    method AddXYZ(x: real, y: real, z: real)
      modifies this
      ensures |Points| == |old(Points)| + 1 && Points[..|old(Points)|] == old(Points)
      ensures fresh(Points[|old(Points)|])
      ensures Points[|old(Points)|].Snap() == Snapshot(Vec3(x, y, z), Projection(0.0, 0.0, 0.0))
      ensures Segments == old(Segments)
    {
      var p := new Point(x, y, z);
      Points := Points + [p];
    }

    /** Appends a segment between the points at indices i and j; an index out of range panics. */
    method AddSegmentByIndex(i: int, j: int)
      requires 0 <= i < |Points| && 0 <= j < |Points|
      modifies this
      ensures Points == old(Points)
      ensures Segments == old(Segments) + [Segment(Points[i], Points[j])]
    {
      Segments := Segments + [NewSegment(Points[i], Points[j])];
    }

    /**
     * The in-place transforms the callers use (Scale, Translate, TranslateX,
     * TranslateZ, UniScale, RotateY): `op` applied once to every point.  The
     * point and segment lists themselves do not change.
     */
    method Transform(op: Op)
      requires Distinct(Points) && op.Drawn()
      modifies Points
      ensures CoordsOf(Points) == ApplyAll(op, old(CoordsOf(Points)))
      ensures forall i :: 0 <= i < |Points| ==> Points[i].Cache() == old(Points[i].Cache())
    {
      TransformAll(Points, op);
    }
  }
}
