/**
 * A line segment between two shared points (segment.go).  The segment's
 * own fields are never reassigned, so it is a value holding two references.
 *
 * Two helpers that segment.go calls are not part of the snapshot: the world
 * flag `ScaleLineWidth` and the predicate `shouldDraw`.  The first is a
 * parameter; the second is a parameter judged on the two endpoints' fields.
 */
module Segments {
  import opened Points
  import Worlds

  /** The factor Stroke scales the line width by. */
  function LineScale(scaleLineWidth: bool, a: Point, b: Point): real
    reads a, b
  {
    if scaleLineWidth then (a.Scaling + b.Scaling) / 2.0 else 1.0
  }

  datatype Segment = Segment(PointA: Point, PointB: Point)
  {
    /** A segment between new copies of both endpoints. */
    method Clone() returns (t: Segment)
      ensures fresh(t.PointA) && fresh(t.PointB) && t.PointA != t.PointB
      ensures t.PointA.Snap() == PointA.Snap() && t.PointB.Snap() == PointB.Snap()
    {
      var a := PointA.Clone();
      var b := PointB.Clone();
      t := NewSegment(a, b);
    }

    /**
     * Draws the segment when `shouldDraw` holds of its endpoints, with the
     * line width scaled for the duration of the stroke; the context's line
     * width is the same afterwards as before.  The points are not touched.
     */
    method Stroke(context: Worlds.Context, scaleLineWidth: bool, shouldDraw: (Snapshot, Snapshot) -> bool)
      modifies context
      ensures context.lineWidth == old(context.lineWidth)
      ensures context.calls == old(context.calls)
        + (if shouldDraw(PointA.Snap(), PointB.Snap()) then
             [Worlds.Call.SetLineWidth(old(context.lineWidth) * LineScale(scaleLineWidth, PointA, PointB)),
              Worlds.Call.MoveTo(PointA.Px, PointA.Py),
              Worlds.Call.LineTo(PointB.Px, PointB.Py),
              Worlds.Call.Stroke]
           else [])
        + [Worlds.Call.SetLineWidth(old(context.lineWidth))]
    {
      var lineWidth := context.GetLineWidth();
      var scale := 1.0;
      if scaleLineWidth {
        scale := (PointA.Scaling + PointB.Scaling) / 2.0;
      }
      if shouldDraw(PointA.Snap(), PointB.Snap()) {
        context.SetLineWidth(lineWidth * scale);
        context.MoveTo(PointA.Px, PointA.Py);
        context.LineTo(PointB.Px, PointB.Py);
        context.Stroke();
      }
      context.SetLineWidth(lineWidth);
      assert lineWidth * scale == old(context.lineWidth) * LineScale(scaleLineWidth, PointA, PointB);
    }
  }

  /** NewSegment: a segment holding exactly the two given references. */
  function NewSegment(a: Point, b: Point): (s: Segment)
    ensures s.PointA == a && s.PointB == b
  {
    Segment(a, b)
  }
}
