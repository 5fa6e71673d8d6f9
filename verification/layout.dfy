/**
 * Where text.go's AsLine and AsCylinder put the letters of a string, as
 * pure functions on the letters' coordinates: the letters' points are
 * concatenated letter after letter (Flatten), AsLine shifts letter i along
 * the x-axis by its own offset, and AsCylinder pushes every letter back by
 * the radius and turns everything gathered so far about the y-axis once
 * per letter.
 */
module Layout {
  import opened Geometry
  import opened Points
  import opened PointLists
  import opened PathSeqs

  // ---------------------------------------------------------------------
  // Concatenation, letter after letter
  // ---------------------------------------------------------------------

  /** The elements of every inner sequence, one sequence after another. */
  function Flatten<T>(xss: seq<seq<T>>): seq<T> {
    if |xss| == 0 then [] else Flatten(xss[..|xss| - 1]) + xss[|xss| - 1]
  }

  /** Taking one more inner sequence appends it. */
  lemma FlattenSnoc<T>(xss: seq<seq<T>>, k: nat)
    requires k < |xss|
    ensures Flatten(xss[..k + 1]) == Flatten(xss[..k]) + xss[k]
  {
    assert xss[..k + 1][..k] == xss[..k];
  }

  /** An element of the concatenation is an element of one of the inner sequences, and back. */
  lemma {:induction false} FlattenMember<T>(xss: seq<seq<T>>, x: T)
    ensures x in Flatten(xss) <==> exists i, j :: 0 <= i < |xss| && 0 <= j < |xss[i]| && xss[i][j] == x
  {
    if |xss| > 0 {
      var n := |xss| - 1;
      FlattenMember(xss[..n], x);
      if x in Flatten(xss[..n]) {
        var i, j :| 0 <= i < n && 0 <= j < |xss[..n][i]| && xss[..n][i][j] == x;
        assert xss[i][j] == x;
      } else if x in xss[n] {
        var j :| 0 <= j < |xss[n]| && xss[n][j] == x;
        assert xss[n][j] == x;
      } else {
        forall i, j | 0 <= i < |xss| && 0 <= j < |xss[i]| ensures xss[i][j] != x {
          if i < n {
            assert xss[..n][i][j] == xss[i][j];
          } else {
            assert xss[i][j] in xss[n];
          }
        }
      }
    }
  }

  /** Every element of inner sequence i is in the concatenation. */
  lemma FlattenHas<T>(xss: seq<seq<T>>, i: nat)
    requires i < |xss|
    ensures forall j :: 0 <= j < |xss[i]| ==> xss[i][j] in Flatten(xss)
  {
    forall j | 0 <= j < |xss[i]| ensures xss[i][j] in Flatten(xss) {
      FlattenMember(xss, xss[i][j]);
    }
  }

  /** Everything in the concatenation of the first k inner sequences is in the whole concatenation. */
  lemma {:induction false} FlattenPrefixIn<T>(xss: seq<seq<T>>, k: nat)
    requires k <= |xss|
    ensures forall m :: 0 <= m < |Flatten(xss[..k])| ==> Flatten(xss[..k])[m] in Flatten(xss)
  {
    if k < |xss| {
      var front := xss[..|xss| - 1];
      assert front[..k] == xss[..k];
      FlattenPrefixIn(front, k);
    } else {
      assert xss[..k] == xss;
    }
  }

  /** With no point shared between paths, the points of paths k, k + 1, ... are outside the first k paths' points. */
  lemma FlattenApart(pss: seq<seq<Point>>, k: nat)
    requires DistinctPaths(pss) && k <= |pss|
    ensures forall i, j :: k <= i < |pss| && 0 <= j < |pss[i]| ==> pss[i][j] !in Flatten(pss[..k])
  {
    forall i, j | k <= i < |pss| && 0 <= j < |pss[i]| ensures pss[i][j] !in Flatten(pss[..k]) {
      FlattenMember(pss[..k], pss[i][j]);
      forall i', j' | 0 <= i' < k && 0 <= j' < |pss[..k][i']| ensures pss[..k][i'][j'] != pss[i][j] {
        assert pss[..k][i'] == pss[i'];
      }
    }
  }

  /** With no point shared between or within paths, the concatenated points are distinct. */
  lemma {:induction false} FlattenDistinct(pss: seq<seq<Point>>)
    requires DistinctPaths(pss)
    ensures Distinct(Flatten(pss))
  {
    if |pss| > 0 {
      var n := |pss| - 1;
      var front := pss[..n];
      assert DistinctPaths(front) by {
        forall i, j, k, l | 0 <= i < n && 0 <= j < |front[i]| && 0 <= k < n && 0 <= l < |front[k]| && (i != k || j != l)
          ensures front[i][j] != front[k][l]
        {
          assert front[i][j] == pss[i][j] && front[k][l] == pss[k][l];
        }
      }
      FlattenDistinct(front);
      FlattenApart(pss, n);
      OtherPathsOutside(pss, n);
      var a, b := Flatten(front), pss[n];
      forall i, j | 0 <= i < j < |a + b| ensures (a + b)[i] != (a + b)[j] {
        if j >= |a| && i < |a| {
          assert (a + b)[j] == b[j - |a|];
          assert a[i] in a;
        }
      }
    }
  }

  /** Applying an op to the concatenation applies it to every inner sequence. */
  lemma {:induction false} ApplyAllFlatten(op: Op, vss: seq<seq<Vec3>>)
    ensures ApplyAll(op, Flatten(vss)) == Flatten(ApplyAllPaths(op, vss))
  {
    if |vss| > 0 {
      var n := |vss| - 1;
      ApplyAllFlatten(op, vss[..n]);
      assert ApplyAllPaths(op, vss)[..n] == ApplyAllPaths(op, vss[..n]);
      assert ApplyAll(op, Flatten(vss[..n]) + vss[n]) == ApplyAll(op, Flatten(vss[..n])) + ApplyAll(op, vss[n]);
    }
  }

  /** The coordinates of concatenated paths are the paths' coordinates, concatenated. */
  lemma {:induction false} CoordsOfFlatten(pss: seq<seq<Point>>)
    ensures CoordsOf(Flatten(pss)) == Flatten(CoordsOfPaths(pss))
  {
    if |pss| > 0 {
      var n := |pss| - 1;
      CoordsOfFlatten(pss[..n]);
      assert CoordsOfPaths(pss)[..n] == CoordsOfPaths(pss[..n]);
      assert CoordsOf(Flatten(pss[..n]) + pss[n]) == CoordsOf(Flatten(pss[..n])) + CoordsOf(pss[n]);
    }
  }

  // ---------------------------------------------------------------------
  // AsLine
  // ---------------------------------------------------------------------

  /** The x-offset AsLine gives letter i first, placing it one letter width plus `spacing` after letter i - 1. */
  function LetterShift(i: nat, spacing: real): real {
    50.0 + (100.0 + spacing) * (i as real)
  }

  /** The x-offset AsLine then gives the whole line of n letters. */
  function LineShift(n: nat, spacing: real): real {
    -(100.0 + spacing) * (n as real) / 2.0 + spacing
  }

  /** Where letter i of n ends up: both offsets together. */
  function LineOffset(i: nat, n: nat, spacing: real): real {
    LetterShift(i, spacing) + LineShift(n, spacing)
  }

  /** The first k letters, each shifted by its LetterShift, concatenated. */
  function Spread(vss: seq<seq<Vec3>>, k: nat, spacing: real): seq<Vec3>
    requires k <= |vss|
  {
    Flatten(seq(k, i requires 0 <= i < k => ApplyAll(TranslateX(LetterShift(i, spacing)), vss[i])))
  }

  /** The letters laid out on one line: each at its LineOffset, concatenated. */
  function LineCoords(vss: seq<seq<Vec3>>, spacing: real): seq<Vec3> {
    Flatten(seq(|vss|, i requires 0 <= i < |vss| => ApplyAll(TranslateX(LineOffset(i, |vss|, spacing)), vss[i])))
  }

  /** Spreading one more letter appends that letter, shifted. */
  lemma SpreadStep(vss: seq<seq<Vec3>>, k: nat, spacing: real)
    requires k < |vss|
    ensures Spread(vss, k + 1, spacing) == Spread(vss, k, spacing) + ApplyAll(TranslateX(LetterShift(k, spacing)), vss[k])
  {
    var a := seq(k + 1, i requires 0 <= i < k + 1 => ApplyAll(TranslateX(LetterShift(i, spacing)), vss[i]));
    assert a[..k] == seq(k, i requires 0 <= i < k => ApplyAll(TranslateX(LetterShift(i, spacing)), vss[i]));
  }

  /** Shifting the spread letters by LineShift puts each at its LineOffset. */
  lemma SpreadThenShift(vss: seq<seq<Vec3>>, spacing: real)
    ensures ApplyAll(TranslateX(LineShift(|vss|, spacing)), Spread(vss, |vss|, spacing)) == LineCoords(vss, spacing)
  {
    var n := |vss|;
    var spread := seq(n, i requires 0 <= i < n => ApplyAll(TranslateX(LetterShift(i, spacing)), vss[i]));
    var placed := seq(n, i requires 0 <= i < n => ApplyAll(TranslateX(LineOffset(i, n, spacing)), vss[i]));
    ApplyAllFlatten(TranslateX(LineShift(n, spacing)), spread);
    forall i | 0 <= i < n ensures ApplyAll(TranslateX(LineShift(n, spacing)), spread[i]) == placed[i] {
      forall j | 0 <= j < |vss[i]|
        ensures Apply(TranslateX(LineShift(n, spacing)), Apply(TranslateX(LetterShift(i, spacing)), vss[i][j]))
             == Apply(TranslateX(LineOffset(i, n, spacing)), vss[i][j])
      {
      }
    }
    assert ApplyAllPaths(TranslateX(LineShift(n, spacing)), spread) == placed;
  }

  /**
   * The layout of AsLine: consecutive letters, 100 units wide, sit
   * 100 + spacing apart, leaving `spacing` between them, and the line is
   * symmetric about x = spacing / 2 rather than about the origin.
   */
  lemma LineLayout(n: nat, spacing: real)
    ensures forall i :: 0 <= i && i + 1 < n ==> LineOffset(i + 1, n, spacing) - LineOffset(i, n, spacing) == 100.0 + spacing
    ensures forall i :: 0 <= i < n ==> LineOffset(i, n, spacing) + LineOffset(n - 1 - i, n, spacing) == spacing
  {
    forall i | 0 <= i < n ensures LineOffset(i, n, spacing) + LineOffset(n - 1 - i, n, spacing) == spacing {
      assert (i as real) + ((n - 1 - i) as real) == (n as real) - 1.0;
      calc {
        LineOffset(i, n, spacing) + LineOffset(n - 1 - i, n, spacing);
        100.0 + (100.0 + spacing) * ((i as real) + ((n - 1 - i) as real)) + 2.0 * LineShift(n, spacing);
        100.0 + (100.0 + spacing) * ((n as real) - 1.0) - (100.0 + spacing) * (n as real) + 2.0 * spacing;
      }
    }
  }

  // ---------------------------------------------------------------------
  // AsCylinder
  // ---------------------------------------------------------------------

  /** `op` applied m times over. */
  function Turned(m: nat, op: Op, vs: seq<Vec3>): (r: seq<Vec3>)
    ensures |r| == |vs|
  {
    if m == 0 then vs else ApplyAll(op, Turned(m - 1, op, vs))
  }

  /**
   * The first k letters once the loop of AsCylinder has gathered them:
   * letter i has been turned once for itself and once for every later one
   * of the k, k - i times in all.
   */
  function Wrapped(vss: seq<seq<Vec3>>, k: nat, op: Op): seq<Vec3>
    requires k <= |vss|
  {
    Flatten(seq(k, i requires 0 <= i < k => Turned(k - i, op, vss[i])))
  }

  /** The letters of Wrapped(vss, k + 1, op) before letter k are those of Wrapped(vss, k, op), turned once more. */
  lemma WrappedTurnsFront(vss: seq<seq<Vec3>>, k: nat, op: Op)
    requires k < |vss|
    ensures seq(k + 1, i requires 0 <= i < k + 1 => Turned(k + 1 - i, op, vss[i]))[..k] ==
      ApplyAllPaths(op, seq(k, i requires 0 <= i < k => Turned(k - i, op, vss[i])))
  {
  }

  /** Turning a concatenation turns each part. */
  lemma ApplyAllAppend(op: Op, a: seq<Vec3>, b: seq<Vec3>)
    ensures ApplyAll(op, a + b) == ApplyAll(op, a) + ApplyAll(op, b)
  {
  }

  /** Gathering letter k and turning everything gives the first k + 1 letters wrapped. */
  lemma WrappedStep(vss: seq<seq<Vec3>>, k: nat, op: Op)
    requires k < |vss|
    ensures ApplyAll(op, Wrapped(vss, k, op) + vss[k]) == Wrapped(vss, k + 1, op)
  {
    var a := seq(k, i requires 0 <= i < k => Turned(k - i, op, vss[i]));
    var b := seq(k + 1, i requires 0 <= i < k + 1 => Turned(k + 1 - i, op, vss[i]));
    ApplyAllFlatten(op, a);
    ApplyAllAppend(op, Flatten(a), vss[k]);
    WrappedTurnsFront(vss, k, op);
    assert b[k] == ApplyAll(op, Turned(0, op, vss[k]));
    assert Flatten(b) == Flatten(b[..k]) + b[k];
  }

  /** The squared distance from the y-axis. */
  function AxisDistSq(v: Vec3): real {
    v.x * v.x + v.z * v.z
  }

  lemma RotYKeepsAxisDist(v: Vec3, c: real, s: real)
    requires c * c + s * s == 1.0
    ensures RotY(v, c, s).y == v.y && AxisDistSq(RotY(v, c, s)) == AxisDistSq(v)
  {
    var r := RotY(v, c, s);
    PlaneRotationKeepsNorm(v.x, v.z, c, s, r.x, r.z);
  }

  /**
   * Turning about the y-axis by a cosine and sine on the unit circle, any
   * number of times, keeps every point's height and its distance from the
   * y-axis: the letters stay on the cylinder they were pushed onto.
   */
  lemma {:induction false} TurnedKeepsRadius(m: nat, c: real, s: real, vs: seq<Vec3>)
    requires c * c + s * s == 1.0
    ensures forall j :: 0 <= j < |vs| ==> Turned(m, RotateY(c, s), vs)[j].y == vs[j].y
    ensures forall j :: 0 <= j < |vs| ==> AxisDistSq(Turned(m, RotateY(c, s), vs)[j]) == AxisDistSq(vs[j])
  {
    if m > 0 {
      TurnedKeepsRadius(m - 1, c, s, vs);
      var prev := Turned(m - 1, RotateY(c, s), vs);
      forall j | 0 <= j < |vs| ensures RotY(prev[j], c, s).y == prev[j].y && AxisDistSq(RotY(prev[j], c, s)) == AxisDistSq(prev[j]) {
        RotYKeepsAxisDist(prev[j], c, s);
      }
    }
  }

  /** A letter pushed back by `radius` from the plane z = 0 lies at squared distance x^2 + radius^2 from the y-axis. */
  lemma PushedBackRadius(vs: seq<Vec3>, radius: real)
    requires forall j :: 0 <= j < |vs| ==> vs[j].z == 0.0
    ensures forall j :: 0 <= j < |vs| ==>
      AxisDistSq(ApplyAll(TranslateZ(-radius), vs)[j]) == vs[j].x * vs[j].x + radius * radius
  {
  }
}
