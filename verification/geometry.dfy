/**
 * Value-level algebra shared by both generations of the wireframe model:
 * a 3d coordinate triple and the per-point transforms that every point,
 * point list, path list and shape applies in place.
 *
 * Cosines and sines are not computed here: a rotation by an angle is given
 * by the pair (c, s) = (cos angle, sin angle) that the caller computed.
 * A random offset is given by the value the random source drew.
 */
module Geometry {

  datatype Vec3 = Vec3(x: real, y: real, z: real)

  function Abs(a: real): real { if a < 0.0 then -a else a }

  /** `d` is a value that random.FloatRange(-amount, amount) can return. */
  predicate IsDraw(d: real, amount: real) {
    -Abs(amount) <= d <= Abs(amount)
  }

  /** A per-point transform, one constructor per in-place point method. */
  datatype Op =
    | TranslateX(tx: real)
    | TranslateY(ty: real)
    | TranslateZ(tz: real)
    | Translate(tx: real, ty: real, tz: real)
    | RotateX(cx: real, sx: real)
    | RotateY(cy: real, sy: real)
    | RotateZ(cz: real, sz: real)
    | Rotate(cx: real, sx: real, cy: real, sy: real, cz: real, sz: real)
    | ScaleX(kx: real)
    | ScaleY(ky: real)
    | ScaleZ(kz: real)
    | Scale(kx: real, ky: real, kz: real)
    | UniScale(k: real)
    | RandomizeX(amount: real, dx: real)
    | RandomizeY(amount: real, dy: real)
    | RandomizeZ(amount: real, dz: real)
    | Randomize(amount: real, dx: real, dy: real, dz: real)
  {
    /** The random offsets of a Randomize op were drawn from [-amount, amount]. */
    predicate Drawn() {
      match this
      case RandomizeX(a, d) => IsDraw(d, a)
      case RandomizeY(a, d) => IsDraw(d, a)
      case RandomizeZ(a, d) => IsDraw(d, a)
      case Randomize(a, dx, dy, dz) => IsDraw(dx, a) && IsDraw(dy, a) && IsDraw(dz, a)
      case _ => true
    }

    /** A rotation whose (c, s) pairs lie on the unit circle. */
    predicate IsRigidRotation() {
      match this
      case RotateX(c, s) => c * c + s * s == 1.0
      case RotateY(c, s) => c * c + s * s == 1.0
      case RotateZ(c, s) => c * c + s * s == 1.0
      case _ => false
    }
  }

  function RotX(v: Vec3, c: real, s: real): Vec3 {
    Vec3(v.x, c * v.y + s * v.z, c * v.z - s * v.y)
  }

  function RotY(v: Vec3, c: real, s: real): Vec3 {
    Vec3(c * v.x + s * v.z, v.y, c * v.z - s * v.x)
  }

  function RotZ(v: Vec3, c: real, s: real): Vec3 {
    Vec3(c * v.x - s * v.y, c * v.y + s * v.x, v.z)
  }

  /** The coordinates a point has after `op` is applied to coordinates `v`. */
  function Apply(op: Op, v: Vec3): Vec3 {
    match op
    case TranslateX(tx) => v.(x := v.x + tx)
    case TranslateY(ty) => v.(y := v.y + ty)
    case TranslateZ(tz) => v.(z := v.z + tz)
    case Translate(tx, ty, tz) => Vec3(v.x + tx, v.y + ty, v.z + tz)
    case RotateX(c, s) => RotX(v, c, s)
    case RotateY(c, s) => RotY(v, c, s)
    case RotateZ(c, s) => RotZ(v, c, s)
    case Rotate(cx, sx, cy, sy, cz, sz) => RotZ(RotY(RotX(v, cx, sx), cy, sy), cz, sz)
    case ScaleX(k) => v.(x := v.x * k)
    case ScaleY(k) => v.(y := v.y * k)
    case ScaleZ(k) => v.(z := v.z * k)
    case Scale(kx, ky, kz) => Vec3(v.x * kx, v.y * ky, v.z * kz)
    case UniScale(k) => Vec3(v.x * k, v.y * k, v.z * k)
    case RandomizeX(_, d) => v.(x := v.x + d)
    case RandomizeY(_, d) => v.(y := v.y + d)
    case RandomizeZ(_, d) => v.(z := v.z + d)
    case Randomize(_, dx, dy, dz) => Vec3(v.x + dx, v.y + dy, v.z + dz)
  }

  function NormSq(v: Vec3): real { v.x * v.x + v.y * v.y + v.z * v.z }

  /** Squared euclidean distance between two coordinate triples. */
  function DistSq(a: Vec3, b: Vec3): (d: real)
    ensures d >= 0.0
  {
    var dx, dy, dz := b.x - a.x, b.y - a.y, b.z - a.z;
    assert dx * dx >= 0.0 && dy * dy >= 0.0 && dz * dz >= 0.0;
    dx * dx + dy * dy + dz * dz
  }

  /**
   * Where PointList.Push moves coordinates `v` that lie within reach of the
   * pusher at `c`: shifted to the pusher's frame, scaled by `k`, shifted back.
   */
  function PushedAway(v: Vec3, c: Vec3, k: real): (r: Vec3)
    ensures r == Apply(Translate(c.x, c.y, c.z), Apply(UniScale(k), Apply(Translate(-c.x, -c.y, -c.z), v)))
  {
    Vec3(c.x + (v.x - c.x) * k, c.y + (v.y - c.y) * k, c.z + (v.z - c.z) * k)
  }

  /** Scaling about `c` by `k` multiplies the squared distance to `c` by k*k. */
  lemma PushedAwayScalesDistance(v: Vec3, c: Vec3, k: real)
    ensures DistSq(c, PushedAway(v, c, k)) == k * k * DistSq(c, v)
  {
    var dx, dy, dz := v.x - c.x, v.y - c.y, v.z - c.z;
    assert (dx * k) * (dx * k) == k * k * (dx * dx);
    assert (dy * k) * (dy * k) == k * k * (dy * dy);
    assert (dz * k) * (dz * k) == k * k * (dz * dz);
  }

  /**
   * A point at distance `d` (d != 0) scaled about `c` by radius / d ends
   * exactly `radius` away from `c`.
   */
  lemma PushedAwayLandsOnRadius(v: Vec3, c: Vec3, d: real, radius: real)
    requires d != 0.0 && d * d == DistSq(c, v)
    ensures DistSq(c, PushedAway(v, c, radius / d)) == radius * radius
  {
    var k := radius / d;
    PushedAwayScalesDistance(v, c, k);
    assert k * k * (d * d) == radius * radius;
  }

  lemma DistSqSymmetric(a: Vec3, b: Vec3)
    ensures DistSq(a, b) == DistSq(b, a)
  {
    assert (b.x - a.x) * (b.x - a.x) == (a.x - b.x) * (a.x - b.x);
    assert (b.y - a.y) * (b.y - a.y) == (a.y - b.y) * (a.y - b.y);
    assert (b.z - a.z) * (b.z - a.z) == (a.z - b.z) * (a.z - b.z);
  }

  /** `sqrt` returns the non-negative square root of every non-negative real. */
  ghost predicate IsSqrt(sqrt: real -> real) {
    forall a :: 0.0 <= a ==> 0.0 <= sqrt(a) && sqrt(a) * sqrt(a) == a
  }

  /** The op applied at every index of a sequence of coordinates. */
  function ApplyAll(op: Op, vs: seq<Vec3>): (r: seq<Vec3>)
    ensures |r| == |vs|
    ensures forall i :: 0 <= i < |vs| ==> r[i] == Apply(op, vs[i])
  {
    seq(|vs|, i requires 0 <= i < |vs| => Apply(op, vs[i]))
  }

  /** Translating along X, then Y, then Z is the same as one Translate. */
  lemma TranslateComposes(v: Vec3, tx: real, ty: real, tz: real)
    ensures Apply(TranslateZ(tz), Apply(TranslateY(ty), Apply(TranslateX(tx), v)))
         == Apply(Translate(tx, ty, tz), v)
  {
  }

  /** Translating by the opposite offsets undoes a translation. */
  lemma TranslateInverse(v: Vec3, tx: real, ty: real, tz: real)
    ensures Apply(Translate(-tx, -ty, -tz), Apply(Translate(tx, ty, tz), v)) == v
  {
  }

  /** UniScale(k) is Scale(k, k, k). */
  lemma UniScaleIsScale(v: Vec3, k: real)
    ensures Apply(UniScale(k), v) == Apply(Scale(k, k, k), v)
  {
  }

  /** Scaling by k and then by 1/k restores the point, for k other than 0. */
  lemma UniScaleInverse(v: Vec3, k: real)
    requires k != 0.0
    ensures Apply(UniScale(1.0 / k), Apply(UniScale(k), v)) == v
  {
    assert v.x * k * (1.0 / k) == v.x;
    assert v.y * k * (1.0 / k) == v.y;
    assert v.z * k * (1.0 / k) == v.z;
  }

  /** Each rotation keeps its own axis coordinate and changes the other two only. */
  lemma RotationKeepsAxis(v: Vec3, c: real, s: real)
    ensures Apply(RotateX(c, s), v).x == v.x
    ensures Apply(RotateY(c, s), v).y == v.y
    ensures Apply(RotateZ(c, s), v).z == v.z
  {
  }

  /** A rotation on the unit circle keeps the distance to the origin. */
  lemma RotationKeepsNorm(v: Vec3, c: real, s: real)
    requires c * c + s * s == 1.0
    ensures NormSq(RotX(v, c, s)) == NormSq(v)
    ensures NormSq(RotY(v, c, s)) == NormSq(v)
    ensures NormSq(RotZ(v, c, s)) == NormSq(v)
  {
    RotXKeepsNorm(v, c, s);
    RotYKeepsNorm(v, c, s);
    RotZKeepsNorm(v, c, s);
  }

  lemma RotXKeepsNorm(v: Vec3, c: real, s: real)
    requires c * c + s * s == 1.0
    ensures NormSq(RotX(v, c, s)) == NormSq(v)
  {
    var r := RotX(v, c, s);
    PlaneRotationKeepsNorm(v.y, v.z, c, s, r.y, r.z);
    assert NormSq(r) == v.x * v.x + (r.y * r.y + r.z * r.z);
  }

  lemma RotYKeepsNorm(v: Vec3, c: real, s: real)
    requires c * c + s * s == 1.0
    ensures NormSq(RotY(v, c, s)) == NormSq(v)
  {
    var r := RotY(v, c, s);
    PlaneRotationKeepsNorm(v.x, v.z, c, s, r.x, r.z);
    assert NormSq(r) == v.y * v.y + (r.x * r.x + r.z * r.z);
  }

  lemma RotZKeepsNorm(v: Vec3, c: real, s: real)
    requires c * c + s * s == 1.0
    ensures NormSq(RotZ(v, c, s)) == NormSq(v)
  {
    var r := RotZ(v, c, s);
    PlaneRotationKeepsNorm(v.y, v.x, c, s, r.y, r.x);
    assert NormSq(r) == v.z * v.z + (r.y * r.y + r.x * r.x);
  }

  /** (p, q), the plane point (a, b) turned by (c, s) on the unit circle, is as far from the origin as (a, b). */
  lemma PlaneRotationKeepsNorm(a: real, b: real, c: real, s: real, p: real, q: real)
    requires c * c + s * s == 1.0 && p == c * a + s * b && q == c * b - s * a
    ensures p * p + q * q == a * a + b * b
  {
    calc {
      p * p + q * q;
      (c * a + s * b) * (c * a + s * b) + (c * b - s * a) * (c * b - s * a);
      (c * c + s * s) * (a * a) + (c * c + s * s) * (b * b);
      a * a + b * b;
    }
  }

  /** Rotating by (c, -s) undoes a rotation by (c, s) on the unit circle. */
  lemma RotationInverse(v: Vec3, c: real, s: real)
    requires c * c + s * s == 1.0
    ensures RotX(RotX(v, c, s), c, -s) == v
    ensures RotY(RotY(v, c, s), c, -s) == v
    ensures RotZ(RotZ(v, c, s), c, -s) == v
  {
    RotXInverse(v, c, s);
    RotYInverse(v, c, s);
    RotZInverse(v, c, s);
  }

  lemma RotXInverse(v: Vec3, c: real, s: real)
    requires c * c + s * s == 1.0
    ensures RotX(RotX(v, c, s), c, -s) == v
  {
    var r := RotX(v, c, s);
    PlaneRotationUndo(v.y, v.z, c, s, r.y, r.z);
  }

  lemma RotYInverse(v: Vec3, c: real, s: real)
    requires c * c + s * s == 1.0
    ensures RotY(RotY(v, c, s), c, -s) == v
  {
    var r := RotY(v, c, s);
    PlaneRotationUndo(v.x, v.z, c, s, r.x, r.z);
  }

  lemma RotZInverse(v: Vec3, c: real, s: real)
    requires c * c + s * s == 1.0
    ensures RotZ(RotZ(v, c, s), c, -s) == v
  {
    var r := RotZ(v, c, s);
    PlaneRotationUndo(v.y, v.x, c, s, r.y, r.x);
  }

  /** Turning (p, q), the point (a, b) turned by (c, s), by (c, -s) gives back (a, b). */
  lemma PlaneRotationUndo(a: real, b: real, c: real, s: real, p: real, q: real)
    requires c * c + s * s == 1.0 && p == c * a + s * b && q == c * b - s * a
    ensures c * p + -s * q == a
    ensures c * q - -s * p == b
  {
    calc {
      c * p + -s * q;
      c * (c * a + s * b) - s * (c * b - s * a);
      (c * c + s * s) * a;
      a;
    }
    calc {
      c * q - -s * p;
      c * (c * b - s * a) + s * (c * a + s * b);
      (c * c + s * s) * b;
      b;
    }
  }
}
