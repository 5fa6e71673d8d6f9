/**
 * A 3d point of the root package (point.go): its coordinates plus the
 * projection cache (Px, Py, Scaling) that Project fills in.  Points are
 * objects: lists and segments share them by reference.
 */
module Points {
  import opened Geometry
  import Worlds

  /** The projection cache of a point. */
  datatype Projection = Projection(px: real, py: real, scaling: real)

  /** All six fields of a point at one moment. */
  datatype Snapshot = Snapshot(coords: Vec3, cache: Projection)

  class Point {
    var X: real
    var Y: real
    var Z: real
    var Px: real
    var Py: real
    var Scaling: real

    function Coords(): Vec3
      reads this
    {
      Vec3(X, Y, Z)
    }

    function Cache(): Projection
      reads this
    {
      Projection(Px, Py, Scaling)
    }

    function Snap(): Snapshot
      reads this
    {
      Snapshot(Coords(), Cache())
    }

    /** NewPoint: the given coordinates and an all-zero projection cache. */
    constructor (x: real, y: real, z: real)
      ensures Coords() == Vec3(x, y, z)
      ensures Cache() == Projection(0.0, 0.0, 0.0)
    {
      X, Y, Z := x, y, z;
      Px, Py, Scaling := 0.0, 0.0, 0.0;
    }

    /** A new point with all six fields of this one. */
    method Clone() returns (q: Point)
      ensures fresh(q)
      ensures q.Snap() == Snap()
    {
      q := new Point(X, Y, Z);
      q.Px, q.Py, q.Scaling := Px, Py, Scaling;
    }

    /**
     * Perspective projection through the camera of `world`: the scale is the
     * focal length over the depth, and the cache gets the scaled position
     * offset by the camera centre.  The coordinates do not move.
     */
    method Project(world: Worlds.WorldDef)
      requires world.CZ + Z != 0.0
      modifies this
      ensures Coords() == old(Coords())
      ensures Scaling == world.FL / (world.CZ + Z)
      ensures Px == world.CX + X * Scaling && Py == world.CY + Y * Scaling
    {
      var scale := world.FL / (world.CZ + Z);
      Px := world.CX + X * scale;
      Py := world.CY + Y * scale;
      Scaling := scale;
    }

    /** Distance to `other`, with `sqrt` the square root the source calls. */
    function Distance(other: Point, sqrt: real -> real): real
      reads this, other
    {
      sqrt(DistSq(Coords(), other.Coords()))
    }

    /** Whether the point's depth lies within the clipping range, both ends included. */
    predicate Visible(world: Worlds.WorldDef): (b: bool)
      reads this, world
      ensures b <==> world.NearZ <= world.Depth(Z) <= world.FarZ
    {
      if Z + world.CZ < world.NearZ then false
      else if Z + world.CZ > world.FarZ then false
      else true
    }

    method TranslateX(tx: real)
      modifies this
      ensures X == old(X) + tx && Y == old(Y) && Z == old(Z)
      ensures Cache() == old(Cache())
    {
      X := X + tx;
    }

    method TranslateY(ty: real)
      modifies this
      ensures X == old(X) && Y == old(Y) + ty && Z == old(Z)
      ensures Cache() == old(Cache())
    {
      Y := Y + ty;
    }

    method TranslateZ(tz: real)
      modifies this
      ensures X == old(X) && Y == old(Y) && Z == old(Z) + tz
      ensures Cache() == old(Cache())
    {
      Z := Z + tz;
    }

    method Translate(tx: real, ty: real, tz: real)
      modifies this
      ensures X == old(X) + tx && Y == old(Y) + ty && Z == old(Z) + tz
      ensures Cache() == old(Cache())
    {
      X := X + tx;
      Y := Y + ty;
      Z := Z + tz;
    }

    /** Rotation about the x-axis by the angle whose cosine is c and sine is s. */
    method RotateX(c: real, s: real)
      modifies this
      ensures Coords() == RotX(old(Coords()), c, s)
      ensures Cache() == old(Cache())
    {
      var y := c * Y + s * Z;
      var z := c * Z - s * Y;
      Y := y;
      Z := z;
    }

    method RotateY(c: real, s: real)
      modifies this
      ensures Coords() == RotY(old(Coords()), c, s)
      ensures Cache() == old(Cache())
    {
      var x := c * X + s * Z;
      var z := c * Z - s * X;
      X := x;
      Z := z;
    }

    method RotateZ(c: real, s: real)
      modifies this
      ensures Coords() == RotZ(old(Coords()), c, s)
      ensures Cache() == old(Cache())
    {
      var y := c * Y + s * X;
      var x := c * X - s * Y;
      Y := y;
      X := x;
    }

    /** The x rotation, then the y rotation, then the z rotation. */
    method Rotate(cx: real, sx: real, cy: real, sy: real, cz: real, sz: real)
      modifies this
      ensures Coords() == RotZ(RotY(RotX(old(Coords()), cx, sx), cy, sy), cz, sz)
      ensures Cache() == old(Cache())
    {
      RotateX(cx, sx);
      RotateY(cy, sy);
      RotateZ(cz, sz);
    }

    method ScaleX(k: real)
      modifies this
      ensures X == old(X) * k && Y == old(Y) && Z == old(Z)
      ensures Cache() == old(Cache())
    {
      X := X * k;
    }

    method ScaleY(k: real)
      modifies this
      ensures X == old(X) && Y == old(Y) * k && Z == old(Z)
      ensures Cache() == old(Cache())
    {
      Y := Y * k;
    }

    method ScaleZ(k: real)
      modifies this
      ensures X == old(X) && Y == old(Y) && Z == old(Z) * k
      ensures Cache() == old(Cache())
    {
      Z := Z * k;
    }

    method Scale(kx: real, ky: real, kz: real)
      modifies this
      ensures X == old(X) * kx && Y == old(Y) * ky && Z == old(Z) * kz
      ensures Cache() == old(Cache())
    {
      X := X * kx;
      Y := Y * ky;
      Z := Z * kz;
    }

    method UniScale(k: real)
      modifies this
      ensures X == old(X) * k && Y == old(Y) * k && Z == old(Z) * k
      ensures Cache() == old(Cache())
    {
      X := X * k;
      Y := Y * k;
      Z := Z * k;
    }

    /** Adds `d`, the value drawn from [-amount, amount], to X. */
    method RandomizeX(amount: real, d: real)
      requires IsDraw(d, amount)
      modifies this
      ensures X == old(X) + d && Y == old(Y) && Z == old(Z)
      ensures Cache() == old(Cache())
    {
      X := X + d;
    }

    method RandomizeY(amount: real, d: real)
      requires IsDraw(d, amount)
      modifies this
      ensures X == old(X) && Y == old(Y) + d && Z == old(Z)
      ensures Cache() == old(Cache())
    {
      Y := Y + d;
    }

    method RandomizeZ(amount: real, d: real)
      requires IsDraw(d, amount)
      modifies this
      ensures X == old(X) && Y == old(Y) && Z == old(Z) + d
      ensures Cache() == old(Cache())
    {
      Z := Z + d;
    }

    /** Adds one independent draw from [-amount, amount] to each axis. */
    method Randomize(amount: real, dx: real, dy: real, dz: real)
      requires IsDraw(dx, amount) && IsDraw(dy, amount) && IsDraw(dz, amount)
      modifies this
      ensures X == old(X) + dx && Y == old(Y) + dy && Z == old(Z) + dz
      ensures Cache() == old(Cache())
    {
      X := X + dx;
      Y := Y + dy;
      Z := Z + dz;
    }

    /** The in-place method that `op` names, applied to this point. */
    method Apply(op: Op)
      requires op.Drawn()
      modifies this
      ensures Coords() == Geometry.Apply(op, old(Coords()))
      ensures Cache() == old(Cache())
    {
      match op
      case TranslateX(tx) => TranslateX(tx);
      case TranslateY(ty) => TranslateY(ty);
      case TranslateZ(tz) => TranslateZ(tz);
      case Translate(tx, ty, tz) => Translate(tx, ty, tz);
      case RotateX(c, s) => RotateX(c, s);
      case RotateY(c, s) => RotateY(c, s);
      case RotateZ(c, s) => RotateZ(c, s);
      case Rotate(cx, sx, cy, sy, cz, sz) => Rotate(cx, sx, cy, sy, cz, sz);
      case ScaleX(k) => ScaleX(k);
      case ScaleY(k) => ScaleY(k);
      case ScaleZ(k) => ScaleZ(k);
      case Scale(kx, ky, kz) => Scale(kx, ky, kz);
      case UniScale(k) => UniScale(k);
      case RandomizeX(a, d) => RandomizeX(a, d);
      case RandomizeY(a, d) => RandomizeY(a, d);
      case RandomizeZ(a, d) => RandomizeZ(a, d);
      case Randomize(a, dx, dy, dz) => Randomize(a, dx, dy, dz);
    }

    /**
     * Every "...ed" copy except ScaledZ: a clone with the in-place operation
     * applied to it.  The receiver is not modified.
     */
    method Transformed(op: Op) returns (q: Point)
      requires op.Drawn()
      ensures fresh(q)
      ensures q.Coords() == Geometry.Apply(op, Coords()) && q.Cache() == Cache()
    {
      q := Clone();
      q.Apply(op);
    }

    /** ScaledZ as written: the clone is scaled on the y-axis, not the z-axis. */
    method ScaledZ(k: real) returns (q: Point)
      ensures fresh(q)
      ensures q.Coords() == Geometry.Apply(Op.ScaleY(k), Coords()) && q.Cache() == Cache()
    {
      q := Clone();
      q.ScaleY(k);
    }

    /** ScaledZ as its documentation describes it: the clone scaled on the z-axis. */
    method ScaledZIntended(k: real) returns (q: Point)
      ensures fresh(q)
      ensures q.X == X && q.Y == Y && q.Z == Z * k && q.Cache() == Cache()
    {
      q := Clone();
      q.ScaleZ(k);
    }
  }

  /** With a true square root, Distance is the euclidean distance and is symmetric. */
  lemma DistanceIsEuclidean(p: Point, q: Point, sqrt: real -> real)
    requires IsSqrt(sqrt)
    ensures 0.0 <= p.Distance(q, sqrt)
    ensures p.Distance(q, sqrt) * p.Distance(q, sqrt) == DistSq(p.Coords(), q.Coords())
    ensures p.Distance(q, sqrt) == q.Distance(p, sqrt)
  {
    DistSqSymmetric(p.Coords(), q.Coords());
  }

  /** The copy ScaledZ returns differs from a z-scaled copy whenever y and z can both change. */
  lemma ScaledZScalesTheWrongAxis()
    ensures Apply(Op.ScaleY(2.0), Vec3(0.0, 1.0, 1.0)) == Vec3(0.0, 2.0, 1.0)
    ensures Apply(Op.ScaleZ(2.0), Vec3(0.0, 1.0, 1.0)) == Vec3(0.0, 1.0, 2.0)
  {
  }
}
