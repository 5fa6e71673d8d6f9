/**
 * The older 3d point of the `wire` package (wire/point.go): coordinates only,
 * no projection cache.  Project returns the 2d point and its scale instead of
 * storing them; the transforms change the coordinates in place and their
 * "...ed" variants return a transformed copy.
 */
module WirePoints {
  import opened Geometry

  /** The camera of the package's global World (wire/world.go): focal length and centre. */
  datatype Camera = Camera(FL: real, CX: real, CY: real, CZ: real)

  /** World's initial value. */
  const World: Camera := Camera(300.0, 0.0, 0.0, 0.0)

  /**
   * Perspective projection of coordinates `v`: the scale is the focal length
   * over the depth, and the 2d point is the centre offset by x and y scaled.
   */
  function Perspective(world: Camera, v: Vec3): (r: ((real, real), real))
    requires world.CZ + v.z != 0.0
    ensures r.1 * (world.CZ + v.z) == world.FL
    ensures r.0.0 == world.CX + v.x * r.1 && r.0.1 == world.CY + v.y * r.1
  {
    var scale := world.FL / (world.CZ + v.z);
    ((world.CX + v.x * scale, world.CY + v.y * scale), scale)
  }

  /** The coordinates k times as far from the eye as `v`, along the same ray. */
  function AlongRay(world: Camera, v: Vec3, k: real): Vec3 {
    Vec3(k * v.x, k * v.y, k * (world.CZ + v.z) - world.CZ)
  }

  /**
   * Points on one ray through the eye project to the same 2d point, each
   * with a scale inversely proportional to its depth.
   */
  lemma SameRaySamePoint(world: Camera, v: Vec3, k: real)
    requires world.CZ + v.z != 0.0 && k != 0.0
    ensures world.CZ + AlongRay(world, v, k).z != 0.0
    ensures Perspective(world, AlongRay(world, v, k)).0 == Perspective(world, v).0
    ensures k * Perspective(world, AlongRay(world, v, k)).1 == Perspective(world, v).1
  {
    var d := world.CZ + v.z;
    var w := AlongRay(world, v, k);
    assert world.CZ + w.z == k * d;
    var s, t := world.FL / d, world.FL / (k * d);
    assert k * t == s by {
      assert t * (k * d) == world.FL;
      assert (k * t) * d == s * d;
    }
    assert (k * v.x) * t == v.x * s;
    assert (k * v.y) * t == v.y * s;
    assert Perspective(world, w).0.0 == Perspective(world, v).0.0;
    assert Perspective(world, w).0.1 == Perspective(world, v).0.1;
  }

  /** The transforms the wire point has: no single-axis scale, and one Randomize for all three axes. */
  predicate WireOp(op: Op) {
    match op
    case ScaleX(_) => false
    case ScaleY(_) => false
    case ScaleZ(_) => false
    case RandomizeX(_, _) => false
    case RandomizeY(_, _) => false
    case RandomizeZ(_, _) => false
    case _ => true
  }

  class Point {
    var X: real
    var Y: real
    var Z: real

    function Coords(): Vec3
      reads this
    {
      Vec3(X, Y, Z)
    }

    /** NewPoint. */
    constructor (x: real, y: real, z: real)
      ensures Coords() == Vec3(x, y, z)
    {
      X, Y, Z := x, y, z;
    }

    /** A new point at the same coordinates. */
    method Clone() returns (q: Point)
      ensures fresh(q) && q.Coords() == Coords()
    {
      q := new Point(X, Y, Z);
    }

    /** The projected 2d point and its scale, through `world`; nothing is stored. */
    method Project(world: Camera) returns (gp: (real, real), scale: real)
      requires world.CZ + Z != 0.0
      ensures (gp, scale) == Perspective(world, Coords())
    {
      scale := world.FL / (world.CZ + Z);
      gp := (world.CX + X * scale, world.CY + Y * scale);
      assert gp.0 == Perspective(world, Coords()).0.0 && gp.1 == Perspective(world, Coords()).0.1;
    }

    method TranslateX(tx: real)
      modifies this
      ensures X == old(X) + tx && Y == old(Y) && Z == old(Z)
    {
      X := X + tx;
    }

    method TranslateY(ty: real)
      modifies this
      ensures X == old(X) && Y == old(Y) + ty && Z == old(Z)
    {
      Y := Y + ty;
    }

    method TranslateZ(tz: real)
      modifies this
      ensures X == old(X) && Y == old(Y) && Z == old(Z) + tz
    {
      Z := Z + tz;
    }

    method Translate(tx: real, ty: real, tz: real)
      modifies this
      ensures X == old(X) + tx && Y == old(Y) + ty && Z == old(Z) + tz
    {
      X := X + tx;
      Y := Y + ty;
      Z := Z + tz;
    }

    /** Rotation about the x-axis by the angle whose cosine is c and sine is s. */
    method RotateX(c: real, s: real)
      modifies this
      ensures Coords() == RotX(old(Coords()), c, s)
    {
      var y := c * Y + s * Z;
      var z := c * Z - s * Y;
      Y := y;
      Z := z;
    }

    method RotateY(c: real, s: real)
      modifies this
      ensures Coords() == RotY(old(Coords()), c, s)
    {
      var x := c * X + s * Z;
      var z := c * Z - s * X;
      X := x;
      Z := z;
    }

    method RotateZ(c: real, s: real)
      modifies this
      ensures Coords() == RotZ(old(Coords()), c, s)
    {
      var y := c * Y + s * X;
      var x := c * X - s * Y;
      Y := y;
      X := x;
    }

    /** The x rotation, then the y rotation, then the z rotation. */
    method Rotate(cx: real, sx: real, cy: real, sy: real, cz: real, sz: real)
      modifies this
      ensures Coords() == RotZ(RotY(RotX(old(Coords()), cx, sx), cy, sy), cz, sz)
    {
      RotateX(cx, sx);
      RotateY(cy, sy);
      RotateZ(cz, sz);
    }

    method Scale(kx: real, ky: real, kz: real)
      modifies this
      ensures X == old(X) * kx && Y == old(Y) * ky && Z == old(Z) * kz
    {
      X := X * kx;
      Y := Y * ky;
      Z := Z * kz;
    }

    /** The same factor on every axis: Scale(k, k, k). */
    method UniScale(k: real)
      modifies this
      ensures Coords() == Geometry.Apply(Op.Scale(k, k, k), old(Coords()))
    {
      X := X * k;
      Y := Y * k;
      Z := Z * k;
    }

    /** Adds one independent draw from [-amount, amount] to each axis. */
    method Randomize(amount: real, dx: real, dy: real, dz: real)
      requires IsDraw(dx, amount) && IsDraw(dy, amount) && IsDraw(dz, amount)
      modifies this
      ensures X == old(X) + dx && Y == old(Y) + dy && Z == old(Z) + dz
    {
      X := X + dx;
      Y := Y + dy;
      Z := Z + dz;
    }

    /** The in-place method that `op` names, applied to this point. */
    method Apply(op: Op)
      requires WireOp(op) && op.Drawn()
      modifies this
      ensures Coords() == Geometry.Apply(op, old(Coords()))
    {
      match op
      case TranslateX(tx) => TranslateX(tx);
      case TranslateY(ty) => TranslateY(ty);
      case TranslateZ(tz) => TranslateZ(tz);
      case Translate(tx, ty, tz) => Translate(tx, ty, tz);
      case RotateX(c, s) => RotateX(c, s);
      case RotateY(c, s) => RotateY(c, s);
      case RotateZ(c, s) => RotateZ(c, s);
      case Rotate(cx, sx, cy, sy, cz, sz) => Rotate(cx, sx, cy, sy, cz, sz);
      case Scale(kx, ky, kz) => Scale(kx, ky, kz);
      case UniScale(k) => UniScale(k);
      case Randomize(a, dx, dy, dz) => Randomize(a, dx, dy, dz);
      case ScaleX(_) => assert false;
      case ScaleY(_) => assert false;
      case ScaleZ(_) => assert false;
      case RandomizeX(_, _) => assert false;
      case RandomizeY(_, _) => assert false;
      case RandomizeZ(_, _) => assert false;
    }

    /** Every "...ed" copy: a clone with the in-place operation applied; the receiver does not move. */
    method Transformed(op: Op) returns (q: Point)
      requires WireOp(op) && op.Drawn()
      ensures fresh(q) && q.Coords() == Geometry.Apply(op, Coords())
    {
      q := Clone();
      q.Apply(op);
    }
  }
}
