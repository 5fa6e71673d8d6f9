/**
 * The drawing context and the global camera/fog record of the root package
 * (world.go).  Go's single global `World` is an instance of `WorldDef`
 * created by its constructor; the functions that read or assign the global
 * take that instance as their receiver.
 */
module Worlds {

  /** One call made on a drawing context, in the order it was made. */
  datatype Call =
    | SetLineWidth(width: real)
    | MoveTo(x: real, y: real)
    | LineTo(x: real, y: real)
    | Stroke
    | StrokePath(points: seq<(real, real)>, closed: bool)

  /**
   * A drawing context.  The backend is not modelled: the context keeps its
   * line width and source colour and records every drawing call it receives.
   */
  class Context {
    var lineWidth: real
    var sourceR: real
    var sourceG: real
    var sourceB: real
    var calls: seq<Call>

    constructor (width: real, r: real, g: real, b: real)
      ensures lineWidth == width && calls == []
      ensures sourceR == r && sourceG == g && sourceB == b
    {
      lineWidth, calls := width, [];
      sourceR, sourceG, sourceB := r, g, b;
    }

    function GetLineWidth(): real
      reads this
    {
      lineWidth
    }

    function GetSourceRGB(): (real, real, real)
      reads this
    {
      (sourceR, sourceG, sourceB)
    }

    method SetLineWidth(width: real)
      modifies this
      ensures lineWidth == width && calls == old(calls) + [Call.SetLineWidth(width)]
      ensures sourceR == old(sourceR) && sourceG == old(sourceG) && sourceB == old(sourceB)
    {
      lineWidth := width;
      calls := calls + [Call.SetLineWidth(width)];
    }

    method MoveTo(x: real, y: real)
      modifies this
      ensures calls == old(calls) + [Call.MoveTo(x, y)]
      ensures lineWidth == old(lineWidth)
      ensures sourceR == old(sourceR) && sourceG == old(sourceG) && sourceB == old(sourceB)
    {
      calls := calls + [Call.MoveTo(x, y)];
    }

    method LineTo(x: real, y: real)
      modifies this
      ensures calls == old(calls) + [Call.LineTo(x, y)]
      ensures lineWidth == old(lineWidth)
      ensures sourceR == old(sourceR) && sourceG == old(sourceG) && sourceB == old(sourceB)
    {
      calls := calls + [Call.LineTo(x, y)];
    }

    method Stroke()
      modifies this
      ensures calls == old(calls) + [Call.Stroke]
      ensures lineWidth == old(lineWidth)
      ensures sourceR == old(sourceR) && sourceG == old(sourceG) && sourceB == old(sourceB)
    {
      calls := calls + [Call.Stroke];
    }

    method StrokePath(points: seq<(real, real)>, closed: bool)
      modifies this
      ensures calls == old(calls) + [Call.StrokePath(points, closed)]
      ensures lineWidth == old(lineWidth)
      ensures sourceR == old(sourceR) && sourceG == old(sourceG) && sourceB == old(sourceB)
    {
      calls := calls + [Call.StrokePath(points, closed)];
    }
  }

  /** The linear map of `v` from the range [a, b] onto [c, d]. */
  function Map(v: real, a: real, b: real, c: real, d: real): real
    requires a != b
  {
    c + (v - a) * (d - c) / (b - a)
  }

  /** Map sends the ends of its source range to the ends of its target range. */
  lemma MapEnds(a: real, b: real, c: real, d: real)
    requires a != b
    ensures Map(a, a, b, c, d) == c
    ensures Map(b, a, b, c, d) == d
  {
    var k, m := b - a, d - c;
    assert (k * m) / k == m by {
      assert (k * m) / k * k == k * m;
    }
  }

  /** `v` limited to the range [lo, hi]. */
  function Clamp(v: real, lo: real, hi: real): (r: real)
    requires lo <= hi
    ensures lo <= r <= hi
    ensures lo <= v <= hi ==> r == v
  {
    if v < lo then lo else if v > hi then hi else v
  }

  class WorldDef {
    var FL: real
    var CX: real
    var CY: real
    var CZ: real
    var NearZ: real
    var FarZ: real
    var Fog: bool
    var NearFog: real
    var FarFog: real
    var R: real
    var G: real
    var B: real
    var Context: Context?

    /** The initial value of the global World. */
    constructor ()
      ensures FL == 300.0 && CX == 0.0 && CY == 0.0 && CZ == 0.0
      ensures NearZ == 100.0 && FarZ == 100000.0
      ensures !Fog && NearFog == 400.0 && FarFog == 1200.0
      ensures R == 1.0 && G == 1.0 && B == 1.0
      ensures Context == null
    {
      FL, CX, CY, CZ := 300.0, 0.0, 0.0, 0.0;
      NearZ, FarZ := 100.0, 100000.0;
      Fog, NearFog, FarFog := false, 400.0, 1200.0;
      R, G, B := 1.0, 1.0, 1.0;
      Context := null;
    }

    /** Sets the drawing colour and nothing else. */
    method SetRGB(r: real, g: real, b: real)
      modifies this
      ensures R == r && G == g && B == b
      ensures FL == old(FL) && CX == old(CX) && CY == old(CY) && CZ == old(CZ)
      ensures NearZ == old(NearZ) && FarZ == old(FarZ)
      ensures Fog == old(Fog) && NearFog == old(NearFog) && FarFog == old(FarFog)
      ensures Context == old(Context)
    {
      R, G, B := r, g, b;
    }

    /**
     * Attaches the context, takes the context's current source colour as the
     * drawing colour and moves the camera; lens and clipping and fog stay.
     */
    method InitWorld(context: Context, cx: real, cy: real, cz: real)
      modifies this
      ensures Context == context
      ensures (R, G, B) == context.GetSourceRGB()
      ensures CX == cx && CY == cy && CZ == cz
      ensures FL == old(FL) && NearZ == old(NearZ) && FarZ == old(FarZ)
      ensures Fog == old(Fog) && NearFog == old(NearFog) && FarFog == old(FarFog)
    {
      Context := context;
      var (r, g, b) := context.GetSourceRGB();
      SetRGB(r, g, b);
      CX := cx;
      CY := cy;
      CZ := cz;
    }

    /** The depth of an object at `objectZ` as seen from the camera. */
    function Depth(objectZ: real): real
      reads this
    {
      objectZ + CZ
    }

    /**
     * How much of an object's colour survives the fog: 1 with fog off;
     * otherwise the depth mapped linearly from [NearFog, FarFog] onto [1, 0]
     * and clamped to [0, 1].
     */
    function FogAmount(objectZ: real): (f: real)
      reads this
      requires Fog ==> NearFog != FarFog
      ensures 0.0 <= f <= 1.0
      ensures !Fog ==> f == 1.0
    {
      if !Fog then 1.0
      else Clamp(Map(Depth(objectZ), NearFog, FarFog, 1.0, 0.0), 0.0, 1.0)
    }
  }

  /** Mapping onto [1, 0] subtracts the position within [a, b] from 1. */
  lemma MapOntoUnitDown(v: real, a: real, b: real)
    requires a != b
    ensures Map(v, a, b, 1.0, 0.0) == 1.0 - (v - a) / (b - a)
  {
    assert (v - a) * (0.0 - 1.0) == -(v - a);
    assert -(v - a) / (b - a) == -((v - a) / (b - a));
  }

  /** Nearer than the fog's start, an object is not fogged at all. */
  lemma FogClearBeforeNear(w: WorldDef, objectZ: real)
    requires w.Fog && w.NearFog < w.FarFog
    requires w.Depth(objectZ) <= w.NearFog
    ensures w.FogAmount(objectZ) == 1.0
  {
    var t := (w.Depth(objectZ) - w.NearFog) / (w.FarFog - w.NearFog);
    assert t <= 0.0;
    MapOntoUnitDown(w.Depth(objectZ), w.NearFog, w.FarFog);
  }

  /** Beyond the fog's end, an object is fully fogged. */
  lemma FogOpaqueBeyondFar(w: WorldDef, objectZ: real)
    requires w.Fog && w.NearFog < w.FarFog
    requires w.Depth(objectZ) >= w.FarFog
    ensures w.FogAmount(objectZ) == 0.0
  {
    var span := w.FarFog - w.NearFog;
    var t := (w.Depth(objectZ) - w.NearFog) / span;
    assert w.Depth(objectZ) - w.NearFog >= span;
    assert t >= 1.0;
    MapOntoUnitDown(w.Depth(objectZ), w.NearFog, w.FarFog);
  }

  /** Between the fog's start and end, the amount falls linearly from 1 to 0. */
  lemma FogLinearBetween(w: WorldDef, objectZ: real)
    requires w.Fog && w.NearFog < w.FarFog
    requires w.NearFog <= w.Depth(objectZ) <= w.FarFog
    ensures w.FogAmount(objectZ) == 1.0 - (w.Depth(objectZ) - w.NearFog) / (w.FarFog - w.NearFog)
  {
    var span := w.FarFog - w.NearFog;
    var d := w.Depth(objectZ);
    var t := (d - w.NearFog) / span;
    assert 0.0 <= t <= 1.0;
    MapOntoUnitDown(d, w.NearFog, w.FarFog);
  }

  /** With an ordered fog range, a farther object is never less fogged. */
  lemma FogNonIncreasing(w: WorldDef, z1: real, z2: real)
    requires w.Fog && w.NearFog < w.FarFog
    requires z1 <= z2
    ensures w.FogAmount(z2) <= w.FogAmount(z1)
  {
    var span := w.FarFog - w.NearFog;
    var t1 := (w.Depth(z1) - w.NearFog) / span;
    var t2 := (w.Depth(z2) - w.NearFog) / span;
    assert t1 <= t2 by {
      assert w.Depth(z1) - w.NearFog <= w.Depth(z2) - w.NearFog;
    }
    MapOntoUnitDown(w.Depth(z1), w.NearFog, w.FarFog);
    MapOntoUnitDown(w.Depth(z2), w.NearFog, w.FarFog);
  }
}
