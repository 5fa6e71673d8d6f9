/**
 * The 3d text of text.go: ParseChar turns one character of a stroke font
 * into a Points+Segments shape, NewString keeps one such shape per
 * character, and AsLine and AsCylinder lay the letters out and gather
 * their points and segments into one shape.  The font tables and the
 * string functions ParseChar reads them with are in the Glyphs module.
 */
module Text {
  import opened Geometry
  import opened Points
  import opened PointLists
  import opened PathSeqs
  import opened SegmentShapes
  import opened ShapeIndices
  import opened ShapeDefs
  import opened Segments
  import opened Glyphs
  import opened Layout

  // ---------------------------------------------------------------------
  // ParseChar
  // ---------------------------------------------------------------------

  /** One more point on a shifted open chain adds the segment from the old last point to it. */
  lemma ShiftedChainSnoc(n: nat, offset: int)
    requires n >= 1
    ensures Shift(ChainPairs(n + 1), offset) == Shift(ChainPairs(n), offset) + [(offset + n - 1, offset + n)]
  {
    var l, r := Shift(ChainPairs(n + 1), offset), Shift(ChainPairs(n), offset) + [(offset + n - 1, offset + n)];
    assert |l| == |r|;
    forall k | 0 <= k < |l| ensures l[k] == r[k] {
      if k < n - 1 {
        assert ChainPairs(n + 1)[k] == ChainPairs(n)[k];
      }
    }
  }

  /**
   * The wiring after token i of a stroke that starts at point index - i:
   * the first token adds a point and no segment, every later one the point
   * and the segment from the point before it.
   */
  lemma TokenWired(points: seq<Point>, p: Point, segs: seq<Segment>, pairs: seq<(int, int)>, i: nat, index: int)
    requires index == |points| && i <= index
    requires Wired(points, segs, pairs + Shift(ChainPairs(i), index - i))
    ensures i == 0 ==> Wired(points + [p], segs, pairs + Shift(ChainPairs(i + 1), index - i))
    ensures i > 0 ==> Wired(points + [p], segs + [Segment(points[index - 1], p)], pairs + Shift(ChainPairs(i + 1), index - i))
  {
    var q := pairs + Shift(ChainPairs(i), index - i);
    WiredExtend(points, [p], segs, q);
    if i > 0 {
      ShiftedChainSnoc(i, index - i);
      assert pairs + Shift(ChainPairs(i + 1), index - i) == q + [(index - 1, index)];
      WiredSnoc(points + [p], segs, q, index - 1, index);
    } else {
      assert ChainPairs(1) == ChainPairs(0);
    }
  }

  /** The glyph functions of the first s + 1 strokes, from those of the first s. */
  lemma GlyphPrefixStep(ts: seq<seq<string>>, s: nat)
    requires TokensWellFormed(ts) && s < |ts|
    ensures TokensWellFormed(ts[..s]) && TokensWellFormed(ts[..s + 1])
    ensures TokenCount(ts[..s + 1]) == TokenCount(ts[..s]) + |ts[s]|
    ensures GlyphPoints(ts[..s + 1]) == GlyphPoints(ts[..s]) + StrokePoints(ts[s])
    ensures GlyphPairs(ts[..s + 1]) == GlyphPairs(ts[..s]) + Shift(ChainPairs(|ts[s]|), TokenCount(ts[..s]))
  {
    assert ts[..s + 1][..s] == ts[..s];
  }

  /**
   * One token of a stroke: the point it names is appended at `index`, and
   * from the second token on it is joined to the point before it.
   */
  method AddToken(shape: Shape, tokens: seq<string>, i: nat, index: int, ghost pairs: seq<(int, int)>, ghost before: seq<Vec3>)
    returns (ghost p: Point)
    requires i < |tokens| && forall j :: 0 <= j < |tokens| ==> |tokens[j]| >= 2
    requires Distinct(shape.Points) && index == |shape.Points| && i <= index
    requires CoordsOf(shape.Points) == before + StrokePoints(tokens)[..i]
    requires Wired(shape.Points, shape.Segments, pairs + Shift(ChainPairs(i), index - i))
    modifies shape
    ensures shape.Points == old(shape.Points) + [p] && fresh(p) && Distinct(shape.Points)
    ensures CoordsOf(shape.Points) == before + StrokePoints(tokens)[..i + 1]
    ensures Wired(shape.Points, shape.Segments, pairs + Shift(ChainPairs(i + 1), index - i))
  {
    PrefixSnoc(before, StrokePoints(tokens), i);
    var xi := HexValue(tokens[i][0]);
    var yi := HexValue(tokens[i][1]);
    var x := (xi as real) / 4.0 - 1.0;
    var y := 1.0 - (yi as real) / 4.0;
    AddVertex(shape, Vec3(x, y, 0.0));
    p := shape.Points[index];
    assert shape.Points == old(shape.Points) + [p];
    TokenWired(old(shape.Points), p, shape.Segments, pairs, i, index);
    if i > 0 {
      shape.AddSegmentByIndex(index - 1, index);
    }
  }

  /**
   * One trimmed stroke: its tokens become consecutive new points from
   * `index` on, chained in order; the result is the index after them.
   */
  method AddStroke(shape: Shape, tokens: seq<string>, index: int, ghost pairs: seq<(int, int)>) returns (next: int)
    requires forall j :: 0 <= j < |tokens| ==> |tokens[j]| >= 2
    requires Distinct(shape.Points) && index == |shape.Points|
    requires Wired(shape.Points, shape.Segments, pairs)
    modifies shape
    ensures next == index + |tokens| == |shape.Points| && Distinct(shape.Points)
    ensures shape.Points[..index] == old(shape.Points) && fresh(shape.Points[index..])
    ensures CoordsOf(shape.Points) == old(CoordsOf(shape.Points)) + StrokePoints(tokens)
    ensures Wired(shape.Points, shape.Segments, pairs + Shift(ChainPairs(|tokens|), index))
  {
    ghost var before := CoordsOf(shape.Points);
    ghost var added: seq<Point> := [];
    assert pairs + Shift(ChainPairs(0), index) == pairs;
    next := index;
    var i := 0;
    while i < |tokens|
      invariant 0 <= i <= |tokens| && next == index + i == |shape.Points|
      invariant Distinct(shape.Points) && shape.Points == old(shape.Points) + added
      invariant fresh(added)
      invariant CoordsOf(shape.Points) == before + StrokePoints(tokens)[..i]
      invariant Wired(shape.Points, shape.Segments, pairs + Shift(ChainPairs(i), index))
    {
      ghost var p := AddToken(shape, tokens, i, next, pairs, before);
      added := added + [p];
      next := next + 1;
      i := i + 1;
    }
    assert StrokePoints(tokens)[..i] == StrokePoints(tokens);
    assert shape.Points[..index] == old(shape.Points) && shape.Points[index..] == added;
  }

  /**
   * Stroke s of a glyph whose strokes split into the tokens `ts`: it is
   * trimmed and split at spaces, and its tokens are added after those of
   * the strokes before it.
   */
  method ParseStroke(shape: Shape, strokes: seq<string>, s: nat, index: int, ghost ts: seq<seq<string>>)
    returns (next: int, ghost added: seq<Point>)
    requires ts == StrokeTokens(strokes) && TokensWellFormed(ts) && s < |ts|
    requires index == |shape.Points| == TokenCount(ts[..s]) && Distinct(shape.Points)
    requires CoordsOf(shape.Points) == GlyphPoints(ts[..s])
    requires Wired(shape.Points, shape.Segments, GlyphPairs(ts[..s]))
    modifies shape
    ensures shape.Points == old(shape.Points) + added && fresh(added)
    ensures next == |shape.Points| == TokenCount(ts[..s + 1]) && Distinct(shape.Points)
    ensures CoordsOf(shape.Points) == GlyphPoints(ts[..s + 1])
    ensures Wired(shape.Points, shape.Segments, GlyphPairs(ts[..s + 1]))
  {
    var stroke := TrimSpace(strokes[s]);
    var coords := Split(stroke, ' ');
    assert coords == ts[s];
    GlyphPrefixStep(ts, s);
    next := AddStroke(shape, coords, index, GlyphPairs(ts[..s]));
    added := shape.Points[index..];
    assert shape.Points == old(shape.Points) + added;
  }

  /**
   * The stroke loop of ParseChar: each stroke between colons is trimmed and
   * split at spaces, and each token adds the point it names, joined to the
   * point before it within the stroke.
   */
  method ParseStrokes(strokes: seq<string>, ghost ts: seq<seq<string>>) returns (shape: Shape)
    requires ts == StrokeTokens(strokes) && TokensWellFormed(ts)
    ensures fresh(shape) && fresh(shape.Points) && Distinct(shape.Points)
    ensures CoordsOf(shape.Points) == GlyphPoints(ts)
    ensures Wired(shape.Points, shape.Segments, GlyphPairs(ts))
  {
    shape := new Shape();
    var index := 0;
    var s := 0;
    while s < |strokes|
      invariant 0 <= s <= |strokes| == |ts|
      invariant index == |shape.Points| == TokenCount(ts[..s]) && Distinct(shape.Points)
      invariant fresh(shape.Points)
      invariant CoordsOf(shape.Points) == GlyphPoints(ts[..s])
      invariant Wired(shape.Points, shape.Segments, GlyphPairs(ts[..s]))
    {
      ghost var added;
      index, added := ParseStroke(shape, strokes, s, index, ts);
      s := s + 1;
    }
    assert ts[..s] == ts;
  }

  /** The body of ParseChar once the glyph is looked up: its strokes parsed, then scaled by FontHalfWidth. */
  method ParseGlyph(charData: string) returns (shape: Shape)
    requires GlyphWellFormed(charData)
    ensures fresh(shape) && fresh(shape.Points) && Distinct(shape.Points)
    ensures CoordsOf(shape.Points) == GlyphCoords(charData)
    ensures Wired(shape.Points, shape.Segments, GlyphPairs(GlyphTokens(charData)))
  {
    var strokes := Split(charData, ':');
    shape := ParseStrokes(strokes, GlyphTokens(charData));
    ghost var points, segments := shape.Points, shape.Segments;
    shape.Transform(UniScale(FontHalfWidth));
    assert shape.Points == points && shape.Segments == segments;
  }

  /**
   * ParseChar: the glyph of `c` in `font` (the asteroid font for
   * FontAsteroid, the arcade font for any other value) as a shape.  A glyph
   * with a token shorter than two characters, which includes a character
   * the font lacks and the arcade ';' as written, panics in the source, so
   * it is excluded here.
   */
  method ParseChar(c: char, font: int) returns (shape: Shape)
    requires GlyphWellFormed(Glyph(font, c))
    ensures fresh(shape) && fresh(shape.Points) && Distinct(shape.Points)
    ensures CoordsOf(shape.Points) == GlyphCoords(Glyph(font, c))
    ensures Wired(shape.Points, shape.Segments, GlyphPairs(GlyphTokens(Glyph(font, c))))
  {
    var charData := ArcadeFontAsWritten(c);
    if font == FontAsteroid {
      charData := AsteroidFont(c);
    }
    shape := ParseGlyph(charData);
  }

  /**
   * ParseChar over the corrected arcade font, in which ';' is well formed
   * (Glyphs.ArcadeSemicolonCorrected).
   */
  method ParseCharIntended(c: char, font: int) returns (shape: Shape)
    requires GlyphWellFormed(GlyphIntended(font, c))
    ensures fresh(shape) && fresh(shape.Points) && Distinct(shape.Points)
    ensures CoordsOf(shape.Points) == GlyphCoords(GlyphIntended(font, c))
    ensures Wired(shape.Points, shape.Segments, GlyphPairs(GlyphTokens(GlyphIntended(font, c))))
  {
    var charData := ArcadeFontCorrected(c);
    if font == FontAsteroid {
      charData := AsteroidFont(c);
    }
    shape := ParseGlyph(charData);
  }

  // ---------------------------------------------------------------------
  // String
  // ---------------------------------------------------------------------

  /** The point lists of the letters, letter by letter. */
  function LetterPoints(letters: seq<Shape>): (r: seq<seq<Point>>)
    reads letters
    ensures |r| == |letters| && forall i :: 0 <= i < |letters| ==> r[i] == letters[i].Points
  {
    seq(|letters|, i reads letters requires 0 <= i < |letters| => letters[i].Points)
  }

  /** The segment lists of the letters, letter by letter. */
  function LetterSegments(letters: seq<Shape>): (r: seq<seq<Segment>>)
    reads letters
    ensures |r| == |letters| && forall i :: 0 <= i < |letters| ==> r[i] == letters[i].Segments
  {
    seq(|letters|, i reads letters requires 0 <= i < |letters| => letters[i].Segments)
  }

  /** `shape` is what ParseChar makes of `glyph`. */
  predicate Parsed(shape: Shape, glyph: string)
    reads shape, shape.Points
  {
    ParsedRec(Parse(shape.Points, shape.Segments, CoordsOf(shape.Points), glyph))
  }

  /** A letter as NewString keeps track of it: its points, segments, the points' coordinates and its glyph. */
  datatype Parse = Parse(points: seq<Point>, segments: seq<Segment>, coords: seq<Vec3>, glyph: string)

  /** Parsed, on the values a letter holds. */
  predicate ParsedRec(r: Parse) {
    GlyphWellFormed(r.glyph) && Distinct(r.points) && r.coords == GlyphCoords(r.glyph) &&
    Wired(r.points, r.segments, GlyphPairs(GlyphTokens(r.glyph)))
  }

  /** Every letter is what ParseChar makes of its glyph. */
  predicate AllParsed(rs: seq<Parse>) {
    forall j :: 0 <= j < |rs| ==> ParsedRec(rs[j])
  }

  /** One more parsed letter keeps every letter parsed. */
  lemma AllParsedSnoc(rs: seq<Parse>, r: Parse)
    requires AllParsed(rs) && ParsedRec(r)
    ensures AllParsed(rs + [r])
  {
    forall j | 0 <= j < |rs| + 1 ensures ParsedRec((rs + [r])[j]) {
      if j < |rs| {
        assert (rs + [r])[j] == rs[j];
      }
    }
  }

  /** The records of letters with these points, segments, coordinates and glyphs. */
  function Records(lp: seq<seq<Point>>, ls: seq<seq<Segment>>, cs: seq<seq<Vec3>>, gs: seq<string>): (rs: seq<Parse>)
    requires |ls| == |lp| && |cs| == |lp| && |gs| == |lp|
    ensures |rs| == |lp| && forall j :: 0 <= j < |lp| ==> rs[j] == Parse(lp[j], ls[j], cs[j], gs[j])
  {
    seq(|lp|, j requires 0 <= j < |lp| => Parse(lp[j], ls[j], cs[j], gs[j]))
  }

  /** The glyph of each character of `text` in `font`. */
  function GlyphsOf(font: int, text: string): (gs: seq<string>)
    ensures |gs| == |text| && forall j :: 0 <= j < |text| ==> gs[j] == Glyph(font, text[j])
  {
    seq(|text|, j requires 0 <= j < |text| => Glyph(font, text[j]))
  }

  /** One more letter adds its record at the end. */
  lemma {:induction false} RecordsSnoc(lp: seq<seq<Point>>, ls: seq<seq<Segment>>, cs: seq<seq<Vec3>>, text: string, font: int,
                                        p: seq<Point>, s: seq<Segment>, c: seq<Vec3>)
    requires |ls| == |lp| && |cs| == |lp| && |lp| < |text|
    ensures Records(lp + [p], ls + [s], cs + [c], GlyphsOf(font, text[..|lp| + 1])) ==
            Records(lp, ls, cs, GlyphsOf(font, text[..|lp|])) + [Parse(p, s, c, Glyph(font, text[|lp|]))]
  {
    var n := |lp|;
    var a := Records(lp + [p], ls + [s], cs + [c], GlyphsOf(font, text[..n + 1]));
    var b := Records(lp, ls, cs, GlyphsOf(font, text[..n])) + [Parse(p, s, c, Glyph(font, text[n]))];
    forall j | 0 <= j < n + 1 ensures a[j] == b[j] {
      assert text[..n + 1][j] == text[j];
      if j < n {
        assert text[..n][j] == text[j];
      }
    }
  }

  /** Distinct paths stay distinct with one more path none of whose points is already used. */
  lemma DistinctPathsSnoc(pss: seq<seq<Point>>, ps: seq<Point>)
    requires DistinctPaths(pss) && Distinct(ps)
    requires forall k :: 0 <= k < |ps| ==> ps[k] !in Footprint(pss)
    ensures DistinctPaths(pss + [ps])
  {
    var r := pss + [ps];
    forall i, j, k, l | 0 <= i < |r| && 0 <= j < |r[i]| && 0 <= k < |r| && 0 <= l < |r[k]| && (i != k || j != l)
      ensures r[i][j] != r[k][l]
    {
      if i < |pss| && k == |pss| {
        assert r[i][j] in Footprint(pss);
      } else if k < |pss| && i == |pss| {
        assert r[k][l] in Footprint(pss);
      }
    }
  }

  /** The first k of distinct paths are distinct paths. */
  lemma DistinctPathsPrefix(pss: seq<seq<Point>>, k: nat)
    requires DistinctPaths(pss) && k <= |pss|
    ensures DistinctPaths(pss[..k])
  {
    var front := pss[..k];
    forall i, j, i', j' | 0 <= i < k && 0 <= j < |front[i]| && 0 <= i' < k && 0 <= j' < |front[i']| && (i != i' || j != j')
      ensures front[i][j] != front[i'][j']
    {
      assert front[i][j] == pss[i][j] && front[i'][j'] == pss[i'][j'];
    }
  }

  /**
   * What the loops of AsLine and AsCylinder keep after i letters: `shape`
   * holds the points and segments of the first i letters, in order, its
   * points are at `coords`, and the later letters are still where they were.
   */
  ghost predicate GatheredSoFar(shape: Shape, i: nat, lp: seq<seq<Point>>, ls: seq<seq<Segment>>, before: seq<seq<Vec3>>, coords: seq<Vec3>)
    reads shape, shape.Points, Footprint(lp)
  {
    i <= |lp| == |ls| == |before| &&
    shape.Points == Flatten(lp[..i]) && shape.Segments == Flatten(ls[..i]) && CoordsOf(shape.Points) == coords &&
    forall j :: i <= j < |lp| ==> CoordsOfPaths(lp)[j] == before[j]
  }

  /** After the last letter, `shape` holds the points and segments of all the letters. */
  lemma GatheredToEnd(shape: Shape, lp: seq<seq<Point>>, ls: seq<seq<Segment>>, before: seq<seq<Vec3>>, coords: seq<Vec3>)
    requires GatheredSoFar(shape, |lp|, lp, ls, before, coords)
    ensures shape.Points == Flatten(lp) && shape.Segments == Flatten(ls) && CoordsOf(shape.Points) == coords
  {
    assert lp[..|lp|] == lp && ls[..|ls|] == ls;
  }

  /**
   * The body of the loops of AsLine and AsCylinder: letter i is transformed
   * in place by `op`, and its points and segments are appended to `shape`,
   * which holds those of the letters before it.
   */
  method GatherLetter(shape: Shape, letter: Shape, i: nat, op: Op, ghost lp: seq<seq<Point>>, ghost ls: seq<seq<Segment>>)
    requires i < |lp| && i < |ls| && letter.Points == lp[i] && letter.Segments == ls[i]
    requires DistinctPaths(lp) && op.Drawn() && shape != letter
    requires shape.Points == Flatten(lp[..i]) && shape.Segments == Flatten(ls[..i])
    modifies shape, letter.Points
    ensures shape.Points == Flatten(lp[..i + 1]) && shape.Segments == Flatten(ls[..i + 1])
    ensures CoordsOf(shape.Points) == old(CoordsOf(shape.Points)) + ApplyAll(op, old(CoordsOf(lp[i])))
    ensures forall j :: i < j < |lp| ==> CoordsOf(lp[j]) == old(CoordsOf(lp[j]))
  {
    var pl := letter;
    OtherPathsOutside(lp, i);
    FlattenApart(lp, i);
    pl.Transform(op);
    CoordsOfAppend(shape.Points, pl.Points);
    shape.Points := shape.Points + pl.Points;
    shape.Segments := shape.Segments + pl.Segments;
    FlattenSnoc(lp, i);
    FlattenSnoc(ls, i);
  }

  /** One step of AsLine's loop: letter i is gathered after being moved along the x-axis by LetterShift(i). */
  method SpreadLetter(shape: Shape, letter: Shape, i: nat, spacing: real,
                      ghost lp: seq<seq<Point>>, ghost ls: seq<seq<Segment>>, ghost before: seq<seq<Vec3>>)
    requires i < |lp| == |ls| == |before| && letter.Points == lp[i] && letter.Segments == ls[i]
    requires DistinctPaths(lp) && shape != letter
    requires GatheredSoFar(shape, i, lp, ls, before, Spread(before, i, spacing))
    modifies shape, Flatten(lp)
    ensures GatheredSoFar(shape, i + 1, lp, ls, before, Spread(before, i + 1, spacing))
  {
    ghost var prev := CoordsOf(shape.Points);
    var op := TranslateX(50.0 + (100.0 + spacing) * (i as real));
    assert op == TranslateX(LetterShift(i, spacing));
    FlattenHas(lp, i);
    assert CoordsOf(lp[i]) == before[i] by { assert CoordsOfPaths(lp)[i] == CoordsOf(lp[i]); }
    GatherLetter(shape, letter, i, op, lp, ls);
    assert CoordsOf(shape.Points) == prev + ApplyAll(op, before[i]);
    SpreadStep(before, i, spacing);
  }

  /** The end of AsLine: the gathered letters moved along the x-axis so that the line is centred. */
  method CentreLine(shape: Shape, n: nat, spacing: real, ghost before: seq<seq<Vec3>>)
    requires n == |before| && Distinct(shape.Points) && CoordsOf(shape.Points) == Spread(before, n, spacing)
    modifies shape.Points
    ensures CoordsOf(shape.Points) == LineCoords(before, spacing)
  {
    var mult := n as real;
    CentreIsLineShift(n, spacing);
    var centre := TranslateX(-(FontHalfWidth * 2.0 + spacing) * mult / 2.0 + spacing);
    assert centre == TranslateX(LineShift(n, spacing));
    shape.Transform(centre);
    SpreadThenShift(before, spacing);
  }

  /**
   * One step of AsCylinder's loop: letter i is gathered after being pushed
   * back along the z-axis, and everything gathered so far is turned.
   */
  method WrapLetter(shape: Shape, letter: Shape, i: nat, radius: real, spacing: real, atan2: (real, real) -> real, trig: Trig,
                    ghost lp: seq<seq<Point>>, ghost ls: seq<seq<Segment>>, ghost before: seq<seq<Vec3>>)
    requires i < |lp| == |ls| == |before| && letter.Points == lp[i] && letter.Segments == ls[i]
    requires DistinctPaths(lp) && shape != letter
    requires GatheredSoFar(shape, i, lp, ls, before,
      Wrapped(ApplyAllPaths(TranslateZ(-radius), before), i, CylinderTurn(radius, spacing, atan2, trig)))
    modifies shape, Flatten(lp)
    ensures GatheredSoFar(shape, i + 1, lp, ls, before,
      Wrapped(ApplyAllPaths(TranslateZ(-radius), before), i + 1, CylinderTurn(radius, spacing, atan2, trig)))
  {
    ghost var pushed := ApplyAllPaths(TranslateZ(-radius), before);
    ghost var prev := CoordsOf(shape.Points);
    assert lp[..i + 1][i] == lp[i];
    FlattenHas(lp[..i + 1], i);
    FlattenPrefixIn(lp, i + 1);
    assert CoordsOf(lp[i]) == before[i] by { assert CoordsOfPaths(lp)[i] == CoordsOf(lp[i]); }
    GatherLetter(shape, letter, i, TranslateZ(-radius), lp, ls);
    assert CoordsOf(shape.Points) == prev + pushed[i];
    FlattenApart(lp, i + 1);
    DistinctPathsPrefix(lp, i + 1);
    FlattenDistinct(lp[..i + 1]);
    var turn := CylinderTurn(radius, spacing, atan2, trig);
    shape.Transform(turn);
    WrappedStep(pushed, i, turn);
  }

  /** A 3d string: the upper-cased text and one shape per character. */
  class Str {
    var Orig: string
    var Letters: seq<Shape>

    /** No point is shared between two letters or twice within one. */
    predicate Valid()
      reads this, Letters
    {
      DistinctPaths(LetterPoints(Letters))
    }

    constructor (orig: string, letters: seq<Shape>)
      ensures Orig == orig && Letters == letters
    {
      Orig, Letters := orig, letters;
    }

    /**
     * AsLine: every letter i is moved along the x-axis by LetterShift(i),
     * its points and segments are appended to a new shape, and the whole
     * shape is then moved by LineShift.  The new shape shares the letters'
     * points, so the letters move with it.
     */
    method AsLine(spacing: real) returns (shape: Shape)
      requires Valid()
      modifies Flatten(LetterPoints(Letters))
      ensures fresh(shape)
      ensures shape.Points == Flatten(old(LetterPoints(Letters))) && shape.Segments == Flatten(old(LetterSegments(Letters)))
      ensures CoordsOf(shape.Points) == LineCoords(old(CoordsOfPaths(LetterPoints(Letters))), spacing)
    {
      ghost var lp, ls := LetterPoints(Letters), LetterSegments(Letters);
      ghost var before := CoordsOfPaths(lp);
      shape := new Shape();
      var i := 0;
      while i < |Letters|
        invariant i <= |Letters| && GatheredSoFar(shape, i, lp, ls, before, Spread(before, i, spacing))
      {
        SpreadLetter(shape, Letters[i], i, spacing, lp, ls, before);
        i := i + 1;
      }
      GatheredToEnd(shape, lp, ls, before, Spread(before, i, spacing));
      FlattenDistinct(lp);
      CentreLine(shape, |Letters|, spacing, before);
    }

    /**
     * AsCylinder: every letter is pushed back along the z-axis by `radius`,
     * its points and segments are appended to a new shape, and everything
     * gathered so far is turned about the y-axis by twice the angle
     * atan2(FontHalfWidth + spacing, radius).  The cosine, sine and atan2
     * are parameters.  The new shape shares the letters' points.
     */
    method AsCylinder(radius: real, spacing: real, atan2: (real, real) -> real, trig: Trig) returns (shape: Shape)
      requires Valid()
      modifies Flatten(LetterPoints(Letters))
      ensures fresh(shape)
      ensures shape.Points == Flatten(old(LetterPoints(Letters))) && shape.Segments == Flatten(old(LetterSegments(Letters)))
      ensures CoordsOf(shape.Points) == Wrapped(ApplyAllPaths(TranslateZ(-radius), old(CoordsOfPaths(LetterPoints(Letters)))),
        |Letters|, CylinderTurn(radius, spacing, atan2, trig))
    {
      ghost var lp, ls := LetterPoints(Letters), LetterSegments(Letters);
      ghost var before := CoordsOfPaths(lp);
      ghost var pushed := ApplyAllPaths(TranslateZ(-radius), before);
      shape := new Shape();
      var i := 0;
      while i < |Letters|
        invariant i <= |Letters| && GatheredSoFar(shape, i, lp, ls, before, Wrapped(pushed, i, CylinderTurn(radius, spacing, atan2, trig)))
      {
        WrapLetter(shape, Letters[i], i, radius, spacing, atan2, trig, lp, ls, before);
        i := i + 1;
      }
      GatheredToEnd(shape, lp, ls, before, Wrapped(pushed, i, CylinderTurn(radius, spacing, atan2, trig)));
    }
  }

  /** The offset AsLine centres the line with, as written there, is LineShift. */
  lemma CentreIsLineShift(n: nat, spacing: real)
    ensures -(FontHalfWidth * 2.0 + spacing) * (n as real) / 2.0 + spacing == LineShift(n, spacing)
  {
    assert FontHalfWidth * 2.0 == 100.0;
  }

  /** The turn AsCylinder applies after each letter: about the y-axis, by twice atan2(FontHalfWidth + spacing, radius). */
  function CylinderTurn(radius: real, spacing: real, atan2: (real, real) -> real, trig: Trig): Op {
    var angle := atan2(FontHalfWidth + spacing, radius) * 2.0;
    RotateY(trig.cos(angle), trig.sin(angle))
  }

  /**
   * What NewString's loop keeps of the letters made so far: no point is
   * shared between two of them, and each is what ParseChar makes of the
   * glyph of the character of `text` at its position.
   */
  predicate Gathered(letters: seq<Shape>, text: string, font: int)
    reads letters, Footprint(LetterPoints(letters))
  {
    var lp := LetterPoints(letters);
    |letters| <= |text| && DistinctPaths(lp) &&
    AllParsed(Records(lp, LetterSegments(letters), CoordsOfPaths(lp), GlyphsOf(font, text[..|letters|])))
  }

  /** The points and segments of one more letter are those of the letters before it and its own. */
  lemma LettersSnoc(letters: seq<Shape>, letter: Shape)
    ensures LetterPoints(letters + [letter]) == LetterPoints(letters) + [letter.Points]
    ensures LetterSegments(letters + [letter]) == LetterSegments(letters) + [letter.Segments]
  {
  }

  /** The coordinates of one more path are those of the paths before it and its own. */
  lemma CoordsOfPathsSnoc(paths: seq<seq<Point>>, path: seq<Point>)
    ensures CoordsOfPaths(paths + [path]) == CoordsOfPaths(paths) + [CoordsOf(path)]
  {
  }

  /**
   * The body of NewString's loop: the next character of `text` parsed into
   * a new letter to append.  The new letter's points, being new, are
   * shared with none of the earlier letters'.
   */
  method NextLetter(letters: seq<Shape>, text: string, font: int) returns (letter: Shape)
    requires |letters| < |text| && GlyphWellFormed(Glyph(font, text[|letters|])) && Gathered(letters, text, font)
    ensures fresh(letter) && Gathered(letters + [letter], text, font)
  {
    ghost var lp, ls := LetterPoints(letters), LetterSegments(letters);
    ghost var cs := CoordsOfPaths(lp);
    ghost var rs := Records(lp, ls, cs, GlyphsOf(font, text[..|letters|]));
    ghost var used := Footprint(lp);
    letter := ParseChar(text[|letters|], font);
    assert forall k :: 0 <= k < |letter.Points| ==> letter.Points[k] !in used;
    DistinctPathsSnoc(lp, letter.Points);
    ghost var r := Parse(letter.Points, letter.Segments, CoordsOf(letter.Points), Glyph(font, text[|letters|]));
    AllParsedSnoc(rs, r);
    RecordsSnoc(lp, ls, cs, text, font, letter.Points, letter.Segments, CoordsOf(letter.Points));
    LettersSnoc(letters, letter);
    CoordsOfPathsSnoc(lp, letter.Points);
  }

  /** NewString's loop: one new letter per character of `text`, each what ParseChar makes of it. */
  method ParseLetters(text: string, font: int) returns (letters: seq<Shape>)
    requires forall i :: 0 <= i < |text| ==> GlyphWellFormed(Glyph(font, text[i]))
    ensures |letters| == |text| && DistinctPaths(LetterPoints(letters))
    ensures forall i :: 0 <= i < |text| ==> fresh(letters[i]) && Parsed(letters[i], Glyph(font, text[i]))
  {
    letters := [];
    var i := 0;
    while i < |text|
      invariant i == |letters| <= |text| && fresh(letters) && Gathered(letters, text, font)
    {
      var letter := NextLetter(letters, text, font);
      letters := letters + [letter];
      i := i + 1;
    }
    GatheredAll(letters, text, font);
  }

  /** Once every character is gathered, each letter is what ParseChar makes of its character. */
  lemma GatheredAll(letters: seq<Shape>, text: string, font: int)
    requires |letters| == |text| && Gathered(letters, text, font)
    ensures DistinctPaths(LetterPoints(letters))
    ensures forall i :: 0 <= i < |text| ==> Parsed(letters[i], Glyph(font, text[i]))
  {
    var lp := LetterPoints(letters);
    var rs := Records(lp, LetterSegments(letters), CoordsOfPaths(lp), GlyphsOf(font, text[..|letters|]));
    assert text[..|letters|] == text;
    forall j | 0 <= j < |text| ensures Parsed(letters[j], Glyph(font, text[j])) {
      assert rs[j] == Parse(letters[j].Points, letters[j].Segments, CoordsOf(letters[j].Points), Glyph(font, text[j]));
    }
  }

  /**
   * NewString: the text upper-cased, and one new shape per character, each
   * what ParseChar makes of that character's glyph.  A character whose
   * glyph ParseChar cannot read panics in the source, so every glyph is
   * required to be well formed.
   */
  method NewString(str: string, font: int) returns (r: Str)
    requires forall i :: 0 <= i < |str| ==> GlyphWellFormed(Glyph(font, ToUpper(str)[i]))
    ensures fresh(r) && r.Orig == ToUpper(str) && |r.Letters| == |str| && r.Valid()
    ensures forall i :: 0 <= i < |str| ==> fresh(r.Letters[i]) && Parsed(r.Letters[i], Glyph(font, r.Orig[i]))
  {
    var upper := ToUpper(str);
    var letters := ParseLetters(upper, font);
    r := new Str(upper, letters);
  }
}
