/**
 * The stroke fonts of text.go and the text functions ParseChar reads them
 * with: a glyph is a string of strokes separated by ':', each stroke a
 * space-separated list of two-digit hex tokens, token "xy" naming the grid
 * point (x / 4 - 1, 1 - y / 4).
 *
 * Go's string functions (strings.Split, strings.TrimSpace, strings.ToUpper,
 * strconv.ParseInt on one hex digit) are written out here as functions on
 * `string`, with the properties the parser relies on proved about them.
 */
module Glyphs {
  import opened Geometry
  import opened SegmentShapes
  import opened ShapeIndices

  const FontAsteroid: int := 0
  const FontArcade: int := 1

  /** Each glyph is scaled by this factor, so that a glyph of width 2 spans 100 units. */
  const FontHalfWidth: real := 50.0

  // ---------------------------------------------------------------------
  // strings.Split with a one-character separator
  // ---------------------------------------------------------------------

  /** The pieces of `s` between occurrences of `sep`, in order; there is always at least one. */
  function Split(s: string, sep: char): (r: seq<string>)
    ensures |r| >= 1
  {
    if |s| == 0 then [""]
    else
      var rest := Split(s[1..], sep);
      if s[0] == sep then [""] + rest
      else [[s[0]] + rest[0]] + rest[1..]
  }

  /** No piece contains the separator. */
  lemma {:induction false} SplitPiecesFree(s: string, sep: char)
    ensures forall i :: 0 <= i < |Split(s, sep)| ==> sep !in Split(s, sep)[i]
  {
    if |s| > 0 {
      SplitPiecesFree(s[1..], sep);
    }
  }

  /** strings.Join with a one-character separator. */
  function Join(pieces: seq<string>, sep: char): string
    requires |pieces| >= 1
  {
    if |pieces| == 1 then pieces[0] else pieces[0] + [sep] + Join(pieces[1..], sep)
  }

  /** A character put in front of the first piece ends up in front of the joined string. */
  lemma JoinCons(c: char, pieces: seq<string>, sep: char)
    requires |pieces| >= 1
    ensures Join([[c] + pieces[0]] + pieces[1..], sep) == [c] + Join(pieces, sep)
  {
    var moved := [[c] + pieces[0]] + pieces[1..];
    if |pieces| > 1 {
      assert moved[1..] == pieces[1..];
    }
  }

  /** Joining the pieces back with the separator restores the string. */
  lemma {:induction false} SplitJoin(s: string, sep: char)
    ensures Join(Split(s, sep), sep) == s
  {
    if |s| > 0 {
      SplitJoin(s[1..], sep);
      var rest := Split(s[1..], sep);
      if s[0] != sep {
        JoinCons(s[0], rest, sep);
      } else {
        assert ([""] + rest)[1..] == rest;
      }
      assert s == [s[0]] + s[1..];
    }
  }

  /** A string without the separator is a single piece. */
  lemma {:induction false} SplitNoSep(s: string, sep: char)
    requires sep !in s
    ensures Split(s, sep) == [s]
  {
    if |s| > 0 {
      SplitNoSep(s[1..], sep);
      assert s == [s[0]] + s[1..];
    }
  }

  /** A piece without the separator followed by the separator splits off as the first piece. */
  lemma {:induction false} SplitCons(a: string, sep: char, b: string)
    requires sep !in a
    ensures Split(a + [sep] + b, sep) == [a] + Split(b, sep)
  {
    if |a| == 0 {
      assert a + [sep] + b == [sep] + b;
    } else {
      SplitCons(a[1..], sep, b);
      assert (a + [sep] + b)[1..] == a[1..] + [sep] + b;
      assert a == [a[0]] + a[1..];
    }
  }

  /** Splitting a join of separator-free pieces gives the pieces back. */
  lemma {:induction false} JoinSplit(pieces: seq<string>, sep: char)
    requires |pieces| >= 1 && forall i :: 0 <= i < |pieces| ==> sep !in pieces[i]
    ensures Split(Join(pieces, sep), sep) == pieces
  {
    if |pieces| == 1 {
      SplitNoSep(pieces[0], sep);
    } else {
      JoinSplit(pieces[1..], sep);
      SplitCons(pieces[0], sep, Join(pieces[1..], sep));
      assert pieces == [pieces[0]] + pieces[1..];
    }
  }

  // ---------------------------------------------------------------------
  // strings.TrimSpace
  // ---------------------------------------------------------------------

  /** unicode.IsSpace: the Latin-1 spaces and the other Unicode White_Space characters. */
  predicate IsSpace(c: char) {
    var n := c as int;
    (9 <= n <= 13) || n == 0x20 || n == 0x85 || n == 0xA0 || n == 0x1680 ||
    (0x2000 <= n <= 0x200A) || n == 0x2028 || n == 0x2029 || n == 0x202F || n == 0x205F || n == 0x3000
  }

  /** `s` without its leading white space. */
  function TrimLeft(s: string): (r: string) {
    if |s| > 0 && IsSpace(s[0]) then TrimLeft(s[1..]) else s
  }

  /** `s` without its trailing white space. */
  function TrimRight(s: string): (r: string) {
    if |s| > 0 && IsSpace(s[|s| - 1]) then TrimRight(s[..|s| - 1]) else s
  }

  function TrimSpace(s: string): string {
    TrimRight(TrimLeft(s))
  }

  /** TrimLeft drops a run of white space from the front and stops at the first other character. */
  lemma {:induction false} TrimLeftSpec(s: string)
    ensures |TrimLeft(s)| <= |s| && TrimLeft(s) == s[|s| - |TrimLeft(s)|..]
    ensures forall i :: 0 <= i < |s| - |TrimLeft(s)| ==> IsSpace(s[i])
    ensures TrimLeft(s) == [] || !IsSpace(TrimLeft(s)[0])
  {
    if |s| > 0 && IsSpace(s[0]) {
      var t := s[1..];
      TrimLeftSpec(t);
      var r := TrimLeft(t);
      assert TrimLeft(s) == r;
      assert t[|t| - |r|..] == s[|s| - |r|..];
      forall i | 0 <= i < |s| - |r| ensures IsSpace(s[i]) {
        if i > 0 {
          assert s[i] == t[i - 1];
        }
      }
    }
  }

  /** TrimRight drops a run of white space from the back and stops at the last other character. */
  lemma {:induction false} TrimRightSpec(s: string)
    ensures |TrimRight(s)| <= |s| && TrimRight(s) == s[..|TrimRight(s)|]
    ensures forall i :: |TrimRight(s)| <= i < |s| ==> IsSpace(s[i])
    ensures TrimRight(s) == [] || !IsSpace(TrimRight(s)[|TrimRight(s)| - 1])
  {
    if |s| > 0 && IsSpace(s[|s| - 1]) {
      var t := s[..|s| - 1];
      TrimRightSpec(t);
      var r := TrimRight(t);
      assert TrimRight(s) == r;
      assert t[..|r|] == s[..|r|];
      forall i | |r| <= i < |s| ensures IsSpace(s[i]) {
        if i < |s| - 1 {
          assert s[i] == t[i];
        }
      }
    }
  }

  /**
   * TrimSpace cuts `s` down to s[lo..hi]: everything cut off is white space,
   * and what is left neither starts nor ends with white space.
   */
  lemma {:induction false} TrimSpaceCuts(s: string) returns (lo: nat, hi: nat)
    ensures lo <= hi <= |s| && TrimSpace(s) == s[lo..hi]
    ensures forall i :: 0 <= i < lo || hi <= i < |s| ==> IsSpace(s[i])
    ensures lo < hi ==> !IsSpace(s[lo]) && !IsSpace(s[hi - 1])
  {
    var l := TrimLeft(s);
    var r := TrimRight(l);
    TrimLeftSpec(s);
    TrimRightSpec(l);
    lo := |s| - |l|;
    hi := lo + |r|;
    assert l == s[lo..];
    assert r == l[..|r|];
    assert s[lo..hi] == s[lo..][..|r|];
    forall i | hi <= i < |s| ensures IsSpace(s[i]) {
      assert s[i] == l[i - lo];
    }
    if lo < hi {
      assert s[lo] == l[0] == r[0];
      assert s[hi - 1] == r[|r| - 1];
    }
  }

  /** TrimLeft drops leading white space up to a first character that is not white space. */
  lemma {:induction false} TrimLeftOf(lead: string, rest: string)
    requires forall i :: 0 <= i < |lead| ==> IsSpace(lead[i])
    requires |rest| > 0 && !IsSpace(rest[0])
    ensures TrimLeft(lead + rest) == rest
  {
    if |lead| > 0 {
      TrimLeftOf(lead[1..], rest);
      assert (lead + rest)[1..] == lead[1..] + rest;
    }
  }

  /** TrimRight drops trailing white space back to a last character that is not white space. */
  lemma {:induction false} TrimRightOf(rest: string, trail: string)
    requires forall i :: 0 <= i < |trail| ==> IsSpace(trail[i])
    requires |rest| > 0 && !IsSpace(rest[|rest| - 1])
    ensures TrimRight(rest + trail) == rest
  {
    if |trail| > 0 {
      TrimRightOf(rest, trail[..|trail| - 1]);
      assert (rest + trail)[..|rest + trail| - 1] == rest + trail[..|trail| - 1];
    } else {
      assert rest + trail == rest;
    }
  }

  /** TrimSpace of white space, then a string that neither starts nor ends with white space, then white space. */
  lemma TrimSpaceOf(lead: string, t: string, trail: string)
    requires forall i :: 0 <= i < |lead| ==> IsSpace(lead[i])
    requires forall i :: 0 <= i < |trail| ==> IsSpace(trail[i])
    requires |t| > 0 && !IsSpace(t[0]) && !IsSpace(t[|t| - 1])
    ensures TrimSpace(lead + t + trail) == t
  {
    TrimLeftOf(lead, t + trail);
    TrimRightOf(t, trail);
    assert lead + t + trail == lead + (t + trail);
  }

  // ---------------------------------------------------------------------
  // strings.ToUpper, for the characters the fonts define
  // ---------------------------------------------------------------------

  /**
   * unicode.ToUpper on the characters whose capital is one the fonts
   * define: the ASCII letters, the dotless i (capital I) and the long s
   * (capital S).  Every other character is kept; none of those the Unicode
   * tables would change has a glyph.
   */
  function UpperChar(c: char): char {
    if 'a' <= c <= 'z' then (c as int - 'a' as int + 'A' as int) as char
    else if c == '\U{131}' then 'I'
    else if c == '\U{17F}' then 'S'
    else c
  }

  /** strings.ToUpper, character by character. */
  function ToUpper(s: string): (r: string)
    ensures |r| == |s|
    ensures forall i :: 0 <= i < |s| ==> r[i] == UpperChar(s[i])
  {
    seq(|s|, i requires 0 <= i < |s| => UpperChar(s[i]))
  }

  /**
   * Upper-casing leaves no lower-case ASCII letter, maps each to its capital,
   * changes no character outside the three groups above, and doing it twice
   * is doing it once.
   */
  lemma ToUpperSpec(s: string)
    ensures forall i :: 0 <= i < |s| ==> !('a' <= ToUpper(s)[i] <= 'z')
    ensures forall i :: 0 <= i < |s| && 'a' <= s[i] <= 'z' ==> ToUpper(s)[i] as int == s[i] as int - 32
    ensures forall i :: 0 <= i < |s| && !('a' <= s[i] <= 'z') && s[i] != '\U{131}' && s[i] != '\U{17F}' ==> ToUpper(s)[i] == s[i]
    ensures ToUpper(ToUpper(s)) == ToUpper(s)
  {
  }

  // ---------------------------------------------------------------------
  // Hex tokens
  // ---------------------------------------------------------------------

  /**
   * strconv.ParseInt(string(c), 16, 64) with its error ignored: the value
   * of a hex digit, and 0 (the value ParseInt returns with its error) for
   * any other character.
   */
  function HexValue(c: char): (v: nat)
    ensures v < 16
  {
    if '0' <= c <= '9' then c as int - '0' as int
    else if 'a' <= c <= 'f' then c as int - 'a' as int + 10
    else if 'A' <= c <= 'F' then c as int - 'A' as int + 10
    else 0
  }

  /** The upper-case hex digit of a value below 16, as the font tables write it. */
  function HexDigit(v: nat): char
    requires v < 16
  {
    if v < 10 then ('0' as int + v) as char else ('A' as int + v - 10) as char
  }

  /** HexValue reads back what HexDigit writes. */
  lemma HexRoundTrip(v: nat)
    requires v < 16
    ensures HexValue(HexDigit(v)) == v
  {
  }

  /** The unscaled point a token names: its first digit gives x, its second y. */
  function TokenPoint(token: string): (v: Vec3)
    requires |token| >= 2
    ensures v.z == 0.0
    ensures -1.0 <= v.x <= 2.75 && -2.75 <= v.y <= 1.0
  {
    Vec3((HexValue(token[0]) as real) / 4.0 - 1.0, 1.0 - (HexValue(token[1]) as real) / 4.0, 0.0)
  }

  /** The token for grid column xi and grid row yi names the point (xi / 4 - 1, 1 - yi / 4). */
  lemma TokenOfGridPoint(xi: nat, yi: nat)
    requires xi < 16 && yi < 16
    ensures TokenPoint([HexDigit(xi), HexDigit(yi)]) == Vec3((xi as real) / 4.0 - 1.0, 1.0 - (yi as real) / 4.0, 0.0)
  {
    HexRoundTrip(xi);
    HexRoundTrip(yi);
  }

  /** The digits 0 to 8 span the glyph box: x and y both within [-1, 1]. */
  lemma TokenInGlyphBox(token: string)
    requires |token| >= 2 && HexValue(token[0]) <= 8 && HexValue(token[1]) <= 8
    ensures -1.0 <= TokenPoint(token).x <= 1.0 && -1.0 <= TokenPoint(token).y <= 1.0
  {
  }

  // ---------------------------------------------------------------------
  // Glyph structure
  // ---------------------------------------------------------------------

  /** The strokes of a glyph, trimmed, each split into its tokens. */
  function GlyphTokens(glyph: string): (ts: seq<seq<string>>)
    ensures |ts| >= 1 && forall i :: 0 <= i < |ts| ==> |ts[i]| >= 1
  {
    StrokeTokens(Split(glyph, ':'))
  }

  /** Each stroke trimmed and split into its tokens. */
  function StrokeTokens(strokes: seq<string>): (ts: seq<seq<string>>)
    ensures |ts| == |strokes| && forall i :: 0 <= i < |ts| ==> |ts[i]| >= 1
  {
    seq(|strokes|, i requires 0 <= i < |strokes| => Split(TrimSpace(strokes[i]), ' '))
  }

  lemma StrokeTokensThree(a: string, b: string, c: string)
    ensures StrokeTokens([a, b, c]) == [Split(TrimSpace(a), ' '), Split(TrimSpace(b), ' '), Split(TrimSpace(c), ' ')]
  {
  }

  /** Every token has the two characters ParseChar indexes; a shorter one is an index panic. */
  predicate TokensWellFormed(ts: seq<seq<string>>) {
    forall i, j :: 0 <= i < |ts| && 0 <= j < |ts[i]| ==> |ts[i][j]| >= 2
  }

  predicate GlyphWellFormed(glyph: string) {
    TokensWellFormed(GlyphTokens(glyph))
  }

  /**
   * A character with no entry in a font reads as the empty glyph, whose one
   * token is empty: ParseChar indexes past its end and panics.
   */
  lemma MissingGlyphMalformed()
    ensures GlyphTokens("") == [[""]]
    ensures !GlyphWellFormed("")
  {
    assert Split("", ':') == [""];
    assert TrimSpace("") == "";
    assert Split("", ' ') == [""];
    assert StrokeTokens([""]) == [[""]];
    assert |GlyphTokens("")[0][0]| < 2;
  }

  /** The total number of tokens over all strokes. */
  function TokenCount(ts: seq<seq<string>>): nat {
    if |ts| == 0 then 0 else TokenCount(ts[..|ts| - 1]) + |ts[|ts| - 1]|
  }

  /** The unscaled points of one stroke, one per token. */
  function StrokePoints(tokens: seq<string>): (vs: seq<Vec3>)
    requires forall j :: 0 <= j < |tokens| ==> |tokens[j]| >= 2
    ensures |vs| == |tokens|
  {
    seq(|tokens|, j requires 0 <= j < |tokens| && |tokens[j]| >= 2 => TokenPoint(tokens[j]))
  }

  /** The unscaled points of a glyph: its strokes' points, one stroke after another. */
  function GlyphPoints(ts: seq<seq<string>>): seq<Vec3>
    requires TokensWellFormed(ts)
  {
    if |ts| == 0 then [] else GlyphPoints(ts[..|ts| - 1]) + StrokePoints(ts[|ts| - 1])
  }

  /**
   * The index pairs ParseChar joins: within each stroke, each point to the
   * next, the stroke's points numbered from the count of all earlier tokens.
   */
  function GlyphPairs(ts: seq<seq<string>>): seq<(int, int)> {
    if |ts| == 0 then []
    else GlyphPairs(ts[..|ts| - 1]) + Shift(ChainPairs(|ts[|ts| - 1]|), TokenCount(ts[..|ts| - 1]))
  }

  /** The points of a parsed glyph, after the final UniScale by FontHalfWidth. */
  function GlyphCoords(glyph: string): seq<Vec3>
    requires GlyphWellFormed(glyph)
  {
    ApplyAll(UniScale(FontHalfWidth), GlyphPoints(GlyphTokens(glyph)))
  }

  /** A glyph has one point per token. */
  lemma {:induction false} GlyphPointCount(ts: seq<seq<string>>)
    requires TokensWellFormed(ts)
    ensures |GlyphPoints(ts)| == TokenCount(ts)
  {
    if |ts| > 0 {
      GlyphPointCount(ts[..|ts| - 1]);
    }
  }

  /** Point j of stroke i is token j of stroke i, numbered after all earlier strokes' tokens. */
  lemma {:induction false} GlyphPointAt(ts: seq<seq<string>>, i: nat, j: nat)
    requires TokensWellFormed(ts) && i < |ts| && j < |ts[i]|
    ensures TokenCount(ts[..i]) + j < |GlyphPoints(ts)|
    ensures GlyphPoints(ts)[TokenCount(ts[..i]) + j] == TokenPoint(ts[i][j])
  {
    var n := |ts| - 1;
    var front := ts[..n];
    assert TokensWellFormed(front);
    GlyphPointCount(front);
    if i < n {
      GlyphPointAt(front, i, j);
      assert front[..i] == ts[..i];
    } else {
      assert ts[..i] == front;
    }
  }

  /** Token counts of prefixes grow with the prefix. */
  lemma {:induction false} TokenCountMono(ts: seq<seq<string>>, i: nat, n: nat)
    requires i <= n <= |ts|
    ensures TokenCount(ts[..i]) <= TokenCount(ts[..n])
  {
    if i < n {
      TokenCountMono(ts, i, n - 1);
      assert ts[..n][..n - 1] == ts[..n - 1];
    }
  }

  /**
   * The segments of a glyph whose strokes have k1, k2, ... tokens number
   * (k1 - 1) + (k2 - 1) + ...: one fewer per stroke than the points.
   */
  lemma {:induction false} GlyphPairsCount(ts: seq<seq<string>>)
    requires forall i :: 0 <= i < |ts| ==> |ts[i]| >= 1
    ensures |GlyphPairs(ts)| + |ts| == TokenCount(ts)
  {
    if |ts| > 0 {
      GlyphPairsCount(ts[..|ts| - 1]);
    }
  }

  /** Pairs within [0, n), followed by pairs within [0, m) for some m >= n, are all within [0, m). */
  lemma InRangeAppend(a: seq<(int, int)>, b: seq<(int, int)>, n: int, m: int)
    requires InRange(a, n) && n <= m && InRange(b, m)
    ensures InRange(a + b, m)
  {
  }

  /** Every pair joins an index to the next one. */
  predicate Steps(pairs: seq<(int, int)>) {
    forall k :: 0 <= k < |pairs| ==> pairs[k].1 == pairs[k].0 + 1
  }

  /** No pair ends at the first point of a stroke of `ts`. */
  predicate MissesStrokeStarts(pairs: seq<(int, int)>, ts: seq<seq<string>>) {
    forall k, i :: 0 <= k < |pairs| && 0 <= i < |ts| ==> pairs[k].1 != TokenCount(ts[..i])
  }

  /** Every segment of a glyph joins two of its points: both indices are below the token count. */
  lemma {:induction false} GlyphPairsInRange(ts: seq<seq<string>>)
    ensures InRange(GlyphPairs(ts), TokenCount(ts))
  {
    if |ts| > 0 {
      var n := |ts| - 1;
      var front := ts[..n];
      GlyphPairsInRange(front);
      LastStrokeSteps(ts);
      InRangeAppend(GlyphPairs(front), Shift(ChainPairs(|ts[n]|), TokenCount(front)), TokenCount(front), TokenCount(ts));
    }
  }

  /** Every segment of a glyph joins a point to the next one. */
  lemma {:induction false} GlyphPairsStep(ts: seq<seq<string>>)
    ensures Steps(GlyphPairs(ts))
  {
    if |ts| > 0 {
      var n := |ts| - 1;
      var a: seq<(int, int)>, b: seq<(int, int)> := GlyphPairs(ts[..n]), Shift(ChainPairs(|ts[n]|), TokenCount(ts[..n]));
      GlyphPairsStep(ts[..n]);
      LastStrokeSteps(ts);
      forall k | 0 <= k < |a + b| ensures (a + b)[k].1 == (a + b)[k].0 + 1 {
        if k < |a| {
          assert (a + b)[k] == a[k];
        } else {
          assert (a + b)[k] == b[k - |a|];
        }
      }
    }
  }

  /** Pairs that miss every stroke start, followed by more such pairs, miss every stroke start. */
  lemma MissesAppend(a: seq<(int, int)>, b: seq<(int, int)>, ts: seq<seq<string>>)
    requires MissesStrokeStarts(a, ts) && MissesStrokeStarts(b, ts)
    ensures MissesStrokeStarts(a + b, ts)
  {
    forall k, i | 0 <= k < |a + b| && 0 <= i < |ts| ensures (a + b)[k].1 != TokenCount(ts[..i]) {
      if k < |a| {
        assert (a + b)[k] == a[k];
      } else {
        assert (a + b)[k] == b[k - |a|];
      }
    }
  }

  /**
   * The pairs of all strokes but the last, which miss those strokes' starts
   * and stay below their token count, miss the last stroke's start too.
   */
  lemma FrontMissesStrokeStarts(ts: seq<seq<string>>, pairs: seq<(int, int)>)
    requires |ts| > 0 && MissesStrokeStarts(pairs, ts[..|ts| - 1]) && InRange(pairs, TokenCount(ts[..|ts| - 1]))
    ensures MissesStrokeStarts(pairs, ts)
  {
    var front := ts[..|ts| - 1];
    forall k, i | 0 <= k < |pairs| && 0 <= i < |front| ensures pairs[k].1 != TokenCount(ts[..i]) {
      assert front[..i] == ts[..i];
    }
  }

  /** No segment of a glyph ends at the first point of a stroke, so none joins two strokes. */
  lemma {:induction false} GlyphPairsMissStrokeStarts(ts: seq<seq<string>>)
    ensures MissesStrokeStarts(GlyphPairs(ts), ts)
  {
    if |ts| > 0 {
      var n := |ts| - 1;
      var front := ts[..n];
      GlyphPairsMissStrokeStarts(front);
      GlyphPairsInRange(front);
      FrontMissesStrokeStarts(ts, GlyphPairs(front));
      LastStrokeSteps(ts);
      MissesAppend(GlyphPairs(front), Shift(ChainPairs(|ts[n]|), TokenCount(front)), ts);
    }
  }

  /** The segments of the last stroke join consecutive points after every earlier stroke's points. */
  lemma LastStrokeSteps(ts: seq<seq<string>>)
    requires |ts| > 0
    ensures var n := |ts| - 1; var last := Shift(ChainPairs(|ts[n]|), TokenCount(ts[..n]));
      && InRange(last, TokenCount(ts))
      && (forall k :: 0 <= k < |last| ==> last[k].1 == last[k].0 + 1)
      && (forall k, i :: 0 <= k < |last| && 0 <= i <= n ==> last[k].1 > TokenCount(ts[..i]))
  {
    var n := |ts| - 1;
    forall i | 0 <= i <= n ensures TokenCount(ts[..i]) <= TokenCount(ts[..n]) {
      TokenCountMono(ts, i, n);
    }
  }

  // ---------------------------------------------------------------------
  // The font tables
  // ---------------------------------------------------------------------

  /** The asteroid font: the glyph of each character, "" for a character it does not define. */
  function AsteroidFont(c: char): string {
    match c
    case ' ' => "00"
    case '!' => "40 32 52 40 : 44 4C"
    case '#' => "04 84 62 6A 88 08 2A 22"
    case '$' => "62 26 6A : 4C 40"
    case '%' => "00 8C : 2A 28 : 64 62"
    case '&' => "80 4C 88 04 40 84"
    case '\'' => "26 6A"
    case '(' => "60 24 28 6C"
    case ')' => "20 64 68 2C"
    case '*' => "00 4C 80 08 88 00"
    case '+' => "16 76 : 49 43"
    case ',' => "30 42"
    case '-' => "26 66"
    case '.' => "30 40"
    case '/' => "00 8C"
    case '0' => "00 80 8C 0C 00 8C"
    case '1' => "40 4C 3A"
    case '2' => "0C 8C 87 05 00 80"
    case '3' => "0C 8C 80 00 : 06 86"
    case '4' => "0C 06 86 : 8C 80"
    case '5' => "00 80 86 07 0C 8C"
    case '6' => "0C 00 80 85 07"
    case '7' => "0C 8C 86 40"
    case '8' => "00 80 8C 0C 00 : 06 86"
    case '9' => "80 8C 0C 07 85"
    case ':' => "49 47 : 45 43"
    case ';' => "49 47 : 45 12"
    case '<' => "60 26 6C"
    case '=' => "14 74 : 18 78"
    case '>' => "20 66 2C"
    case '?' => "08 4C 88 44 : 41 40"
    case '@' => "84 40 04 08 4C 88 44 36"
    case 'A' => "00 08 4C 88 80 : 04 84"
    case 'B' => "00 0C 4C 8A 46 82 40 00"
    case 'C' => "80 00 0C 8C"
    case 'D' => "00 0C 4C 88 84 40 00"
    case 'E' => "80 00 0C 8C : 06 66"
    case 'F' => "00 0C 8C : 06 66"
    case 'G' => "66 84 80 00 0C 8C"
    case 'H' => "00 0C : 06 86 : 8C 80"
    case 'I' => "00 80 : 40 4C : 0C 8C"
    case 'J' => "04 40 80 8C"
    case 'K' => "00 0C : 8C 06 60"
    case 'L' => "80 00 0C"
    case 'M' => "00 0C 48 8C 80"
    case 'N' => "00 0C 80 8C"
    case 'O' => "00 0C 8C 80 00"
    case 'P' => "00 0C 8C 86 05"
    case 'Q' => "00 0C 8C 84 00 : 44 80"
    case 'R' => "00 0C 8C 86 05 : 45 80"
    case 'S' => "02 20 80 85 07 0C 6C 8A"
    case 'T' => "0C 8C : 4C 40"
    case 'U' => "0C 02 40 82 8C"
    case 'V' => "0C 40 8C"
    case 'W' => "0C 20 44 60 8C"
    case 'X' => "00 8C : 0C 80"
    case 'Y' => "0C 46 8C : 46 40"
    case 'Z' => "0C 8C 00 80 : 26 66"
    case '[' => "60 20 2C 6C"
    case '\"' => "2A 26 : 6A 66"
    case '\\' => "0C 80"
    case ']' => "20 60 6C 2C"
    case '^' => "26 4C 66"
    case '_' => "00 80"
    case '`' => "2A 66"
    case '{' => "60 42 4A 6C : 26 46"
    case '|' => "40 45 : 46 4C"
    case '}' => "40 62 6A 4C : 66 86"
    case '~' => "04 28 64 88"
    case _ => ""
  }

  /** The arcade font exactly as text.go writes it, "" for a character it does not define. */
  function ArcadeFontAsWritten(c: char): string {
    match c
    case ' ' => "00"
    case '!' => "00 01 11 10 00 :  03 08 18 13 03"
    case '#' => "03 83 :  05 85 :  30 38 :  50 58"
    case '$' => "01 81 84 04 07 87 :  40 48"
    case '%' => "00 88 :  18 28 27 17 18 :  70 71 61 60 70"
    case '&' => "80 47 58 67 21 30 60 82"
    case '\'' => "07 08 18 17 07 :  17 05"
    case '(' => "28 04 20"
    case ')' => "08 24 00"
    case '*' => "41 47 :  14 74 :  22 66 :  26 62"
    case '+' => "41 47 :  14 74"
    case ',' => "01 02 12 11 01 :  11 00"
    case '-' => "14 74"
    case '.' => "00 01 11 10 00"
    case '/' => "00 88"
    case '0' => "00 80 88 08 00"
    case '1' => "00 80 :  40 48 26"
    case '2' => "08 88 84 04 00 80"
    case '3' => "08 88 80 00 :  04 84"
    case '4' => "08 04 84 :  88 80"
    case '5' => "00 80 84 04 08 88"
    case '6' => "08 00 80 84 04"
    case '7' => "08 88 80"
    case '8' => "00 08 88 80 00 :  04 84"
    case '9' => "80 88 08 04 84"
    case ':' => "02 03 13 12 02 :  05 06 16 15 05"
    case ';' => "02 03 13 12 02 :  05 06 16 15 05 :  1 2 0 0"
    case '<' => "87 04 81"
    case '=' => "13 73 :  15 75"
    case '>' => "07 84 01"
    case '?' => "06 08 88 84 44 40"
    case '@' => "71 60 20 02 06 28 68 86 84 62 22 24 36 66 62"
    case 'A' => "00 06 48 86 80 :  03 83"
    case 'B' => "00 08 58 76 54 04 :  64 82 60 00"
    case 'C' => "88 08 00 80"
    case 'D' => "00 08 58 85 83 50 00"
    case 'E' => "88 08 00 80 :  04 64"
    case 'F' => "88 08 00 :  04 64"
    case 'G' => "88 08 00 80 83 43"
    case 'H' => "00 08 :  80 88 :  04 84"
    case 'I' => "00 80 :  08 88 :  40 48"
    case 'J' => "88 80 40 03"
    case 'K' => "00 08 :  88 04 80"
    case 'L' => "08 00 80"
    case 'M' => "00 08 45 88 80"
    case 'N' => "00 08 80 88"
    case 'O' => "00 80 88 08 00"
    case 'P' => "00 08 88 84 04"
    case 'Q' => "00 08 88 83 40 00 :  43 80"
    case 'R' => "00 08 88 84 04 80"
    case 'S' => "00 80 84 04 08 88"
    case 'T' => "08 88 :  40 48"
    case 'U' => "08 00 80 88"
    case 'V' => "08 40 88"
    case 'W' => "08 00 43 80 88"
    case 'X' => "00 88 :  08 80"
    case 'Y' => "08 45 88 :  45 40"
    case 'Z' => "08 88 00 80"
    case '[' => "28 08 00 20"
    case '\"' => "07 08 18 17 07 :  17 05 :  27 28 38 37 27 :  37 25"
    case '\\' => "08 80"
    case ']' => "08 28 20 00"
    case '^' => "26 48 66"
    case '_' => "00 80"
    case '`' => "18 26"
    case '{' => "28 04 20"
    case '|' => "40 48"
    case '}' => "08 24 00"
    case '~' => "04 26 64 86"
    case _ => ""
  }

  /** The arcade font with its ';' entry's last stroke written as two-digit tokens. */
  function ArcadeFontCorrected(c: char): string {
    if c == ';' then "02 03 13 12 02 :  05 06 16 15 05 :  12 00" else ArcadeFontAsWritten(c)
  }

  /** ParseChar's choice of font: the asteroid font for FontAsteroid, the arcade font as written for any other value. */
  function Glyph(font: int, c: char): string {
    if font == FontAsteroid then AsteroidFont(c) else ArcadeFontAsWritten(c)
  }

  /** The same choice of font, over the corrected arcade font. */
  function GlyphIntended(font: int, c: char): string {
    if font == FontAsteroid then AsteroidFont(c) else ArcadeFontCorrected(c)
  }

  lemma JoinThree(pieces: seq<string>, sep: char)
    requires |pieces| == 3
    ensures Join(pieces, sep) == pieces[0] + [sep] + pieces[1] + [sep] + pieces[2]
  {
    assert Join(pieces[1..], sep) == pieces[1] + [sep] + pieces[2];
  }

  /** A string of three pieces joined by `sep`, none containing it, splits back into those three pieces. */
  lemma SplitThree(s: string, sep: char, a: string, b: string, c: string)
    requires sep !in a && sep !in b && sep !in c && s == a + [sep] + b + [sep] + c
    ensures Split(s, sep) == [a, b, c]
  {
    JoinThree([a, b, c], sep);
    JoinSplit([a, b, c], sep);
  }

  // The ';' entry of the arcade font, taken apart one step at a time.

  /** The ';' glyph of the arcade font as written. */
  lemma SemicolonAsWritten()
    ensures ArcadeFontAsWritten(';') == "02 03 13 12 02 :  05 06 16 15 05 :  1 2 0 0"
  {
  }

  /** The two dots of the ';' glyph hold no ':'. */
  lemma SemicolonDotsNoColon()
    ensures ':' !in "02 03 13 12 02 " && ':' !in "  05 06 16 15 05 "
  {
  }

  /** The ';' glyph as written is its two dots and its tail, joined by ':'. */
  lemma SemicolonJoinedAsWritten()
    ensures ':' !in "  1 2 0 0"
    ensures "02 03 13 12 02 :  05 06 16 15 05 :  1 2 0 0" == "02 03 13 12 02 " + [':'] + "  05 06 16 15 05 " + [':'] + "  1 2 0 0"
  {
  }

  /** The ';' glyph as written splits at ':' into the two dots and the tail "  1 2 0 0". */
  lemma SemicolonStrokesAsWritten()
    ensures Split("02 03 13 12 02 :  05 06 16 15 05 :  1 2 0 0", ':') == ["02 03 13 12 02 ", "  05 06 16 15 05 ", "  1 2 0 0"]
  {
    SemicolonDotsNoColon();
    SemicolonJoinedAsWritten();
    SplitThree("02 03 13 12 02 :  05 06 16 15 05 :  1 2 0 0", ':', "02 03 13 12 02 ", "  05 06 16 15 05 ", "  1 2 0 0");
  }

  /** The tail as written, trimmed, starts with the one-character token "1". */
  lemma SemicolonTailAsWritten()
    ensures Split(TrimSpace("  1 2 0 0"), ' ')[0] == "1"
  {
    TrimSpaceOf("  ", "1 2 0 0", "");
    assert "  1 2 0 0" == "  " + "1 2 0 0" + "";
    SplitTokens("1 2 0 0", "1", "2 0 0");
  }

  /** The arcade ';' as written ends in the stroke "1 2 0 0": one-character tokens, so ParseChar panics on it. */
  lemma ArcadeSemicolonMalformed()
    ensures |GlyphTokens(ArcadeFontAsWritten(';'))| == 3 && GlyphTokens(ArcadeFontAsWritten(';'))[2][0] == "1"
    ensures !GlyphWellFormed(ArcadeFontAsWritten(';'))
    ensures !GlyphWellFormed(Glyph(FontArcade, ';'))
  {
    SemicolonAsWritten();
    SemicolonStrokesAsWritten();
    SemicolonTailAsWritten();
    StrokeTokensThree("02 03 13 12 02 ", "  05 06 16 15 05 ", "  1 2 0 0");
  }

  /** The ';' glyph of the corrected arcade font. */
  lemma SemicolonCorrected()
    ensures ArcadeFontCorrected(';') == "02 03 13 12 02 :  05 06 16 15 05 :  12 00"
  {
  }

  /** The corrected ';' glyph is its two dots and its tail, joined by ':'. */
  lemma SemicolonJoined()
    ensures ':' !in "  12 00"
    ensures "02 03 13 12 02 :  05 06 16 15 05 :  12 00" == "02 03 13 12 02 " + [':'] + "  05 06 16 15 05 " + [':'] + "  12 00"
  {
  }

  /** The corrected ';' splits at ':' into the two dots and the tail "  12 00". */
  lemma SemicolonStrokes()
    ensures Split("02 03 13 12 02 :  05 06 16 15 05 :  12 00", ':') == ["02 03 13 12 02 ", "  05 06 16 15 05 ", "  12 00"]
  {
    SemicolonDotsNoColon();
    SemicolonJoined();
    SplitThree("02 03 13 12 02 :  05 06 16 15 05 :  12 00", ':', "02 03 13 12 02 ", "  05 06 16 15 05 ", "  12 00");
  }

  /** A stroke that starts with a token and a space splits into that token and the rest's tokens. */
  lemma SplitTokens(s: string, first: string, rest: string)
    requires ' ' !in first && s == first + " " + rest
    ensures Split(s, ' ') == [first] + Split(rest, ' ')
  {
    SplitCons(first, ' ', rest);
  }

  /** Two-character tokens separated by single spaces: a space at every third position and nowhere else. */
  predicate PairSpaced(s: string) {
    |s| % 3 == 2 && forall i :: 0 <= i < |s| ==> (s[i] == ' ' <==> i % 3 == 2)
  }

  /** A pair-spaced stroke splits into (|s| + 1) / 3 tokens of two characters each. */
  lemma {:induction false} PairSpacedTokens(s: string)
    requires PairSpaced(s)
    ensures |Split(s, ' ')| == (|s| + 1) / 3
    ensures forall j :: 0 <= j < |Split(s, ' ')| ==> |Split(s, ' ')[j]| == 2
  {
    if |s| == 2 {
      SplitNoSep(s, ' ');
    } else {
      var rest := s[3..];
      assert PairSpaced(rest) by {
        forall i | 0 <= i < |rest| ensures (rest[i] == ' ' <==> i % 3 == 2) {
          assert rest[i] == s[i + 3];
        }
      }
      PairSpacedTokens(rest);
      assert s == s[..2] + [' '] + rest;
      SplitCons(s[..2], ' ', rest);
    }
  }

  /** A stroke of pair-spaced tokens between runs of white space is, once trimmed, pair-spaced. */
  lemma TrimmedPairSpaced(s: string, lead: string, t: string, trail: string)
    requires forall i :: 0 <= i < |lead| ==> IsSpace(lead[i])
    requires forall i :: 0 <= i < |trail| ==> IsSpace(trail[i])
    requires PairSpaced(t) && !IsSpace(t[0]) && !IsSpace(t[|t| - 1])
    requires s == lead + t + trail
    ensures PairSpaced(TrimSpace(s))
  {
    TrimSpaceOf(lead, t, trail);
  }

  /** A glyph of three strokes, each pair-spaced once trimmed, is well formed. */
  lemma ThreeStrokeGlyph(g: string, a: string, b: string, c: string)
    requires Split(g, ':') == [a, b, c]
    requires PairSpaced(TrimSpace(a)) && PairSpaced(TrimSpace(b)) && PairSpaced(TrimSpace(c))
    ensures |GlyphTokens(g)| == 3 && GlyphWellFormed(g)
  {
    StrokeTokensThree(a, b, c);
    PairSpacedTokens(TrimSpace(a));
    PairSpacedTokens(TrimSpace(b));
    PairSpacedTokens(TrimSpace(c));
  }

  /** The upper dot of the ';' glyph, trimmed, is five two-character tokens. */
  lemma SemicolonUpperDot()
    ensures PairSpaced(TrimSpace("02 03 13 12 02 "))
  {
    TrimmedPairSpaced("02 03 13 12 02 ", "", "02 03 13 12 02", " ");
  }

  /** The lower dot of the ';' glyph, trimmed, is five two-character tokens. */
  lemma SemicolonLowerDot()
    ensures PairSpaced(TrimSpace("  05 06 16 15 05 "))
  {
    TrimmedPairSpaced("  05 06 16 15 05 ", "  ", "05 06 16 15 05", " ");
  }

  /** The tail of the corrected ';', trimmed, is two two-character tokens. */
  lemma SemicolonTail()
    ensures PairSpaced(TrimSpace("  12 00"))
  {
    TrimmedPairSpaced("  12 00", "  ", "12 00", "");
  }

  /** The corrected ';' reads as three strokes of two-character tokens: the two dots and a tail. */
  lemma ArcadeSemicolonCorrected()
    ensures |GlyphTokens(ArcadeFontCorrected(';'))| == 3
    ensures GlyphWellFormed(ArcadeFontCorrected(';'))
    ensures GlyphWellFormed(GlyphIntended(FontArcade, ';'))
  {
    SemicolonCorrected();
    SemicolonStrokes();
    SemicolonUpperDot();
    SemicolonLowerDot();
    SemicolonTail();
    ThreeStrokeGlyph("02 03 13 12 02 :  05 06 16 15 05 :  12 00", "02 03 13 12 02 ", "  05 06 16 15 05 ", "  12 00");
  }
}
