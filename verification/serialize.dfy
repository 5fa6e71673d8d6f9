/**
 * The save/load format of serialize.go: a line with the number of points,
 * one "x y z" line per point, a line with the number of segments, then one
 * "i j" line per segment, i and j being the positions of the segment's end
 * points in the point list.
 *
 * A file is a sequence of lines here: the lines Save writes, or the lines a
 * bufio.Scanner yields to LoadShape, one per Scan; a Scan past the last line
 * yields "".  Decimal integers (strconv.Itoa, and strconv.ParseInt with base
 * 10 and bit size 64) are written out; real numbers go through a RealText,
 * the pair of "%f" formatting and strconv.ParseFloat, which is a parameter.
 */
module Serialize {
  import opened Geometry
  import opened Points
  import opened PointLists
  import opened Segments
  import opened SegmentShapes
  import opened Glyphs

  datatype Option<T> = None | Some(value: T)

  // ---------------------------------------------------------------------
  // Decimal integers
  // ---------------------------------------------------------------------

  const Int64Min: int := -0x8000_0000_0000_0000
  const Int64Max: int := 0x7FFF_FFFF_FFFF_FFFF

  predicate IsDigit(c: char) {
    '0' <= c <= '9'
  }

  function DigitChar(d: nat): (c: char)
    requires d < 10
    ensures IsDigit(c) && DigitValue(c) == d
  {
    ('0' as int + d) as char
  }

  /** The decimal digits of `n`, most significant first and without leading zeros. */
  function Digits(n: nat): (r: string)
    ensures |r| >= 1 && forall i :: 0 <= i < |r| ==> IsDigit(r[i])
  {
    if n < 10 then [DigitChar(n)] else Digits(n / 10) + [DigitChar(n % 10)]
  }

  /** strconv.Itoa: a minus sign for a negative number, then the digits of its magnitude. */
  function Itoa(n: int): string {
    if n < 0 then "-" + Digits(-n) else Digits(n)
  }

  function DigitValue(c: char): (v: nat)
    requires IsDigit(c)
    ensures v < 10
  {
    c as int - '0' as int
  }

  /** The number a string of decimal digits stands for. */
  function DigitsValue(s: string): nat
    requires forall i :: 0 <= i < |s| ==> IsDigit(s[i])
  {
    if |s| == 0 then 0 else DigitsValue(s[..|s| - 1]) * 10 + DigitValue(s[|s| - 1])
  }

  predicate AllDigits(s: string) {
    |s| >= 1 && forall i :: 0 <= i < |s| ==> IsDigit(s[i])
  }

  /**
   * strconv.ParseInt(s, 10, 64): an optional sign, then one or more decimal
   * digits and nothing else, with a value that fits in 64 bits.
   */
  function ParseInt(s: string): (r: Option<int>)
    ensures r.Some? ==> Int64Min <= r.value <= Int64Max
  {
    var signed := |s| > 0 && (s[0] == '-' || s[0] == '+');
    var body := if signed then s[1..] else s;
    if !AllDigits(body) then None
    else
      var v: int := if signed && s[0] == '-' then -(DigitsValue(body) as int) else DigitsValue(body);
      if Int64Min <= v <= Int64Max then Some(v) else None
  }

  lemma {:induction false} DigitsValueOfDigits(n: nat)
    ensures DigitsValue(Digits(n)) == n
  {
    if n >= 10 {
      DigitsValueOfDigits(n / 10);
      var s := Digits(n);
      assert s[..|s| - 1] == Digits(n / 10);
    }
  }

  /** What Itoa writes, ParseInt reads back, for every 64-bit integer. */
  lemma ParseIntItoa(n: int)
    requires Int64Min <= n <= Int64Max
    ensures ParseInt(Itoa(n)) == Some(n)
  {
    var s := Itoa(n);
    if n < 0 {
      DigitsValueOfDigits(-n);
      assert s[0] == '-' && s[1..] == Digits(-n);
    } else {
      DigitsValueOfDigits(n);
      assert s == Digits(n) && IsDigit(s[0]);
    }
  }

  /** Itoa never writes a space, so a written number is one field of its line. */
  lemma ItoaNoSpace(n: int)
    ensures ' ' !in Itoa(n)
  {
    var s := Itoa(n);
    forall k | 0 <= k < |s| ensures s[k] != ' ' {
      if n < 0 && k > 0 {
        assert s[k] == Digits(-n)[k - 1];
      }
    }
  }

  // ---------------------------------------------------------------------
  // Real numbers, lines and outcomes
  // ---------------------------------------------------------------------

  /** The text form of a real: "%f" formatting and strconv.ParseFloat. */
  datatype RealText = RealText(format: real -> string, parse: string -> Option<real>)

  /** Every formatted real is one field without spaces that parses back to some value. */
  ghost predicate Readable(t: RealText) {
    forall x :: ' ' !in t.format(x) && t.parse(t.format(x)).Some?
  }

  /** The value a real has after being written and read back ("%f" keeps six decimals). */
  function Reread(t: RealText, x: real): real
    requires Readable(t)
  {
    t.parse(t.format(x)).value
  }

  function RereadVec(t: RealText, v: Vec3): Vec3
    requires Readable(t)
  {
    Vec3(Reread(t, v.x), Reread(t, v.y), Reread(t, v.z))
  }

  function RereadAll(t: RealText, vs: seq<Vec3>): (r: seq<Vec3>)
    requires Readable(t)
    ensures |r| == |vs| && forall i :: 0 <= i < |vs| ==> r[i] == RereadVec(t, vs[i])
  {
    seq(|vs|, i requires 0 <= i < |vs| => RereadVec(t, vs[i]))
  }

  /** The line a Scan at position `k` yields: that line, or "" once the lines have run out. */
  function LineAt(lines: seq<string>, k: nat): string {
    if k < |lines| then lines[k] else ""
  }

  /** The two errors LoadShape reports: "unable to parse shape: ..." and "invalid segment index, ...". */
  datatype LoadError = ParseFailure | BadIndex

  /** How a parse ends: with a value, with an error returned, or in a panic. */
  datatype Outcome<T> = Done(value: T) | Failed(error: LoadError) | Panicked

  // ---------------------------------------------------------------------
  // parseCoords and parseIndices
  // ---------------------------------------------------------------------

  /**
   * parseCoords: the line split on single spaces; fields 0, 1 and 2 parsed
   * in turn.  Reading a field the line does not have panics; a field that
   * does not parse is an error; fields after the third are ignored.
   */
  function ParseCoords(line: string, t: RealText): Outcome<Vec3> {
    var fields := Split(line, ' ');
    match t.parse(fields[0])
    case None => Failed(ParseFailure)
    case Some(x) =>
      if |fields| < 2 then Panicked else
      match t.parse(fields[1])
      case None => Failed(ParseFailure)
      case Some(y) =>
        if |fields| < 3 then Panicked else
        match t.parse(fields[2])
        case None => Failed(ParseFailure)
        case Some(z) => Done(Vec3(x, y, z))
  }

  /** parseIndices: as parseCoords, with two decimal integer fields. */
  function ParseIndices(line: string): Outcome<(int, int)> {
    var fields := Split(line, ' ');
    match ParseInt(fields[0])
    case None => Failed(ParseFailure)
    case Some(i) =>
      if |fields| < 2 then Panicked else
      match ParseInt(fields[1])
      case None => Failed(ParseFailure)
      case Some(j) => Done((i, j))
  }

  /** The line Save writes for a point: its three coordinates separated by single spaces. */
  function CoordsLine(v: Vec3, t: RealText): string {
    Join([t.format(v.x), t.format(v.y), t.format(v.z)], ' ')
  }

  /** The line Save writes for a segment: its two indices separated by a single space. */
  function PairLine(p: (int, int)): string {
    Join([Itoa(p.0), Itoa(p.1)], ' ')
  }

  /** parseCoords reads back the coordinates of the line Save writes for a point. */
  lemma ParseCoordsLine(v: Vec3, t: RealText)
    requires Readable(t)
    ensures ParseCoords(CoordsLine(v, t), t) == Done(RereadVec(t, v))
  {
    var pieces := [t.format(v.x), t.format(v.y), t.format(v.z)];
    JoinSplit(pieces, ' ');
  }

  /** parseIndices reads back the pair of the line Save writes for a segment. */
  lemma ParseIndicesLine(p: (int, int))
    requires Int64Min <= p.0 <= Int64Max && Int64Min <= p.1 <= Int64Max
    ensures ParseIndices(PairLine(p)) == Done(p)
  {
    ItoaNoSpace(p.0);
    ItoaNoSpace(p.1);
    JoinSplit([Itoa(p.0), Itoa(p.1)], ' ');
    ParseIntItoa(p.0);
    ParseIntItoa(p.1);
  }

  /**
   * A coordinate line with fewer than three fields never gives a point: it
   * is an error if a field it has does not parse, and otherwise a panic.
   */
  lemma ShortCoordsLine(line: string, t: RealText)
    requires |Split(line, ' ')| < 3
    ensures !ParseCoords(line, t).Done?
    ensures (forall i :: 0 <= i < |Split(line, ' ')| ==> t.parse(Split(line, ' ')[i]).Some?) ==>
      ParseCoords(line, t) == Panicked
  {
  }

  /**
   * An index line with one field never gives a pair: it is an error if the
   * field does not parse, and otherwise a panic.
   */
  lemma ShortIndicesLine(line: string)
    requires |Split(line, ' ')| < 2
    ensures !ParseIndices(line).Done?
    ensures ParseInt(Split(line, ' ')[0]).Some? ==> ParseIndices(line) == Panicked
  {
  }

  // ---------------------------------------------------------------------
  // LoadShape as a function of the lines
  // ---------------------------------------------------------------------

  /** One index line read against `n` points: parseIndices, then LoadShape's check that both name a point. */
  function IndexLine(line: string, n: nat): (r: Outcome<(int, int)>)
    ensures r.Done? ==> 0 <= r.value.0 < n && 0 <= r.value.1 < n
  {
    match ParseIndices(line)
    case Failed(e) => Failed(e)
    case Panicked => Panicked
    case Done(p) => if 0 <= p.0 < n && 0 <= p.1 < n then Done(p) else Failed(BadIndex)
  }

  /**
   * Lines read in order, each giving an outcome: the values of all of them,
   * or the first outcome that is not a value.
   */
  function Collect<T>(outs: seq<Outcome<T>>): (r: Outcome<seq<T>>)
    ensures r.Done? ==> |r.value| == |outs|
  {
    if |outs| == 0 then Done([])
    else
      match Collect(outs[..|outs| - 1])
      case Failed(e) => Failed(e)
      case Panicked => Panicked
      case Done(vs) =>
        match outs[|outs| - 1]
        case Failed(e) => Failed(e)
        case Panicked => Panicked
        case Done(v) => Done(vs + [v])
  }

  /** The outcomes of coordinate lines 1 .. count. */
  function PointLines(lines: seq<string>, count: nat, t: RealText): seq<Outcome<Vec3>> {
    seq(count, k requires 0 <= k < count => ParseCoords(LineAt(lines, k + 1), t))
  }

  /** The outcomes of index lines start .. start + count - 1, against `n` points. */
  function PairLines(lines: seq<string>, start: nat, count: nat, n: nat): (r: seq<Outcome<(int, int)>>)
    ensures |r| == count
  {
    seq(count, k requires 0 <= k < count => IndexLine(LineAt(lines, start + k), n))
  }

  /** Index lines that all give pairs give pairs that name listed points. */
  lemma CollectedInRange(lines: seq<string>, start: nat, count: nat, n: nat)
    requires Collect(PairLines(lines, start, count, n)).Done?
    ensures InRange(Collect(PairLines(lines, start, count, n)).value, n)
  {
    var outs := PairLines(lines, start, count, n);
    var pairs := Collect(outs).value;
    CollectValues(outs);
    forall k | 0 <= k < |pairs| ensures 0 <= pairs[k].0 < n && 0 <= pairs[k].1 < n {
      assert outs[k] == IndexLine(LineAt(lines, start + k), n);
      assert outs[k] == Done(pairs[k]);
    }
  }

  /** An index line holding a pair of listed points gives that pair. */
  lemma PairLineAt(lines: seq<string>, start: nat, count: nat, n: nat, k: nat, p: (int, int))
    requires k < count && start + k < |lines| && lines[start + k] == PairLine(p)
    requires 0 <= p.0 < n && 0 <= p.1 < n && n <= Int64Max
    ensures PairLines(lines, start, count, n)[k] == Done(p)
  {
    var line := LineAt(lines, start + k);
    assert line == PairLine(p);
    ParseIndicesLine(p);
    assert PairLines(lines, start, count, n)[k] == IndexLine(line, n);
  }

  /** A coordinate line as Save writes it gives the point reread. */
  lemma CoordsLineAt(lines: seq<string>, count: nat, t: RealText, k: nat, v: Vec3)
    requires Readable(t) && k < count && k + 1 < |lines| && lines[k + 1] == CoordsLine(v, t)
    ensures PointLines(lines, count, t)[k] == Done(RereadVec(t, v))
  {
    ParseCoordsLine(v, t);
  }

  /** An index line of two single digits: their pair if both name one of `n` points, and otherwise BadIndex. */
  lemma DigitPairAt(lines: seq<string>, start: nat, count: nat, n: nat, k: nat, a: char, b: char)
    requires k < count && start + k < |lines| && lines[start + k] == [a, ' ', b] && IsDigit(a) && IsDigit(b)
    ensures PairLines(lines, start, count, n)[k] ==
      if DigitValue(a) < n && DigitValue(b) < n then Done((DigitValue(a), DigitValue(b))) else Failed(BadIndex)
  {
    var line := LineAt(lines, start + k);
    assert line == [a, ' ', b];
    ParseDigitPair(a, b);
    assert PairLines(lines, start, count, n)[k] == IndexLine(line, n);
  }

  /** What a loaded shape is made of: the coordinates of its points and the index pairs of its segments. */
  datatype Loaded = Loaded(coords: seq<Vec3>, pairs: seq<(int, int)>)

  /** A count line as `for range` uses it: a negative count loops no times. */
  function Count(n: int): nat {
    if n < 0 then 0 else n
  }

  /** The rest of LoadShape once `np` points are read: the segment count, then that many index lines. */
  function LoadSegments(lines: seq<string>, np: nat, coords: seq<Vec3>): (r: Outcome<Loaded>)
    ensures r.Done? ==> r.value.coords == coords && InRange(r.value.pairs, np)
  {
    match ParseInt(LineAt(lines, np + 1))
    case None => Failed(ParseFailure)
    case Some(numSegments) =>
      match Collect(PairLines(lines, np + 2, Count(numSegments), np))
      case Failed(e) => Failed(e)
      case Panicked => Panicked
      case Done(pairs) =>
        CollectedInRange(lines, np + 2, Count(numSegments), np);
        Done(Loaded(coords, pairs))
  }

  /**
   * LoadShape on `lines`: the point count, that many coordinate lines, the
   * segment count, that many index lines; lines after them are not read.
   */
  function Load(lines: seq<string>, t: RealText): (r: Outcome<Loaded>)
    ensures r.Done? ==> ParseInt(LineAt(lines, 0)).Some?
    ensures r.Done? ==> |r.value.coords| == Count(ParseInt(LineAt(lines, 0)).value)
    ensures r.Done? ==> InRange(r.value.pairs, |r.value.coords|)
  {
    match ParseInt(LineAt(lines, 0))
    case None => Failed(ParseFailure)
    case Some(numPoints) =>
      match Collect(PointLines(lines, Count(numPoints), t))
      case Failed(e) => Failed(e)
      case Panicked => Panicked
      case Done(coords) => LoadSegments(lines, Count(numPoints), coords)
  }

  /** When the lines give values, each line gave the value at its position. */
  lemma {:induction false} CollectValues<T>(outs: seq<Outcome<T>>)
    requires Collect(outs).Done?
    ensures forall k :: 0 <= k < |outs| ==> outs[k] == Done(Collect(outs).value[k])
  {
    if |outs| > 0 {
      var n := |outs| - 1;
      CollectValues(outs[..n]);
      assert forall k :: 0 <= k < n ==> outs[..n][k] == outs[k];
    }
  }

  /** When every line gives a value, the lines give the sequence of those values. */
  lemma {:induction false} CollectDone<T>(outs: seq<Outcome<T>>, vs: seq<T>)
    requires |vs| == |outs| && forall k :: 0 <= k < |outs| ==> outs[k] == Done(vs[k])
    ensures Collect(outs) == Done(vs)
  {
    if |outs| > 0 {
      var n := |outs| - 1;
      CollectDone(outs[..n], vs[..n]);
      assert vs == vs[..n] + [vs[n]];
    }
  }

  /** One more line that gives a value extends the values of the lines before it. */
  lemma CollectNext<T>(outs: seq<Outcome<T>>, m: nat, vs: seq<T>, v: T)
    requires m < |outs| && Collect(outs[..m]) == Done(vs) && outs[m] == Done(v)
    ensures Collect(outs[..m + 1]) == Done(vs + [v])
  {
    assert outs[..m + 1][..m] == outs[..m];
  }

  /** Once a line fails, the lines after it are not looked at. */
  lemma {:induction false} CollectStops<T>(outs: seq<Outcome<T>>, m: nat)
    requires m <= |outs| && !Collect(outs[..m]).Done?
    ensures Collect(outs) == Collect(outs[..m])
  {
    if m < |outs| {
      var front := outs[..|outs| - 1];
      assert front[..m] == outs[..m];
      CollectStops(front, m);
    } else {
      assert outs[..m] == outs;
    }
  }

  /** A line that does not give a value, after lines that all do, decides the outcome: its error, or its panic. */
  lemma CollectFails<T>(outs: seq<Outcome<T>>, m: nat, vs: seq<T>)
    requires m < |outs| && Collect(outs[..m]) == Done(vs) && !outs[m].Done?
    ensures Collect(outs) == if outs[m].Failed? then Failed(outs[m].error) else Panicked
  {
    assert outs[..m + 1][..m] == outs[..m];
    CollectStops(outs, m + 1);
  }

  /** The first line that does not give a value decides the outcome: its error, or its panic. */
  lemma CollectFirstFailure<T>(outs: seq<Outcome<T>>, m: nat)
    requires m < |outs| && !outs[m].Done? && forall k :: 0 <= k < m ==> outs[k].Done?
    ensures Collect(outs) == if outs[m].Failed? then Failed(outs[m].error) else Panicked
  {
    var vs := seq(m, k requires 0 <= k < m => outs[k].value);
    CollectDone(outs[..m], vs);
    CollectFails(outs, m, vs);
  }

  /**
   * LoadShape's first loop: `count` coordinate lines, each a new point
   * appended to `s`, until one fails.
   */
  method AddPoints(s: Shape, lines: seq<string>, count: nat, t: RealText) returns (err: Option<LoadError>)
    requires s.Points == [] && s.Segments == [] && !Collect(PointLines(lines, count, t)).Panicked?
    modifies s
    ensures s.Segments == [] && Distinct(s.Points) && forall i :: 0 <= i < |s.Points| ==> fresh(s.Points[i])
    ensures err.None? ==> Collect(PointLines(lines, count, t)) == Done(CoordsOf(s.Points)) && |s.Points| == count
    ensures err.Some? ==> Collect(PointLines(lines, count, t)) == Failed(err.value)
  {
    ghost var outs := PointLines(lines, count, t);
    var k := 0;
    while k < count
      invariant 0 <= k <= count && s.Segments == []
      invariant Distinct(s.Points) && forall i :: 0 <= i < |s.Points| ==> fresh(s.Points[i])
      invariant Collect(outs[..k]) == Done(CoordsOf(s.Points))
    {
      var c := ParseCoords(LineAt(lines, k + 1), t);
      assert c == outs[k];
      if !c.Done? {
        CollectFails(outs, k, CoordsOf(s.Points));
        return Some(c.error);
      }
      AddPoint(s, k, outs, c.value);
      k := k + 1;
    }
    assert outs[..k] == outs;
    return None;
  }

  /** One turn of AddPoints: the point of coordinate line k + 1 appended as a new point. */
  method AddPoint(s: Shape, k: nat, ghost outs: seq<Outcome<Vec3>>, v: Vec3)
    requires k < |outs| && outs[k] == Done(v)
    requires s.Segments == [] && Distinct(s.Points) && Collect(outs[..k]) == Done(CoordsOf(s.Points))
    modifies s
    ensures s.Segments == [] && Distinct(s.Points) && Collect(outs[..k + 1]) == Done(CoordsOf(s.Points))
    ensures |s.Points| == |old(s.Points)| + 1 && s.Points == old(s.Points) + [s.Points[|old(s.Points)|]]
    ensures fresh(s.Points[|old(s.Points)|])
  {
    ghost var before := CoordsOf(s.Points);
    CollectNext(outs, k, before, v);
    s.AddXYZ(v.x, v.y, v.z);
    assert CoordsOf(s.Points) == before + [v];
  }

  /**
   * LoadShape's second loop: `count` index lines from line `start`, each a
   * segment appended to `s` between two of its points, until one fails or
   * names no point.
   */
  method AddSegments(s: Shape, lines: seq<string>, start: nat, count: nat) returns (err: Option<LoadError>, ghost pairs: seq<(int, int)>)
    requires s.Segments == [] && !Collect(PairLines(lines, start, count, |s.Points|)).Panicked?
    modifies s
    ensures s.Points == old(s.Points)
    ensures err.None? ==> Collect(PairLines(lines, start, count, |s.Points|)) == Done(pairs) && Wired(s.Points, s.Segments, pairs)
    ensures err.Some? ==> Collect(PairLines(lines, start, count, |s.Points|)) == Failed(err.value)
  {
    err, pairs := None, [];
    var n := |s.Points|;
    ghost var outs := PairLines(lines, start, count, n);
    var m := 0;
    while m < count
      invariant 0 <= m <= count && s.Points == old(s.Points) && |s.Points| == n
      invariant Collect(outs[..m]) == Done(pairs) && Wired(s.Points, s.Segments, pairs)
    {
      var o := IndexLine(LineAt(lines, start + m), n);
      assert o == outs[m];
      if !o.Done? {
        CollectFails(outs, m, pairs);
        return Some(o.error), pairs;
      }
      pairs := AddSegment(s, m, outs, pairs, o.value);
      m := m + 1;
    }
    assert outs[..m] == outs;
  }

  /** One turn of AddSegments: the segment of index line m appended. */
  method AddSegment(s: Shape, m: nat, ghost outs: seq<Outcome<(int, int)>>, ghost pairs: seq<(int, int)>, p: (int, int))
    returns (ghost more: seq<(int, int)>)
    requires m < |outs| && outs[m] == Done(p) && 0 <= p.0 < |s.Points| && 0 <= p.1 < |s.Points|
    requires Collect(outs[..m]) == Done(pairs) && Wired(s.Points, s.Segments, pairs)
    modifies s
    ensures s.Points == old(s.Points)
    ensures Collect(outs[..m + 1]) == Done(more) && Wired(s.Points, s.Segments, more)
  {
    CollectNext(outs, m, pairs, p);
    WiredSnoc(s.Points, s.Segments, pairs, p.0, p.1);
    s.AddSegmentByIndex(p.0, p.1);
    more := pairs + [p];
  }

  /** LoadShape after the points: the segment count and the segments, into `s`. */
  method FinishShape(s: Shape, lines: seq<string>, np: nat) returns (shape: Shape?, err: Option<LoadError>)
    requires |s.Points| == np && s.Segments == []
    requires !LoadSegments(lines, np, CoordsOf(s.Points)).Panicked?
    modifies s
    ensures var r := LoadSegments(lines, np, old(CoordsOf(s.Points)));
      (r.Failed? ==> shape == null && err == Some(r.error)) &&
      (r.Done? ==> err == None && shape == s && s.Points == old(s.Points) &&
                   CoordsOf(s.Points) == r.value.coords && Wired(s.Points, s.Segments, r.value.pairs))
  {
    var segHeader := ParseInt(LineAt(lines, np + 1));
    if segHeader.None? {
      return null, Some(ParseFailure);
    }
    ghost var pairs;
    err, pairs := AddSegments(s, lines, np + 2, Count(segHeader.value));
    if err.Some? {
      return null, err;
    }
    return s, None;
  }

  /** LoadShape: the shape the lines describe, or the error that stops the reading. */
  method LoadShape(lines: seq<string>, t: RealText) returns (shape: Shape?, err: Option<LoadError>)
    requires !Load(lines, t).Panicked?
    ensures Load(lines, t).Failed? ==> shape == null && err == Some(Load(lines, t).error)
    ensures Load(lines, t).Done? ==> err == None && shape != null && fresh(shape)
    ensures Load(lines, t).Done? ==>
              shape != null && Distinct(shape.Points) && forall i :: 0 <= i < |shape.Points| ==> fresh(shape.Points[i])
    ensures Load(lines, t).Done? ==>
              shape != null && CoordsOf(shape.Points) == Load(lines, t).value.coords &&
              Wired(shape.Points, shape.Segments, Load(lines, t).value.pairs)
  {
    var header := ParseInt(LineAt(lines, 0));
    if header.None? {
      return null, Some(ParseFailure);
    }
    var np := Count(header.value);
    var s := new Shape();
    err := AddPoints(s, lines, np, t);
    if err.Some? {
      return null, err;
    }
    assert Load(lines, t) == LoadSegments(lines, np, CoordsOf(s.Points));
    shape, err := FinishShape(s, lines, np);
  }

  // ---------------------------------------------------------------------
  // Save
  // ---------------------------------------------------------------------

  /** slices.Index: the first position of `p` in `points`, or -1 when it is not there. */
  function IndexOf(points: seq<Point>, p: Point): (i: int)
    ensures -1 <= i < |points|
    ensures i >= 0 ==> points[i] == p && forall j :: 0 <= j < i ==> points[j] != p
    ensures i == -1 ==> p !in points
  {
    if |points| == 0 then -1
    else if points[0] == p then 0
    else
      var k := IndexOf(points[1..], p);
      if k < 0 then -1 else k + 1
  }

  /** The index pairs Save writes: the position of each segment's end points in the point list. */
  function SavedPairs(points: seq<Point>, segments: seq<Segment>): (r: seq<(int, int)>)
    ensures |r| == |segments|
    ensures forall k :: 0 <= k < |segments| ==>
      r[k] == (IndexOf(points, segments[k].PointA), IndexOf(points, segments[k].PointB))
  {
    seq(|segments|, k requires 0 <= k < |segments| =>
      (IndexOf(points, segments[k].PointA), IndexOf(points, segments[k].PointB)))
  }

  /**
   * The lines of a saved shape with these coordinates and index pairs: the
   * point count, a line per point, the segment count, a line per segment.
   */
  function SavedLines(coords: seq<Vec3>, pairs: seq<(int, int)>, t: RealText): (r: seq<string>)
    ensures |r| == |coords| + |pairs| + 2
    ensures r[0] == Itoa(|coords|) && r[|coords| + 1] == Itoa(|pairs|)
    ensures forall i :: 0 <= i < |coords| ==> r[i + 1] == CoordsLine(coords[i], t)
    ensures forall k :: 0 <= k < |pairs| ==> r[|coords| + 2 + k] == PairLine(pairs[k])
  {
    [Itoa(|coords|)] + seq(|coords|, i requires 0 <= i < |coords| => CoordsLine(coords[i], t)) +
    [Itoa(|pairs|)] + seq(|pairs|, k requires 0 <= k < |pairs| => PairLine(pairs[k]))
  }

  /** Save: the point count, a line per point, the segment count, a line per segment. */
  method Save(s: Shape, t: RealText) returns (lines: seq<string>)
    ensures lines == SavedLines(CoordsOf(s.Points), SavedPairs(s.Points, s.Segments), t)
  {
    ghost var coords := CoordsOf(s.Points);
    ghost var pairs := SavedPairs(s.Points, s.Segments);
    lines := [Itoa(|s.Points|)];
    for i := 0 to |s.Points|
      invariant lines == [Itoa(|coords|)] + seq(i, n requires 0 <= n < i => CoordsLine(coords[n], t))
    {
      var p := s.Points[i];
      lines := lines + [CoordsLine(Vec3(p.X, p.Y, p.Z), t)];
    }
    lines := lines + [Itoa(|s.Segments|)];
    ghost var front := lines;
    for k := 0 to |s.Segments|
      invariant lines == front + seq(k, n requires 0 <= n < k => PairLine(pairs[n]))
    {
      var seg := s.Segments[k];
      var i := IndexOf(s.Points, seg.PointA);
      var j := IndexOf(s.Points, seg.PointB);
      lines := lines + [PairLine((i, j))];
    }
  }

  // ---------------------------------------------------------------------
  // Save, then load
  // ---------------------------------------------------------------------

  /** When no point is listed twice, the position of a listed point is its index. */
  lemma IndexOfDistinct(points: seq<Point>, i: nat)
    requires Distinct(points) && i < |points|
    ensures IndexOf(points, points[i]) == i
  {
  }

  /** Save writes exactly the index pairs a shape's segments are wired by, when no point is listed twice. */
  lemma SavedPairsOfWired(points: seq<Point>, segments: seq<Segment>, pairs: seq<(int, int)>)
    requires Distinct(points) && Wired(points, segments, pairs)
    ensures SavedPairs(points, segments) == pairs
  {
    forall k | 0 <= k < |pairs| ensures SavedPairs(points, segments)[k] == pairs[k] {
      IndexOfDistinct(points, pairs[k].0);
      IndexOfDistinct(points, pairs[k].1);
    }
  }

  /** The coordinate lines Save writes read back as the reread coordinates. */
  lemma ReadSavedPoints(coords: seq<Vec3>, pairs: seq<(int, int)>, t: RealText)
    requires Readable(t)
    ensures Collect(PointLines(SavedLines(coords, pairs, t), |coords|, t)) == Done(RereadAll(t, coords))
  {
    var lines := SavedLines(coords, pairs, t);
    var outs := PointLines(lines, |coords|, t);
    forall k | 0 <= k < |coords| ensures outs[k] == Done(RereadAll(t, coords)[k]) {
      CoordsLineAt(lines, |coords|, t, k, coords[k]);
    }
    CollectDone(outs, RereadAll(t, coords));
  }

  /** The index lines Save writes read back as the same pairs. */
  lemma ReadSavedPairs(coords: seq<Vec3>, pairs: seq<(int, int)>, t: RealText)
    requires InRange(pairs, |coords|) && |coords| <= Int64Max
    ensures Collect(PairLines(SavedLines(coords, pairs, t), |coords| + 2, |pairs|, |coords|)) == Done(pairs)
  {
    var lines := SavedLines(coords, pairs, t);
    var outs := PairLines(lines, |coords| + 2, |pairs|, |coords|);
    forall k | 0 <= k < |pairs| ensures outs[k] == Done(pairs[k]) {
      PairLineAt(lines, |coords| + 2, |pairs|, |coords|, k, pairs[k]);
    }
    CollectDone(outs, pairs);
  }

  /**
   * Loading the lines Save writes gives back the same number of points, each
   * with its coordinates as formatted and parsed, and the same index pairs.
   */
  lemma LoadSavedLines(coords: seq<Vec3>, pairs: seq<(int, int)>, t: RealText)
    requires Readable(t) && InRange(pairs, |coords|) && |coords| <= Int64Max && |pairs| <= Int64Max
    ensures Load(SavedLines(coords, pairs, t), t) == Done(Loaded(RereadAll(t, coords), pairs))
  {
    var lines := SavedLines(coords, pairs, t);
    assert LineAt(lines, 0) == Itoa(|coords|);
    ParseIntItoa(|coords|);
    ReadSavedPoints(coords, pairs, t);
    assert LineAt(lines, |coords| + 1) == Itoa(|pairs|);
    ParseIntItoa(|pairs|);
    ReadSavedPairs(coords, pairs, t);
  }

  /**
   * A shape whose points are listed once each and whose segments join
   * listed points loads back from what Save writes with the same points, as
   * reread, and the same segments by index.
   */
  lemma SaveThenLoad(points: seq<Point>, segments: seq<Segment>, pairs: seq<(int, int)>, t: RealText)
    requires Readable(t) && Distinct(points) && Wired(points, segments, pairs)
    requires |points| <= Int64Max && |segments| <= Int64Max
    ensures Load(SavedLines(CoordsOf(points), SavedPairs(points, segments), t), t) ==
      Done(Loaded(RereadAll(t, CoordsOf(points)), pairs))
  {
    SavedPairsOfWired(points, segments, pairs);
    LoadSavedLines(CoordsOf(points), pairs, t);
  }

  // ---------------------------------------------------------------------
  // The header's example
  // ---------------------------------------------------------------------

  /** The triangle in the format's description at the head of serialize.go, as written there. */
  const TriangleAsWritten: seq<string> := ["3", "0 -10 0", "10 10 0", "-10 10 0", "3", "0 1", "1 2", "2 3"]

  /** The same triangle with its last segment closing back to point 0. */
  const TriangleIntended: seq<string> := ["3", "0 -10 0", "10 10 0", "-10 10 0", "3", "0 1", "1 2", "2 0"]

  /** The number fields of the triangle parse with any text form that reads them. */
  predicate ReadsTriangle(t: RealText) {
    t.parse("0").Some? && t.parse("10").Some? && t.parse("-10").Some?
  }

  /** A line of three space-free fields that each parse is read as the point they give. */
  lemma ParseCoordsFields(a: string, b: string, c: string, t: RealText)
    requires ' ' !in a && ' ' !in b && ' ' !in c
    requires t.parse(a).Some? && t.parse(b).Some? && t.parse(c).Some?
    ensures ParseCoords(Join([a, b, c], ' '), t) == Done(Vec3(t.parse(a).value, t.parse(b).value, t.parse(c).value))
  {
    JoinSplit([a, b, c], ' ');
  }

  /** The triangle's three corners, as parsed. */
  function TriangleCorners(t: RealText): seq<Vec3>
    requires ReadsTriangle(t)
  {
    var zero, ten, minusTen := t.parse("0").value, t.parse("10").value, t.parse("-10").value;
    [Vec3(zero, minusTen, zero), Vec3(ten, ten, zero), Vec3(minusTen, ten, zero)]
  }

  /** A single digit parses as its value. */
  lemma ParseOneDigit(c: char)
    requires IsDigit(c)
    ensures ParseInt([c]) == Some(DigitValue(c))
  {
    assert [c][..0] == [];
    assert DigitsValue([c]) == DigitValue(c);
  }

  /** Two single digits separated by a space parse as the pair of their values. */
  lemma ParseDigitPair(a: char, b: char)
    requires IsDigit(a) && IsDigit(b)
    ensures ParseIndices([a, ' ', b]) == Done((DigitValue(a), DigitValue(b)))
  {
    assert [a, ' ', b] == Join([[a], [b]], ' ');
    JoinSplit([[a], [b]], ' ');
    ParseOneDigit(a);
    ParseOneDigit(b);
  }

  /** The three point lines of both versions, each read as its corner. */
  lemma TriangleCornerLines(t: RealText)
    requires ReadsTriangle(t)
    ensures ParseCoords("0 -10 0", t) == Done(TriangleCorners(t)[0])
    ensures ParseCoords("10 10 0", t) == Done(TriangleCorners(t)[1])
    ensures ParseCoords("-10 10 0", t) == Done(TriangleCorners(t)[2])
  {
    assert "0 -10 0" == Join(["0", "-10", "0"], ' ');
    assert "10 10 0" == Join(["10", "10", "0"], ' ');
    assert "-10 10 0" == Join(["-10", "10", "0"], ' ');
    ParseCoordsFields("0", "-10", "0", t);
    ParseCoordsFields("10", "10", "0", t);
    ParseCoordsFields("-10", "10", "0", t);
  }

  /** The first five lines of both versions: three points and a segment count of three. */
  lemma TriangleHead(lines: seq<string>, t: RealText)
    requires ReadsTriangle(t) && |lines| == 8
    requires lines[0] == "3" && lines[1] == "0 -10 0" && lines[2] == "10 10 0" && lines[3] == "-10 10 0" && lines[4] == "3"
    ensures ParseInt(LineAt(lines, 0)) == Some(3) && ParseInt(LineAt(lines, 4)) == Some(3)
    ensures Collect(PointLines(lines, 3, t)) == Done(TriangleCorners(t))
  {
    ParseOneDigit('3');
    TriangleCornerLines(t);
    TrianglePointLines(lines, t);
  }

  /** Three point lines each read as their corner are collected into the three corners. */
  lemma TrianglePointLines(lines: seq<string>, t: RealText)
    requires ReadsTriangle(t) && |lines| == 8
    requires ParseCoords(lines[1], t) == Done(TriangleCorners(t)[0])
    requires ParseCoords(lines[2], t) == Done(TriangleCorners(t)[1])
    requires ParseCoords(lines[3], t) == Done(TriangleCorners(t)[2])
    ensures Collect(PointLines(lines, 3, t)) == Done(TriangleCorners(t))
  {
    CollectDone(PointLines(lines, 3, t), TriangleCorners(t));
  }

  /** Once the point count and the points are read, LoadShape goes on with the segments. */
  lemma LoadFrom(lines: seq<string>, t: RealText, np: nat, coords: seq<Vec3>)
    requires ParseInt(LineAt(lines, 0)) == Some(np) && Collect(PointLines(lines, np, t)) == Done(coords)
    ensures Load(lines, t) == LoadSegments(lines, np, coords)
  {
  }

  /** Once the segment count is read, the index lines decide the rest. */
  lemma LoadSegmentsFrom(lines: seq<string>, np: nat, coords: seq<Vec3>, ns: nat)
    requires ParseInt(LineAt(lines, np + 1)) == Some(ns)
    ensures Collect(PairLines(lines, np + 2, ns, np)).Done? ==>
      LoadSegments(lines, np, coords) == Done(Loaded(coords, Collect(PairLines(lines, np + 2, ns, np)).value))
    ensures Collect(PairLines(lines, np + 2, ns, np)).Failed? ==>
      LoadSegments(lines, np, coords) == Failed(Collect(PairLines(lines, np + 2, ns, np)).error)
  {
  }

  /** The segment lines of a triangle whose last segment "2 d" names one of its three points. */
  lemma TriangleSidesClosed(lines: seq<string>, last: char)
    requires |lines| == 8 && IsDigit(last) && DigitValue(last) < 3
    requires lines[5] == "0 1" && lines[6] == "1 2" && lines[7] == ['2', ' ', last]
    ensures Collect(PairLines(lines, 5, 3, 3)) == Done([(0, 1), (1, 2), (2, DigitValue(last))])
  {
    DigitPairAt(lines, 5, 3, 3, 0, '0', '1');
    DigitPairAt(lines, 5, 3, 3, 1, '1', '2');
    DigitPairAt(lines, 5, 3, 3, 2, '2', last);
    CollectDone(PairLines(lines, 5, 3, 3), [(0, 1), (1, 2), (2, DigitValue(last))]);
  }

  /** The segment lines of a triangle whose last segment "2 d" names no point of three. */
  lemma TriangleSidesOpen(lines: seq<string>, last: char)
    requires |lines| == 8 && IsDigit(last) && DigitValue(last) >= 3
    requires lines[5] == "0 1" && lines[6] == "1 2" && lines[7] == ['2', ' ', last]
    ensures Collect(PairLines(lines, 5, 3, 3)) == Failed(BadIndex)
  {
    DigitPairAt(lines, 5, 3, 3, 0, '0', '1');
    DigitPairAt(lines, 5, 3, 3, 1, '1', '2');
    DigitPairAt(lines, 5, 3, 3, 2, '2', last);
    CollectFirstFailure(PairLines(lines, 5, 3, 3), 2);
  }

  /**
   * Both versions of the triangle: the last segment "2 d" loads when d names
   * one of the three points, and is rejected as BadIndex otherwise.
   */
  lemma TriangleLoads(lines: seq<string>, t: RealText, last: char)
    requires ReadsTriangle(t) && |lines| == 8 && IsDigit(last)
    requires lines[0] == "3" && lines[1] == "0 -10 0" && lines[2] == "10 10 0" && lines[3] == "-10 10 0" && lines[4] == "3"
    requires lines[5] == "0 1" && lines[6] == "1 2" && lines[7] == ['2', ' ', last]
    ensures DigitValue(last) < 3 ==>
      Load(lines, t) == Done(Loaded(TriangleCorners(t), [(0, 1), (1, 2), (2, DigitValue(last))]))
    ensures DigitValue(last) >= 3 ==> Load(lines, t) == Failed(BadIndex)
  {
    TriangleHead(lines, t);
    LoadFrom(lines, t, 3, TriangleCorners(t));
    if DigitValue(last) < 3 {
      TriangleSidesClosed(lines, last);
    } else {
      TriangleSidesOpen(lines, last);
    }
    LoadSegmentsFrom(lines, 3, TriangleCorners(t), 3);
  }

  /** The example as written does not load: its segment "2 3" names a fourth point of three. */
  lemma TriangleAsWrittenRejected(t: RealText)
    requires ReadsTriangle(t)
    ensures Load(TriangleAsWritten, t) == Failed(BadIndex)
  {
    TriangleLoads(TriangleAsWritten, t, '3');
  }

  /** The intended example loads: three points and the closed loop 0-1, 1-2, 2-0. */
  lemma TriangleIntendedLoads(t: RealText)
    requires ReadsTriangle(t)
    ensures Load(TriangleIntended, t) == Done(Loaded(TriangleCorners(t), [(0, 1), (1, 2), (2, 0)]))
  {
    TriangleLoads(TriangleIntended, t, '0');
  }
}
