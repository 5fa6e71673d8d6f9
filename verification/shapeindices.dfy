/**
 * The index structure of the generated shapes (shape_defs.go): which point
 * indices each generator's segments join, as pure functions, and the
 * counts and range facts about them.
 */
module ShapeIndices {
  import opened Geometry
  import opened Points
  import opened SegmentShapes

  /** n points joined in a closed loop: i to i + 1, and the last back to the first. */
  function LoopPairs(n: nat): (r: seq<(int, int)>)
    ensures |r| == n && InRange(r, n)
  {
    seq(n, i requires 0 <= i < n => (i, (i + 1) % n))
  }

  /** n points joined in an open chain: i to i + 1, for every i but the last. */
  function ChainPairs(n: int): (r: seq<(int, int)>)
    ensures |r| == (if n >= 1 then n - 1 else 0) && InRange(r, n)
  {
    if n <= 1 then [] else seq(n - 1, i requires 0 <= i < n - 1 => (i, i + 1))
  }

  /** `count` loops of `res` points each, stored one ring after another. */
  function RingPairs(count: nat, res: nat): seq<(int, int)> {
    if count == 0 then [] else RingPairs(count - 1, res) + Shift(LoopPairs(res), (count - 1) * res)
  }

  /** Point j of ring i joined to point j of ring i + 1. */
  function Column(i: nat, res: nat): (r: seq<(int, int)>)
    ensures |r| == res
  {
    seq(res, j requires 0 <= j < res => (i * res + j, (i + 1) * res + j))
  }

  /** The longitudinal segments: every point of the first m rings joined to the next ring. */
  function LongPairs(m: nat, res: nat): seq<(int, int)> {
    if m == 0 then [] else LongPairs(m - 1, res) + Column(m - 1, res)
  }

  /** The last of `slices` rings joined back to the first, point by point. */
  function ClosingPairs(slices: nat, res: nat): (r: seq<(int, int)>)
    requires slices >= 1
    ensures |r| == res
  {
    seq(res, j requires 0 <= j < res => ((slices - 1) * res + j, j))
  }

  lemma ModNext(k: nat, n: nat)
    requires k < n
    ensures (k + 1) % n == if k + 1 < n then k + 1 else 0
  {
  }

  lemma MulStep(a: nat, b: nat)
    ensures (a + 1) * b == a * b + b
  {
  }

  /** Ring i occupies the indices [i * res, (i + 1) * res). */
  lemma RingBounds(i: nat, j: nat, res: nat, count: nat)
    requires i < count && j < res
    ensures 0 <= i * res + j < count * res
  {
    MulStep(i, res);
    assert (i + 1) * res <= count * res by {
      MulMono(i + 1, count, res);
    }
  }

  lemma MulMono(a: nat, b: nat, c: nat)
    requires a <= b
    ensures a * c <= b * c
  {
  }

  /**
   * The rings have count * res segments, each loop joining two points of its
   * own ring: both ends of segment k lie in ring k / res.
   */
  lemma {:induction false} RingPairsSpec(count: nat, res: nat)
    ensures |RingPairs(count, res)| == count * res
    ensures InRange(RingPairs(count, res), count * res)
    ensures forall k :: 0 <= k < |RingPairs(count, res)| ==>
      RingPairs(count, res)[k].0 / res == RingPairs(count, res)[k].1 / res
  {
    if count > 0 {
      RingPairsSpec(count - 1, res);
      MulStep(count - 1, res);
      var prev, last := RingPairs(count - 1, res), Shift(LoopPairs(res), (count - 1) * res);
      forall k | 0 <= k < |last|
        ensures 0 <= last[k].0 < count * res && 0 <= last[k].1 < count * res
        ensures last[k].0 / res == last[k].1 / res
      {
        RingBounds(count - 1, k, res, count);
        RingBounds(count - 1, (k + 1) % res, res, count);
        SameRing(count - 1, k, (k + 1) % res, res);
      }
      forall k | 0 <= k < |prev| ensures 0 <= prev[k].0 < count * res && 0 <= prev[k].1 < count * res {
        MulMono(count - 1, count, res);
      }
    }
  }

  /** Two offsets within one ring lie in that ring. */
  lemma SameRing(i: nat, j1: nat, j2: nat, res: nat)
    requires j1 < res && j2 < res
    ensures (i * res + j1) / res == (i * res + j2) / res == i
  {
    DivRing(i, j1, res);
    DivRing(i, j2, res);
  }

  lemma DivRing(i: nat, j: nat, res: nat)
    requires j < res
    ensures (i * res + j) / res == i
  {
    var q := (i * res + j) / res;
    var r := (i * res + j) % res;
    assert q * res + r == i * res + j;
    if q < i {
      MulMono(q + 1, i, res);
      MulStep(q, res);
    } else if q > i {
      MulMono(i + 1, q, res);
      MulStep(i, res);
    }
  }

  /**
   * The longitudinal segments number m * res; each joins a point to the one
   * `res` further on, and all lie below (m + 1) * res.
   */
  lemma {:induction false} LongPairsSpec(m: nat, res: nat)
    ensures |LongPairs(m, res)| == m * res
    ensures InRange(LongPairs(m, res), (m + 1) * res)
    ensures forall k :: 0 <= k < |LongPairs(m, res)| ==> LongPairs(m, res)[k].1 == LongPairs(m, res)[k].0 + res
  {
    if m > 0 {
      LongPairsSpec(m - 1, res);
      MulStep(m - 1, res);
      MulStep(m, res);
      var prev, col := LongPairs(m - 1, res), Column(m - 1, res);
      forall k | 0 <= k < |col|
        ensures 0 <= col[k].0 < (m + 1) * res && 0 <= col[k].1 < (m + 1) * res
        ensures col[k].1 == col[k].0 + res
      {
        RingBounds(m - 1, k, res, m + 1);
        RingBounds(m, k, res, m + 1);
      }
      forall k | 0 <= k < |prev| ensures 0 <= prev[k].0 < (m + 1) * res && 0 <= prev[k].1 < (m + 1) * res {
        MulMono(m, m + 1, res);
      }
    }
  }

  /** The closing segments join the last ring to the first and stay below slices * res. */
  lemma ClosingPairsSpec(slices: nat, res: nat)
    requires slices >= 1
    ensures InRange(ClosingPairs(slices, res), slices * res)
    ensures forall j :: 0 <= j < res ==> ClosingPairs(slices, res)[j].1 == j
  {
    forall j | 0 <= j < res ensures 0 <= ClosingPairs(slices, res)[j].0 < slices * res {
      RingBounds(slices - 1, j, res, slices);
    }
    MulMono(1, slices, res);
  }

  /**
   * LoopPairs is one closed loop: segment k starts at point k, where segment
   * k - 1 ends, and the last segment ends at point 0, where the first starts.
   */
  lemma LoopPairsClosed(n: nat)
    requires n >= 1
    ensures forall k :: 0 <= k < n ==> LoopPairs(n)[k].0 == k
    ensures forall k :: 0 < k < n ==> LoopPairs(n)[k].0 == LoopPairs(n)[k - 1].1
    ensures LoopPairs(n)[n - 1].1 == LoopPairs(n)[0].0
  {
    forall k | 0 <= k < n ensures LoopPairs(n)[k].1 == if k + 1 < n then k + 1 else 0 {
      ModNext(k, n);
    }
  }

  /**
   * ChainPairs is one open chain: segment k starts at point k, where segment
   * k - 1 ends, and the last segment ends at the last point.
   */
  lemma ChainPairsConnected(n: nat)
    requires n >= 2
    ensures forall k :: 0 <= k < n - 1 ==> ChainPairs(n)[k].0 == k
    ensures forall k :: 0 < k < n - 1 ==> ChainPairs(n)[k].0 == ChainPairs(n)[k - 1].1
    ensures ChainPairs(n)[n - 2].1 == n - 1
  {
  }

  /** The chain segments of `points` are wired by ChainPairs: segment k joins point k to point k + 1. */
  lemma ChainSegsWired(points: seq<Point>)
    ensures Wired(points, ChainSegs(points), ChainPairs(|points|))
  {
  }

  /** The closed loop is the open chain plus one segment from the last point back to the first. */
  lemma LoopIsClosedChain(n: nat)
    requires n >= 1
    ensures LoopPairs(n) == ChainPairs(n) + [(n - 1, 0)]
  {
    forall k | 0 <= k < n ensures LoopPairs(n)[k] == (ChainPairs(n) + [(n - 1, 0)])[k] {
      ModNext(k, n);
    }
  }
}
