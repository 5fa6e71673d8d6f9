/**
 * The grid of GridPlane (shape_defs.go:98-120).  Points are stored row by
 * row: the point at grid position (x, z), 0 <= x <= rows, 0 <= z <= cols, is
 * point number x * (cols + 1) + z.  The segments are generated cell by cell
 * from a position index x * xs + z * zs, joining it to index + xs when
 * x < rows and to index + zs when z < cols.  The source uses the strides
 * xs = 1, zs = rows + 1, which number the grid column by column; the storage
 * order needs xs = cols + 1, zs = 1.
 */
module GridIndices {
  import opened Geometry
  import opened SegmentShapes
  import opened ShapeIndices

  /** The pairs generated at grid position (x, z). */
  function GridCell(x: nat, z: nat, rows: nat, cols: nat, xs: nat, zs: nat): seq<(int, int)> {
    var index := x * xs + z * zs;
    (if x < rows then [(index, index + xs)] else []) + (if z < cols then [(index, index + zs)] else [])
  }

  /** The pairs generated for positions (x, 0) .. (x, zCount - 1). */
  function GridRow(x: nat, zCount: nat, rows: nat, cols: nat, xs: nat, zs: nat): seq<(int, int)> {
    if zCount == 0 then [] else GridRow(x, zCount - 1, rows, cols, xs, zs) + GridCell(x, zCount - 1, rows, cols, xs, zs)
  }

  /** The pairs generated for rows 0 .. xCount - 1, each over z = 0 .. cols. */
  function GridRows(xCount: nat, rows: nat, cols: nat, xs: nat, zs: nat): seq<(int, int)> {
    if xCount == 0 then [] else GridRows(xCount - 1, rows, cols, xs, zs) + GridRow(xCount - 1, cols + 1, rows, cols, xs, zs)
  }

  /** GridPlane's segments as written: strides 1 and rows + 1. */
  function GridPairs(rows: nat, cols: nat): seq<(int, int)> {
    GridRows(rows + 1, rows, cols, 1, rows + 1)
  }

  /** GridPlane's segments with the strides of the storage order: cols + 1 and 1. */
  function GridPairsIntended(rows: nat, cols: nat): seq<(int, int)> {
    GridRows(rows + 1, rows, cols, cols + 1, 1)
  }

  /** Row x of the unscaled grid: (x, 0, z) for z <= cols. */
  function GridLine(x: nat, cols: nat): (r: seq<Vec3>)
    ensures |r| == cols + 1
  {
    seq(cols + 1, z requires 0 <= z <= cols => Vec3(x as real, 0.0, z as real))
  }

  /** The unscaled grid points, row by row: (x, 0, z) for x < xCount and z <= cols. */
  function GridCoords(xCount: nat, cols: nat): (r: seq<Vec3>)
    ensures |r| == xCount * (cols + 1)
  {
    if xCount == 0 then []
    else
      MulStep(xCount - 1, cols + 1);
      GridCoords(xCount - 1, cols) + GridLine(xCount - 1, cols)
  }

  /** Grid position (x, z) is stored at index x * (cols + 1) + z. */
  lemma {:induction false} GridCoordsAt(n: nat, cols: nat, x: nat, z: nat)
    requires x < n && z <= cols
    ensures x * (cols + 1) + z < |GridCoords(n, cols)|
    ensures GridCoords(n, cols)[x * (cols + 1) + z] == Vec3(x as real, 0.0, z as real)
  {
    RingBounds(x, z, cols + 1, n);
    if x < n - 1 {
      GridCoordsAt(n - 1, cols, x, z);
    } else {
      assert |GridCoords(n - 1, cols)| == x * (cols + 1);
    }
  }

  /** Both ends of every pair lie in [0, n) and are one grid step apart in `coords`. */
  predicate GridSteps(pairs: seq<(int, int)>, coords: seq<Vec3>) {
    forall k :: 0 <= k < |pairs| ==>
      0 <= pairs[k].0 < |coords| && 0 <= pairs[k].1 < |coords| &&
      DistSq(coords[pairs[k].0], coords[pairs[k].1]) == 1.0
  }

  /**
   * GridPlane generates rows * (cols + 1) + cols * (rows + 1) segments, with
   * either choice of strides.
   */
  lemma GridPairsCount(rows: nat, cols: nat, xs: nat, zs: nat)
    ensures |GridRows(rows + 1, rows, cols, xs, zs)| == rows * (cols + 1) + cols * (rows + 1)
  {
    GridRowsCount(rows + 1, rows, cols, xs, zs);
  }

  lemma {:induction false} GridRowsCount(xCount: nat, rows: nat, cols: nat, xs: nat, zs: nat)
    requires xCount <= rows + 1
    ensures |GridRows(xCount, rows, cols, xs, zs)| ==
      (if xCount <= rows then xCount else rows) * (cols + 1) + xCount * cols
  {
    if xCount > 0 {
      GridRowsCount(xCount - 1, rows, cols, xs, zs);
      GridRowCount(xCount - 1, cols + 1, rows, cols, xs, zs);
      MulStep(xCount - 1, cols + 1);
      MulStep(xCount - 1, cols);
    }
  }

  lemma {:induction false} GridRowCount(x: nat, zCount: nat, rows: nat, cols: nat, xs: nat, zs: nat)
    requires zCount <= cols + 1
    ensures |GridRow(x, zCount, rows, cols, xs, zs)| == (if x < rows then zCount else 0) + (if zCount <= cols then zCount else cols)
  {
    if zCount > 0 {
      GridRowCount(x, zCount - 1, rows, cols, xs, zs);
    }
  }

  /** Every index GridPlane generates, as written, lies within the (rows + 1) * (cols + 1) points. */
  lemma GridPairsInRange(rows: nat, cols: nat)
    ensures InRange(GridPairs(rows, cols), (rows + 1) * (cols + 1))
  {
    GridRowsInRange(rows + 1, rows, cols);
  }

  lemma {:induction false} GridRowsInRange(xCount: nat, rows: nat, cols: nat)
    requires xCount <= rows + 1
    ensures InRange(GridRows(xCount, rows, cols, 1, rows + 1), (rows + 1) * (cols + 1))
  {
    if xCount > 0 {
      GridRowsInRange(xCount - 1, rows, cols);
      GridRowInRange(xCount - 1, cols + 1, rows, cols);
    }
  }

  lemma {:induction false} GridRowInRange(x: nat, zCount: nat, rows: nat, cols: nat)
    requires x <= rows && zCount <= cols + 1
    ensures InRange(GridRow(x, zCount, rows, cols, 1, rows + 1), (rows + 1) * (cols + 1))
  {
    if zCount > 0 {
      GridRowInRange(x, zCount - 1, rows, cols);
      GridCellInRange(x, zCount - 1, rows, cols);
    }
  }

  /** The pairs of one cell, as written, lie within the grid's points. */
  lemma GridCellInRange(x: nat, z: nat, rows: nat, cols: nat)
    requires x <= rows && z <= cols
    ensures InRange(GridCell(x, z, rows, cols, 1, rows + 1), (rows + 1) * (cols + 1))
  {
    // the cell's own index is the grid position (z, x) in column-major order
    RingBounds(z, x, rows + 1, cols + 1);
    assert z * (rows + 1) + x == x * 1 + z * (rows + 1);
    if x < rows {
      RingBounds(z, x + 1, rows + 1, cols + 1);
    }
    if z < cols {
      RingBounds(z + 1, x, rows + 1, cols + 1);
      MulStep(z, rows + 1);
    }
  }

  /** With the storage strides, every segment joins two neighbouring grid points. */
  lemma GridPairsIntendedAreSteps(rows: nat, cols: nat)
    ensures GridSteps(GridPairsIntended(rows, cols), GridCoords(rows + 1, cols))
  {
    GridRowsSteps(rows + 1, rows, cols);
  }

  lemma {:induction false} GridRowsSteps(xCount: nat, rows: nat, cols: nat)
    requires xCount <= rows + 1
    ensures GridSteps(GridRows(xCount, rows, cols, cols + 1, 1), GridCoords(rows + 1, cols))
  {
    if xCount > 0 {
      GridRowsSteps(xCount - 1, rows, cols);
      GridRowSteps(xCount - 1, cols + 1, rows, cols);
    }
  }

  lemma {:induction false} GridRowSteps(x: nat, zCount: nat, rows: nat, cols: nat)
    requires x <= rows && zCount <= cols + 1
    ensures GridSteps(GridRow(x, zCount, rows, cols, cols + 1, 1), GridCoords(rows + 1, cols))
  {
    if zCount > 0 {
      GridRowSteps(x, zCount - 1, rows, cols);
      GridCellSteps(x, zCount - 1, rows, cols);
    }
  }

  lemma GridCellSteps(x: nat, z: nat, rows: nat, cols: nat)
    requires x <= rows && z <= cols
    ensures GridSteps(GridCell(x, z, rows, cols, cols + 1, 1), GridCoords(rows + 1, cols))
  {
    var coords := GridCoords(rows + 1, cols);
    var index := x * (cols + 1) + z * 1;
    var down := if x < rows then [(index, index + (cols + 1))] else [];
    var across := if z < cols then [(index, index + 1)] else [];
    assert GridCell(x, z, rows, cols, cols + 1, 1) == down + across;
    if x < rows {
      GridStepDown(x, z, rows, cols);
    }
    if z < cols {
      GridStepAcross(x, z, rows, cols);
    }
    GridStepsAppend(down, across, coords);
  }

  lemma GridStepsAppend(a: seq<(int, int)>, b: seq<(int, int)>, coords: seq<Vec3>)
    requires GridSteps(a, coords) && GridSteps(b, coords)
    ensures GridSteps(a + b, coords)
  {
  }

  /** The pair from (x, z) to (x + 1, z) is one grid step. */
  lemma GridStepDown(x: nat, z: nat, rows: nat, cols: nat)
    requires x < rows && z <= cols
    ensures GridSteps([(x * (cols + 1) + z * 1, x * (cols + 1) + z * 1 + (cols + 1))], GridCoords(rows + 1, cols))
  {
    GridCoordsAt(rows + 1, cols, x, z);
    GridCoordsAt(rows + 1, cols, x + 1, z);
    MulStep(x, cols + 1);
    UnitStep(x as real, z as real, (x + 1) as real, z as real);
  }

  /** The pair from (x, z) to (x, z + 1) is one grid step. */
  lemma GridStepAcross(x: nat, z: nat, rows: nat, cols: nat)
    requires x <= rows && z < cols
    ensures GridSteps([(x * (cols + 1) + z * 1, x * (cols + 1) + z * 1 + 1)], GridCoords(rows + 1, cols))
  {
    GridCoordsAt(rows + 1, cols, x, z);
    GridCoordsAt(rows + 1, cols, x, z + 1);
    UnitStep(x as real, z as real, x as real, (z + 1) as real);
  }

  /** Two grid points one unit apart along one axis are at squared distance 1. */
  lemma UnitStep(x1: real, z1: real, x2: real, z2: real)
    requires (x2 == x1 + 1.0 && z2 == z1) || (x2 == x1 && z2 == z1 + 1.0)
    ensures DistSq(Vec3(x1, 0.0, z1), Vec3(x2, 0.0, z2)) == 1.0
  {
  }

  /**
   * As written, on a grid with one row and two columns, the second segment
   * joins points 0 and 2 (see GridCoordsTwoApart for where they lie).
   */
  lemma GridPairsAsWrittenSkip()
    ensures GridPairs(1, 2)[1] == (0, 2)
  {
    var c0 := GridCell(0, 0, 1, 2, 1, 2);
    assert c0 == [(0, 1), (0, 2)];
    var r1 := GridRow(0, 1, 1, 2, 1, 2);
    assert r1 == [] + c0;
    var rest := GridRow(1, 3, 1, 2, 1, 2);
    var r3 := GridRow(0, 3, 1, 2, 1, 2);
    GridRowPrefix(0, 1, 3, 1, 2, 1, 2);
    assert r3[1] == (0, 2);
    assert GridPairs(1, 2) == GridRows(1, 1, 2, 1, 2) + rest;
  }

  /** Points 0 and 2 of a two-column grid are positions (0, 0) and (0, 2), two steps apart. */
  lemma GridCoordsTwoApart()
    ensures GridCoords(2, 2)[0] == Vec3(0.0, 0.0, 0.0) && GridCoords(2, 2)[2] == Vec3(0.0, 0.0, 2.0)
    ensures DistSq(GridCoords(2, 2)[0], GridCoords(2, 2)[2]) == 4.0
  {
    GridCoordsAt(2, 2, 0, 0);
    GridCoordsAt(2, 2, 0, 2);
  }

  /** A shorter row is a prefix of a longer one. */
  lemma {:induction false} GridRowPrefix(x: nat, m: nat, n: nat, rows: nat, cols: nat, xs: nat, zs: nat)
    requires m <= n
    ensures |GridRow(x, m, rows, cols, xs, zs)| <= |GridRow(x, n, rows, cols, xs, zs)|
    ensures GridRow(x, n, rows, cols, xs, zs)[..|GridRow(x, m, rows, cols, xs, zs)|] == GridRow(x, m, rows, cols, xs, zs)
  {
    if m < n {
      GridRowPrefix(x, m, n - 1, rows, cols, xs, zs);
      var a, b := GridRow(x, n - 1, rows, cols, xs, zs), GridCell(x, n - 1, rows, cols, xs, zs);
      assert (a + b)[..|a|] == a;
    }
  }
}
