/**
 Vertical seams of an energy map, and the path-intensity map that the seam
 carver computes from it: every cell of the map is the least total energy of a
 seam that ends there.
 */
module SeamPaths {
  import opened RowMajor

  /** Stands for Float.MAX_VALUE, the intensity of a cell outside the map. */
  const FLOAT_MAX: real := 340282346638528859811704183484516925440.0

  /** A Sobel gradient of an 8-bit image is at most sqrt(2) * 4 * 255. */
  const MAX_GRADIENT: real := 1443.0

  /** Rows and columns of a matrix are 32-bit ints. */
  const MAX_ROWS: nat := 0x7fff_ffff

  /** A single-channel matrix: `grid[row][col]`. */
  datatype EnergyMap = EnergyMap(cols: nat, grid: seq<seq<real>>) {
    function Rows(): nat {
      |grid|
    }

    ghost predicate Valid() {
      HaveWidth(grid, cols)
    }

    function Get(row: nat, col: nat): real
      requires Valid() && row < Rows() && col < cols
    {
      grid[row][col]
    }

    ghost predicate HasCells() {
      Valid() && 0 < Rows() && 0 < cols
    }

    /** What the gradient of an 8-bit frame satisfies. */
    ghost predicate Bounded() {
      && Valid() && Rows() <= MAX_ROWS
      && forall row, col :: 0 <= row < Rows() && 0 <= col < cols ==> Get(row, col) <= MAX_GRADIENT
    }
  }

  // ---------- seams ----------

  function Min(a: real, b: real): real {
    if a <= b then a else b
  }

  predicate Adjacent(a: nat, b: nat) {
    a <= b + 1 && b <= a + 1
  }

  /** `seam[row]` is the column of the seam in `row`; it starts in row 0 and moves at most one column per row. */
  ghost predicate IsSeam(e: EnergyMap, seam: seq<nat>) {
    && 0 < |seam| <= e.Rows()
    && (forall row :: 0 <= row < |seam| ==> seam[row] < e.cols)
    && (forall row :: 0 < row < |seam| ==> Adjacent(seam[row - 1], seam[row]))
  }

  ghost predicate EndsAt(e: EnergyMap, seam: seq<nat>, row: nat, col: nat) {
    IsSeam(e, seam) && |seam| == row + 1 && seam[row] == col
  }

  ghost function Cost(e: EnergyMap, seam: seq<nat>): real
    requires e.Valid() && |seam| <= e.Rows()
    requires forall row :: 0 <= row < |seam| ==> seam[row] < e.cols
  {
    if seam == [] then 0.0
    else Cost(e, seam[..|seam| - 1]) + e.Get(|seam| - 1, seam[|seam| - 1])
  }

  // ---------- the path-intensity map ----------

  /** The least of the cells above (row, col) that lie inside the map, in the row above. */
  ghost function BestAbove(e: EnergyMap, row: nat, col: nat): real
    requires e.Valid() && 0 < row < e.Rows() && col < e.cols
    decreases row, 0
  {
    var middle := MinCost(e, row - 1, col);
    var left := if col > 0 then MinCost(e, row - 1, col - 1) else middle;
    var right := if col + 1 < e.cols then MinCost(e, row - 1, col + 1) else middle;
    Min(Min(left, middle), right)
  }

  ghost function MinCost(e: EnergyMap, row: nat, col: nat): real
    requires e.Valid() && row < e.Rows() && col < e.cols
    decreases row, 1
  {
    if row == 0 then e.Get(0, col)
    else e.Get(row, col) + BestAbove(e, row, col)
  }

  /** No seam that ends at a cell is cheaper than the cell's path intensity. */
  lemma {:induction false} MinCostIsLowerBound(e: EnergyMap, row: nat, col: nat, seam: seq<nat>)
    requires e.Valid() && row < e.Rows() && col < e.cols
    requires EndsAt(e, seam, row, col)
    ensures MinCost(e, row, col) <= Cost(e, seam)
    decreases row
  {
    var above := seam[..row];
    if row == 0 {
      assert Cost(e, above) == 0.0;
    } else {
      assert Adjacent(seam[row - 1], seam[row]);
      MinCostIsLowerBound(e, row - 1, seam[row - 1], above);
    }
  }

  /** Some seam that ends at the cell costs exactly the cell's path intensity. */
  lemma {:induction false} MinCostIsAttained(e: EnergyMap, row: nat, col: nat) returns (seam: seq<nat>)
    requires e.Valid() && row < e.Rows() && col < e.cols
    ensures EndsAt(e, seam, row, col)
    ensures Cost(e, seam) == MinCost(e, row, col)
    decreases row
  {
    if row == 0 {
      seam := [col];
      assert Cost(e, seam[..0]) == 0.0;
    } else {
      var from :=
        if col > 0 && MinCost(e, row - 1, col - 1) == BestAbove(e, row, col) then col - 1
        else if MinCost(e, row - 1, col) == BestAbove(e, row, col) then col
        else col + 1;
      var above := MinCostIsAttained(e, row - 1, from);
      seam := above + [col];
      assert seam[..row] == above;
    }
  }

  /** Path intensities never reach the sentinel, so the sentinel never wins a comparison. */
  lemma {:induction false} MinCostBelowSentinel(e: EnergyMap, row: nat, col: nat)
    requires e.Valid() && row < e.Rows() && col < e.cols && e.Bounded()
    ensures MinCost(e, row, col) <= (row + 1) as real * MAX_GRADIENT
    ensures MinCost(e, row, col) < FLOAT_MAX
    decreases row
  {
    assert e.Get(row, col) <= MAX_GRADIENT;
    if row > 0 {
      MinCostBelowSentinel(e, row - 1, col);
      assert BestAbove(e, row, col) <= MinCost(e, row - 1, col);
    }
  }

  /** The matrix that the dynamic program should produce. */
  ghost function PathIntensities(e: EnergyMap): (d: EnergyMap)
    requires e.Valid()
    ensures d.Valid() && d.Rows() == e.Rows() && d.cols == e.cols
  {
    EnergyMap(e.cols, seq(e.Rows(), row requires 0 <= row < e.Rows() => IntensityRow(e, row)))
  }

  ghost function IntensityRow(e: EnergyMap, row: nat): (r: seq<real>)
    requires e.Valid() && row < e.Rows()
    ensures |r| == e.cols
    ensures forall col :: 0 <= col < e.cols ==> r[col] == MinCost(e, row, col)
  {
    seq(e.cols, col requires 0 <= col < e.cols => MinCost(e, row, col))
  }
}
