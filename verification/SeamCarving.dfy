/**
 The seam carver: the dynamic program over the flat intensity buffer, the choice
 of a seam by backtracking, and when that seam is a cheapest one.
 */
module SeamCarving {
  import opened Options
  import opened SeamPaths
  import opened RowMajor

  // ---------- the dynamic program ----------

  /** The intensity of a cell of a flat map; a column outside the map counts as Float.MAX_VALUE. */
  function Intensity(buff: seq<real>, col: int, row: nat, nCols: nat): real
    requires 0 <= col < nCols ==> RowStart(row, nCols) + col < |buff|
  {
    if col < 0 || col >= nCols then FLOAT_MAX else buff[col + RowStart(row, nCols)]
  }

  ghost function BestOfThree(buff: seq<real>, row: nat, col: nat, nCols: nat): real
    requires col < nCols && RowStart(row, nCols) + nCols <= |buff|
  {
    Min(Min(Intensity(buff, col - 1, row, nCols), Intensity(buff, col, row, nCols)),
        Intensity(buff, col + 1, row, nCols))
  }

  /** The sentinel never wins: the three-way minimum is the minimum of the cells above that lie inside the map. */
  lemma SentinelIsNeutral(e: EnergyMap, buff: seq<real>, row: nat, col: nat)
    requires e.HasCells() && e.Bounded() && 0 < row < e.Rows() && col < e.cols
    requires RowStart(row - 1, e.cols) + e.cols <= |buff|
    requires buff[RowStart(row - 1, e.cols)..][..e.cols] == PathIntensities(e).grid[row - 1]
    ensures BestOfThree(buff, row - 1, col, e.cols) == BestAbove(e, row, col)
  {
    var start, above := RowStart(row - 1, e.cols), PathIntensities(e).grid[row - 1];
    assert above == IntensityRow(e, row - 1);
    MinCostBelowSentinel(e, row - 1, col);
    assert buff[start + col] == buff[start..][..e.cols][col] == above[col];
    if col > 0 {
      MinCostBelowSentinel(e, row - 1, col - 1);
      assert buff[start + (col - 1)] == buff[start..][..e.cols][col - 1] == above[col - 1];
    }
    if col + 1 < e.cols {
      MinCostBelowSentinel(e, row - 1, col + 1);
      assert buff[start + (col + 1)] == buff[start..][..e.cols][col + 1] == above[col + 1];
    }
  }

  /** The body of the loops: one cell from the row above it. */
  method CellIntensity(ghost e: EnergyMap, buffRaw: seq<real>, buffPath: seq<real>, row: nat, col: nat, cols: nat)
    returns (pixelIntensity: real)
    requires e.HasCells() && e.Bounded() && 0 < row < e.Rows() && cols == e.cols && col < cols
    requires RowStart(row, cols) + cols <= |buffPath| && RowStart(row, cols) + cols <= |buffRaw|
    requires buffRaw[RowStart(row, cols)..][..cols] == e.grid[row]
    requires buffPath[RowStart(row - 1, cols)..][..cols] == PathIntensities(e).grid[row - 1]
    ensures pixelIntensity == MinCost(e, row, col)
  {
    SentinelIsNeutral(e, buffPath, row, col);
    assert buffRaw[RowStart(row, cols) + col] == buffRaw[RowStart(row, cols)..][..cols][col] == e.Get(row, col);
    pixelIntensity := buffRaw[col + RowStart(row, cols)];
    var p1 := Intensity(buffPath, col - 1, row - 1, cols);
    var p2 := Intensity(buffPath, col, row - 1, cols);
    var p3 := Intensity(buffPath, col + 1, row - 1, cols);
    var minIntensity := Min(p1, p2);
    minIntensity := Min(minIntensity, p3);
    pixelIntensity := pixelIntensity + minIntensity;
  }

  /** The inner loop: fills a row of the path-intensity buffer from the row above. */
  method FillRow(ghost e: EnergyMap, buffRaw: seq<real>, buffPath: array<real>, row: nat, cols: nat)
    requires e.HasCells() && e.Bounded() && 0 < row < e.Rows() && cols == e.cols
    requires RowStart(row, cols) + cols <= buffPath.Length == |buffRaw|
    requires buffRaw[RowStart(row, cols)..][..cols] == e.grid[row]
    requires buffPath[RowStart(row - 1, cols)..][..cols] == PathIntensities(e).grid[row - 1]
    modifies buffPath
    ensures buffPath[..RowStart(row, cols)] == old(buffPath[..RowStart(row, cols)])
    ensures buffPath[RowStart(row, cols)..][..cols] == PathIntensities(e).grid[row]
  {
    ghost var start, before := RowStart(row, cols), buffPath[..RowStart(row, cols)];
    for col := 0 to cols
      invariant buffPath[..start] == before
      invariant buffPath[start..start + col] == IntensityRow(e, row)[..col]
    {
      assert buffPath[RowStart(row - 1, cols)..][..cols] == before[RowStart(row - 1, cols)..];
      var pixelIntensity := CellIntensity(e, buffRaw, buffPath[..], row, col, cols);
      buffPath[col + RowStart(row, cols)] := pixelIntensity;
      assert buffPath[start..start + (col + 1)] == buffPath[start..start + col] + [pixelIntensity];
    }
  }

  /** The first row of intensities is the first row of the energy map. */
  method FillFirstRow(ghost e: EnergyMap, buffRaw: seq<real>, buffPath: array<real>, cols: nat)
    requires e.HasCells() && cols == e.cols <= buffPath.Length == |buffRaw| && buffRaw[..cols] == e.grid[0]
    modifies buffPath
    ensures buffPath[..cols] == PathIntensities(e).grid[0]
  {
    for col := 0 to cols
      invariant buffPath[..col] == IntensityRow(e, 0)[..col]
    {
      assert buffRaw[col] == buffRaw[..cols][col] == e.Get(0, col);
      buffPath[col] := buffRaw[col];
    }
  }

  /** The outer loop: all rows after the first. */
  method FillRows(ghost e: EnergyMap, buffRaw: seq<real>, buffPath: array<real>, rows: nat, cols: nat)
    requires e.HasCells() && e.Bounded() && rows == e.Rows() && cols == e.cols
    requires buffRaw == Flatten(e.grid) && buffPath.Length == |buffRaw| == RowStart(rows, cols)
    requires RowStart(1, cols) <= buffPath.Length
    requires buffPath[..RowStart(1, cols)] == Flatten(PathIntensities(e).grid[..1])
    modifies buffPath
    ensures buffPath[..] == Flatten(PathIntensities(e).grid)
  {
    ghost var target := PathIntensities(e).grid;
    for row := 1 to rows
      invariant RowStart(row, cols) <= buffPath.Length
      invariant buffPath[..RowStart(row, cols)] == Flatten(target[..row])
    {
      RowSlice(e.grid, cols, row);
      LastRow(target[..row], cols, buffPath[..]);
      FillRow(e, buffRaw, buffPath, row, cols);
      OneMoreRow(target, cols, row, buffPath[..]);
    }
    assert target[..rows] == target;
  }

  method ComputePathIntensityMat(rawEnergyMap: EnergyMap) returns (r: Option<EnergyMap>)
    requires rawEnergyMap.Bounded()
    ensures r == if rawEnergyMap.HasCells() then Some(PathIntensities(rawEnergyMap)) else None
  {
    ghost var e := rawEnergyMap;
    ghost var target := PathIntensities(e).grid;
    var rows, cols := rawEnergyMap.Rows(), rawEnergyMap.cols;
    var buffRaw := Flatten(rawEnergyMap.grid);
    var buffPath := new real[RowStart(rows, cols)];
    FlatLength(e.grid, cols);
    RowStartIsZero(rows, cols);
    if |buffRaw| == 0 || buffPath.Length == 0 {
      return None;
    }
    RowSlice(e.grid, cols, 0);
    FillFirstRow(e, buffRaw, buffPath, cols);
    assert target[..0] == [];
    OneMoreRow(target, cols, 0, buffPath[..]);
    FillRows(e, buffRaw, buffPath, rows, cols);
    UnflattenFlatten(target, cols);
    r := Some(EnergyMap(cols, Unflatten(buffPath[..], rows, cols)));
  }

  lemma LastRow(filled: seq<seq<real>>, cols: nat, buff: seq<real>)
    requires filled != [] && HaveWidth(filled, cols) && RowStart(|filled|, cols) <= |buff|
    requires buff[..RowStart(|filled|, cols)] == Flatten(filled)
    ensures RowStart(|filled| - 1, cols) + cols == RowStart(|filled|, cols)
    ensures buff[RowStart(|filled| - 1, cols)..][..cols] == filled[|filled| - 1]
  {
    RowSlice(filled, cols, |filled| - 1);
    assert buff[RowStart(|filled| - 1, cols)..][..cols] == Flatten(filled)[RowStart(|filled| - 1, cols)..][..cols];
  }

  lemma OneMoreRow(target: seq<seq<real>>, cols: nat, row: nat, buff: seq<real>)
    requires HaveWidth(target, cols) && row < |target| && RowStart(row, cols) + cols <= |buff|
    requires buff[..RowStart(row, cols)] == Flatten(target[..row]) && buff[RowStart(row, cols)..][..cols] == target[row]
    ensures buff[..RowStart(row + 1, cols)] == Flatten(target[..row + 1])
  {
    assert target[..row + 1][..row] == target[..row];
    assert buff[..RowStart(row, cols) + cols] == buff[..RowStart(row, cols)] + buff[RowStart(row, cols)..][..cols];
  }

  // ---------- choosing a seam ----------

  ghost predicate BelowSentinel(d: EnergyMap) {
    d.HasCells() && forall row, col :: 0 <= row < d.Rows() && 0 <= col < d.cols ==> d.Get(row, col) < FLOAT_MAX
  }

  lemma PathIntensitiesBelowSentinel(e: EnergyMap)
    requires e.HasCells() && e.Bounded()
    ensures BelowSentinel(PathIntensities(e))
  {
    forall row, col | 0 <= row < e.Rows() && 0 <= col < e.cols
      ensures PathIntensities(e).Get(row, col) < FLOAT_MAX
    {
      MinCostBelowSentinel(e, row, col);
    }
  }

  function Bottom(d: EnergyMap, col: nat): real
    requires d.HasCells() && col < d.cols
  {
    d.Get(d.Rows() - 1, col)
  }

  function IntensityAt(d: EnergyMap, row: nat, col: int): real
    requires d.Valid() && row < d.Rows()
  {
    if 0 <= col < d.cols then d.Get(row, col) else FLOAT_MAX
  }

  /** The column where a scan of the first `n` columns of the bottom row first meets its minimum. */
  ghost function LeftmostMin(d: EnergyMap, n: nat): (col: nat)
    requires d.HasCells() && 0 < n <= d.cols
    ensures col < n
    ensures forall c :: 0 <= c < n ==> Bottom(d, col) <= Bottom(d, c)
    ensures forall c :: 0 <= c < col ==> Bottom(d, col) < Bottom(d, c)
  {
    if n == 1 then 0
    else
      var col := LeftmostMin(d, n - 1);
      if Bottom(d, n - 1) < Bottom(d, col) then n - 1 else col
  }

  /** The column the seam takes in `row` when it is at `col` in the row below. */
  function StepUp(d: EnergyMap, row: nat, col: nat): (next: nat)
    requires d.Valid() && row < d.Rows() && col < d.cols
    requires d.Get(row, col) < FLOAT_MAX
    ensures next < d.cols && Adjacent(next, col)
  {
    var p1, p2, p3 := IntensityAt(d, row, col - 1), IntensityAt(d, row, col), IntensityAt(d, row, col + 1);
    if p1 < p2 && p1 < p3 then col - 1
    else if p3 < p1 && p3 < p2 then col + 1
    else col
  }

  /** A step leaves its column exactly for a side that is strictly cheaper than the middle and than the other side. */
  lemma StepLeavesColumnIff(d: EnergyMap, row: nat, col: nat)
    requires d.Valid() && row < d.Rows() && col < d.cols && d.Get(row, col) < FLOAT_MAX
    ensures
      StepUp(d, row, col) < col <==>
        0 < col && d.Get(row, col - 1) < d.Get(row, col) &&
        (col + 1 < d.cols ==> d.Get(row, col - 1) < d.Get(row, col + 1))
    ensures
      StepUp(d, row, col) > col <==>
        col + 1 < d.cols && d.Get(row, col + 1) < d.Get(row, col) &&
        (0 < col ==> d.Get(row, col + 1) < d.Get(row, col - 1))
  {
  }

  /** The columns of rows 0 to `row`, found by backtracking upwards from (row, col). */
  ghost function Backtrack(d: EnergyMap, row: nat, col: nat): seq<nat>
    requires BelowSentinel(d) && row < d.Rows() && col < d.cols
    decreases row
  {
    if row == 0 then [col]
    else Backtrack(d, row - 1, StepUp(d, row - 1, col)) + [col]
  }

  /** The backtracked columns form a seam: in bounds, and at most one column sideways per row. */
  lemma {:induction false} BacktrackIsSeam(d: EnergyMap, row: nat, col: nat)
    requires BelowSentinel(d) && row < d.Rows() && col < d.cols
    ensures EndsAt(d, Backtrack(d, row, col), row, col)
    decreases row
  {
    if row > 0 {
      BacktrackIsSeam(d, row - 1, StepUp(d, row - 1, col));
    }
  }

  /** The seam that the effect removes. */
  ghost function LeastImportantSeam(d: EnergyMap): seq<nat>
    requires BelowSentinel(d)
  {
    Backtrack(d, d.Rows() - 1, LeftmostMin(d, d.cols))
  }

  // ---------- when the seam is optimal ----------

  /** Both neighbours are equally cheap and cheaper than the middle cell: the backtrack then stays in the middle. */
  predicate SideTie(d: EnergyMap, row: nat, col: nat)
    requires d.HasCells() && row < d.Rows() && col < d.cols
  {
    0 < col && col + 1 < d.cols && d.Get(row, col - 1) == d.Get(row, col + 1) < d.Get(row, col)
  }

  /** The seam runs up from some cell under a side tie. */
  ghost predicate TieOnSeam(d: EnergyMap, seam: seq<nat>)
    requires d.HasCells() && IsSeam(d, seam)
  {
    exists row :: 0 < row < |seam| && SideTie(d, row - 1, seam[row])
  }

  /** What the side ties on the way up from (row, col) cost. */
  ghost function TieExcess(d: EnergyMap, row: nat, col: nat): real
    requires BelowSentinel(d) && row < d.Rows() && col < d.cols
    decreases row
  {
    if row == 0 then 0.0
    else
      TieExcess(d, row - 1, StepUp(d, row - 1, col))
      + if SideTie(d, row - 1, col) then d.Get(row - 1, col) - d.Get(row - 1, col - 1) else 0.0
  }

  lemma {:induction false} TieExcessSign(d: EnergyMap, row: nat, col: nat)
    requires BelowSentinel(d) && row < d.Rows() && col < d.cols
    ensures TieExcess(d, row, col) >= 0.0
    ensures EndsAt(d, Backtrack(d, row, col), row, col)
    ensures TieExcess(d, row, col) > 0.0 <==> TieOnSeam(d, Backtrack(d, row, col))
    decreases row
  {
    BacktrackIsSeam(d, row, col);
    if row > 0 {
      var next := StepUp(d, row - 1, col);
      TieExcessSign(d, row - 1, next);
      var above, seam := Backtrack(d, row - 1, next), Backtrack(d, row, col);
      assert seam[row] == col && forall r :: 0 <= r < row ==> seam[r] == above[r];
      if TieOnSeam(d, above) {
        var r :| 0 < r < |above| && SideTie(d, r - 1, above[r]);
        assert SideTie(d, r - 1, seam[r]);
      }
    }
  }

  /** The cost of the backtracked seam is the intensity it started from plus what the side ties cost. */
  lemma {:induction false} BacktrackCost(e: EnergyMap, row: nat, col: nat)
    requires e.HasCells() && e.Bounded() && row < e.Rows() && col < e.cols
    ensures BelowSentinel(PathIntensities(e))
    ensures IsSeam(e, Backtrack(PathIntensities(e), row, col))
    ensures
      Cost(e, Backtrack(PathIntensities(e), row, col))
      == MinCost(e, row, col) + TieExcess(PathIntensities(e), row, col)
    decreases row
  {
    hide StepUp, BestAbove, PathIntensities;
    var d := PathIntensities(e);
    PathIntensitiesBelowSentinel(e);
    BacktrackIsSeam(d, row, col);
    var seam := Backtrack(d, row, col);
    if row == 0 {
      assert Cost(e, seam[..0]) == 0.0;
    } else {
      var next := StepUp(d, row - 1, col);
      var above := Backtrack(d, row - 1, next);
      BacktrackCost(e, row - 1, next);
      StepUpIsBest(e, row, col);
      assert Cost(e, above) == BestAbove(e, row, col) + TieExcess(d, row, col);
      CostExtend(e, above, col);
    }
  }

  lemma CostExtend(e: EnergyMap, above: seq<nat>, col: nat)
    requires IsSeam(e, above) && e.Valid() && |above| < e.Rows() && col < e.cols
    ensures Cost(e, above + [col]) == Cost(e, above) + e.Get(|above|, col)
  {
    var seam := above + [col];
    assert seam[..|seam| - 1] == above;
  }

  /** Unless there is a side tie, the backtrack moves to a cheapest cell above. */
  lemma StepUpIsBest(e: EnergyMap, row: nat, col: nat)
    requires e.HasCells() && e.Bounded() && 0 < row < e.Rows() && col < e.cols
    requires BelowSentinel(PathIntensities(e)) && PathIntensities(e).Get(row - 1, col) < FLOAT_MAX
    ensures
      var d := PathIntensities(e);
      MinCost(e, row - 1, StepUp(d, row - 1, col))
      == BestAbove(e, row, col) +
         if SideTie(d, row - 1, col) then d.Get(row - 1, col) - d.Get(row - 1, col - 1) else 0.0
  {
    MinCostBelowSentinel(e, row - 1, col);
    if col > 0 {
      MinCostBelowSentinel(e, row - 1, col - 1);
    }
    if col + 1 < e.cols {
      MinCostBelowSentinel(e, row - 1, col + 1);
    }
  }

  /** Both maps have the same shape, so they have the same seams from top to bottom. */
  ghost predicate IsFullSeam(e: EnergyMap, seam: seq<nat>) {
    IsSeam(e, seam) && |seam| == e.Rows()
  }

  ghost predicate IsCheapest(e: EnergyMap, seam: seq<nat>)
    requires IsFullSeam(e, seam) && e.Valid()
  {
    forall other :: IsFullSeam(e, other) ==> Cost(e, seam) <= Cost(e, other)
  }

  /** The least intensity of the bottom row. */
  ghost function LeastIntensity(d: EnergyMap): real
    requires d.HasCells()
  {
    Bottom(d, LeftmostMin(d, d.cols))
  }

  lemma LeastIntensityIsLowerBound(e: EnergyMap, seam: seq<nat>)
    requires e.HasCells() && e.Bounded() && IsFullSeam(e, seam)
    ensures LeastIntensity(PathIntensities(e)) <= Cost(e, seam)
  {
    var d, last := PathIntensities(e), e.Rows() - 1;
    MinCostIsLowerBound(e, last, seam[last], seam);
    assert Bottom(d, LeftmostMin(d, d.cols)) <= Bottom(d, seam[last]) == MinCost(e, last, seam[last]);
  }

  lemma LeastIntensityIsAttained(e: EnergyMap) returns (seam: seq<nat>)
    requires e.HasCells() && e.Bounded()
    ensures IsFullSeam(e, seam) && Cost(e, seam) == LeastIntensity(PathIntensities(e))
  {
    var d, last := PathIntensities(e), e.Rows() - 1;
    seam := MinCostIsAttained(e, last, LeftmostMin(d, d.cols));
  }

  /** The removed seam costs the least intensity of the bottom row plus what its side ties cost. */
  lemma SeamCost(e: EnergyMap) returns (excess: real)
    requires e.HasCells() && e.Bounded()
    ensures BelowSentinel(PathIntensities(e))
    ensures
      var d := PathIntensities(e);
      var seam := LeastImportantSeam(d);
      && IsFullSeam(e, seam) && IsFullSeam(d, seam)
      && Cost(e, seam) == LeastIntensity(d) + excess
      && excess >= 0.0 && (excess > 0.0 <==> TieOnSeam(d, seam))
  {
    hide Backtrack, Cost, TieExcess, StepUp, SideTie, BestAbove;
    var d, last := PathIntensities(e), e.Rows() - 1;
    PathIntensitiesBelowSentinel(e);
    var col := LeftmostMin(d, d.cols);
    BacktrackCost(e, last, col);
    TieExcessSign(d, last, col);
    excess := TieExcess(d, last, col);
  }

  /**
   The seam that is removed is a cheapest one if and only if it meets no side tie, and then its cost is the least
   intensity of the bottom row.
   */
  lemma SeamIsCheapestIff(e: EnergyMap)
    requires e.HasCells() && e.Bounded()
    ensures BelowSentinel(PathIntensities(e))
    ensures
      var d := PathIntensities(e);
      var seam := LeastImportantSeam(d);
      && IsFullSeam(e, seam) && IsFullSeam(d, seam)
      && (IsCheapest(e, seam) <==> !TieOnSeam(d, seam))
      && (Cost(e, seam) == LeastIntensity(d) <==> !TieOnSeam(d, seam))
  {
    var excess := SeamCost(e);
    var d := PathIntensities(e);
    var seam := LeastImportantSeam(d);
    if excess == 0.0 {
      forall other | IsFullSeam(e, other)
        ensures Cost(e, seam) <= Cost(e, other)
      {
        LeastIntensityIsLowerBound(e, other);
      }
    } else {
      var best := LeastIntensityIsAttained(e);
      assert Cost(e, best) < Cost(e, seam);
    }
  }

  // ---------- a frame whose removed seam is not a cheapest one ----------

  /** Where a column or row outside the image is read: mirrored at the border, without repeating it. */
  function Mirrored(i: int, n: nat): int {
    if i < 0 then -i else if i >= n then 2 * n - 2 - i else i
  }

  /** A grey image: the value at each row and column. */
  datatype Grey = Grey(rows: nat, cols: nat, value: (int, int) -> nat) {
    function At(row: int, col: int): nat {
      value(Mirrored(row, rows), Mirrored(col, cols))
    }

    /** Sobel's horizontal derivative. */
    function SobelX(row: int, col: int): int {
      (At(row - 1, col + 1) - At(row - 1, col - 1)) + 2 * (At(row, col + 1) - At(row, col - 1))
      + (At(row + 1, col + 1) - At(row + 1, col - 1))
    }

    /** Sobel's vertical derivative. */
    function SobelY(row: int, col: int): int {
      (At(row + 1, col - 1) - At(row - 1, col - 1)) + 2 * (At(row + 1, col) - At(row - 1, col))
      + (At(row + 1, col + 1) - At(row - 1, col + 1))
    }
  }

  predicate IsLength(g: real, x: int, y: int) {
    g >= 0.0 && g * g == (x * x + y * y) as real
  }

  /** The map holds the length of the gradient at each pixel. */
  ghost predicate IsMagnitude(image: Grey, e: EnergyMap) {
    && e.Valid() && e.Rows() == image.rows && e.cols == image.cols
    && forall row, col :: 0 <= row < e.Rows() && 0 <= col < e.cols ==>
         IsLength(e.Get(row, col), image.SobelX(row, col), image.SobelY(row, col))
  }

  /** The rows 4 0 0 0 4, 0 0 1 0 0 and 0 2 2 2 0. */
  function TieValue(row: int, col: int): nat {
    if row == 0 then (if col == 0 || col == 4 then 4 else 0)
    else if row == 1 then (if col == 2 then 1 else 0)
    else if 1 <= col <= 3 then 2
    else 0
  }

  function TieFrame(): Grey {
    Grey(3, 5, TieValue)
  }

  const TIE_MAP := EnergyMap(5, [[0.0, 6.0, 0.0, 6.0, 0.0], [4.0, 2.0, 8.0, 2.0, 4.0], [0.0, 6.0, 0.0, 6.0, 0.0]])

  /** The frame with the mirrored rows and columns around it. */
  function TieCell(row: int, col: int): nat {
    if row == 0 then (if col == 0 || col == 4 then 4 else 0)
    else if row == 2 then (if col == 0 || col == 4 then 0 else 2)
    else if col == 2 then 1
    else 0
  }

  lemma TieAt(row: int, col: int)
    requires -1 <= row <= 3 && -1 <= col <= 5
    ensures TieFrame().At(row, col) == TieCell(row, col)
  {
  }

  lemma TieNeighbours(row: int, col: int)
    requires 0 <= row < 3 && 0 <= col < 5
    ensures forall r, c {:trigger TieFrame().At(r, c)} :: row - 1 <= r <= row + 1 && col - 1 <= c <= col + 1 ==>
              TieFrame().At(r, c) == TieCell(r, c)
  {
    forall r, c | row - 1 <= r <= row + 1 && col - 1 <= c <= col + 1
      ensures TieFrame().At(r, c) == TieCell(r, c)
    {
      TieAt(r, c);
    }
  }

  lemma TieTop(col: int)
    requires 0 <= col < 5
    ensures TieFrame().SobelX(0, col) == (if col == 1 then -6 else if col == 3 then 6 else 0)
    ensures TieFrame().SobelY(0, col) == 0
  {
    hide Grey.At, TieFrame;
    TieNeighbours(0, col);
  }

  lemma TieMiddle(col: int)
    requires 0 <= col < 5
    ensures TieFrame().SobelX(1, col) == 0
    ensures TieFrame().SobelY(1, col) == if col == 2 then 8 else if col == 1 || col == 3 then 2 else -4
  {
    hide Grey.At, TieFrame;
    TieNeighbours(1, col);
  }

  lemma TieBottom(col: int)
    requires 0 <= col < 5
    ensures TieFrame().SobelX(2, col) == (if col == 1 then 6 else if col == 3 then -6 else 0)
    ensures TieFrame().SobelY(2, col) == 0
  {
    hide Grey.At, TieFrame;
    TieNeighbours(2, col);
  }

  lemma TieFrameGradient()
    ensures IsMagnitude(TieFrame(), TIE_MAP)
  {
    hide IsLength, Grey.SobelX, Grey.SobelY;
    forall row, col | 0 <= row < 3 && 0 <= col < 5
      ensures TIE_MAP.Valid()
      ensures IsLength(TIE_MAP.Get(row, col), TieFrame().SobelX(row, col), TieFrame().SobelY(row, col))
    {
      TieCellLength(row, col);
    }
    TieMapValid();
  }

  lemma TieMapValid()
    ensures TIE_MAP.Valid()
  {
  }

  lemma TieCellLength(row: nat, col: nat)
    requires row < 3 && col < 5
    ensures TIE_MAP.Valid()
    ensures IsLength(TIE_MAP.Get(row, col), TieFrame().SobelX(row, col), TieFrame().SobelY(row, col))
  {
    hide Grey.SobelX, Grey.SobelY;
    TieMapValid();
    TieMapCell(row, col);
    if row == 0 {
      TieTop(col);
    } else if row == 1 {
      TieMiddle(col);
    } else {
      TieBottom(col);
    }
  }

  lemma TieMapCell(row: nat, col: nat)
    requires row < 3 && col < 5
    ensures
      TIE_MAP.grid[row][col]
      == if row == 1 then (if col == 2 then 8.0 else if col == 1 || col == 3 then 2.0 else 4.0)
         else if col == 1 || col == 3 then 6.0 else 0.0
  {
  }

  lemma TieMapIntensities()
    ensures TIE_MAP.HasCells() && TIE_MAP.Bounded() && BelowSentinel(PathIntensities(TIE_MAP))
    ensures
      PathIntensities(TIE_MAP).grid
      == [[0.0, 6.0, 0.0, 6.0, 0.0], [4.0, 2.0, 8.0, 2.0, 4.0], [2.0, 8.0, 2.0, 8.0, 2.0]]
    ensures MinCost(TIE_MAP, 2, 0) == 2.0
  {
    TieMapCosts();
    hide MinCost, BestAbove;
    var d := PathIntensities(TIE_MAP);
    PathIntensitiesBelowSentinel(TIE_MAP);
    assert d.grid[0] == IntensityRow(TIE_MAP, 0) == [0.0, 6.0, 0.0, 6.0, 0.0];
    assert d.grid[1] == IntensityRow(TIE_MAP, 1) == [4.0, 2.0, 8.0, 2.0, 4.0];
    assert d.grid[2] == IntensityRow(TIE_MAP, 2) == [2.0, 8.0, 2.0, 8.0, 2.0];
  }

  lemma TieMapCosts()
    ensures TIE_MAP.HasCells()
    ensures MinCost(TIE_MAP, 0, 0) == MinCost(TIE_MAP, 0, 2) == MinCost(TIE_MAP, 0, 4) == 0.0
    ensures MinCost(TIE_MAP, 0, 1) == MinCost(TIE_MAP, 0, 3) == 6.0
    ensures MinCost(TIE_MAP, 1, 0) == 4.0 && MinCost(TIE_MAP, 1, 1) == 2.0 && MinCost(TIE_MAP, 1, 2) == 8.0
    ensures MinCost(TIE_MAP, 1, 3) == 2.0 && MinCost(TIE_MAP, 1, 4) == 4.0
    ensures MinCost(TIE_MAP, 2, 0) == 2.0 && MinCost(TIE_MAP, 2, 1) == 8.0 && MinCost(TIE_MAP, 2, 2) == 2.0
    ensures MinCost(TIE_MAP, 2, 3) == 8.0 && MinCost(TIE_MAP, 2, 4) == 2.0
  {
    assert MinCost(TIE_MAP, 0, 0) == MinCost(TIE_MAP, 0, 2) == MinCost(TIE_MAP, 0, 4) == 0.0;
    assert MinCost(TIE_MAP, 0, 1) == MinCost(TIE_MAP, 0, 3) == 6.0;
    assert MinCost(TIE_MAP, 1, 0) == 4.0 && MinCost(TIE_MAP, 1, 1) == 2.0 && MinCost(TIE_MAP, 1, 2) == 8.0;
    assert MinCost(TIE_MAP, 1, 3) == 2.0 && MinCost(TIE_MAP, 1, 4) == 4.0;
    assert MinCost(TIE_MAP, 2, 0) == 2.0 && MinCost(TIE_MAP, 2, 1) == 8.0 && MinCost(TIE_MAP, 2, 2) == 2.0;
    assert MinCost(TIE_MAP, 2, 3) == 8.0 && MinCost(TIE_MAP, 2, 4) == 2.0;
  }

  lemma TieMapCheaperSeam()
    ensures TIE_MAP.Valid() && IsFullSeam(TIE_MAP, [0, 1, 0]) && Cost(TIE_MAP, [0, 1, 0]) == 2.0
  {
    assert [0, 1, 0][..2] == [0, 1] && [0, 1][..1] == [0] && [0][..0] == [];
    assert Cost(TIE_MAP, [0]) == 0.0;
    assert Cost(TIE_MAP, [0, 1]) == 2.0;
  }

  /**
   The gradient of the grey frame TieFrame: its removed seam costs 8, because of a side tie, although one of cost 2
   exists.
   */
  lemma SideTieCounterexample()
    ensures IsMagnitude(TieFrame(), TIE_MAP)
    ensures TIE_MAP.HasCells() && TIE_MAP.Bounded() && BelowSentinel(PathIntensities(TIE_MAP))
    ensures
      var seam := LeastImportantSeam(PathIntensities(TIE_MAP));
      && IsFullSeam(TIE_MAP, seam) && IsFullSeam(TIE_MAP, [0, 1, 0])
      && Cost(TIE_MAP, seam) == 8.0 && Cost(TIE_MAP, [0, 1, 0]) == 2.0
  {
    hide Cost, MinCost, BestAbove, PathIntensities, IntensityRow, IsMagnitude;
    var d := PathIntensities(TIE_MAP);
    TieFrameGradient();
    TieMapIntensities();
    TieMapCheaperSeam();
    TieSeam(d);
    BacktrackCost(TIE_MAP, 2, 0);
    BacktrackIsSeam(d, 2, 0);
  }

  lemma TieSeam(d: EnergyMap)
    requires d.cols == 5 && BelowSentinel(d)
    requires d.grid == [[0.0, 6.0, 0.0, 6.0, 0.0], [4.0, 2.0, 8.0, 2.0, 4.0], [2.0, 8.0, 2.0, 8.0, 2.0]]
    ensures LeftmostMin(d, 5) == 0 && TieExcess(d, 2, 0) == 6.0
  {
    assert Bottom(d, 0) == 2.0 && Bottom(d, 1) == 8.0 && Bottom(d, 2) == 2.0
      && Bottom(d, 3) == 8.0 && Bottom(d, 4) == 2.0;
    assert StepUp(d, 1, 0) == 1 && !SideTie(d, 1, 0);
    assert StepUp(d, 0, 1) == 1 && SideTie(d, 0, 1);
    assert TieExcess(d, 0, 1) == 0.0;
    assert TieExcess(d, 1, 1) == 6.0;
  }
}
