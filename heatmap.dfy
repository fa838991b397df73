/** The smoothed risk heatmap of the quick demo: every row's latitude and
    longitude are binned on a 400 x 400 grid spanning the data (`linspace`,
    `searchsorted(...) - 1`, `clip`), the risks are accumulated per bin and each
    bin is divided by its count, with empty bins dividing by 1. */
module Heatmap {
  import opened Numeric

  const GridSize: nat := 400

  ghost predicate Sorted(g: seq<real>)
  {
    forall a, b :: 0 <= a < b < |g| ==> g[a] <= g[b]
  }

  /** numpy's `linspace(lo, hi, n)`: n evenly spaced points, both ends included. */
  function Linspace(lo: real, hi: real, n: nat): (g: seq<real>)
    requires n >= 2
    ensures |g| == n && g[0] == lo && g[n - 1] == hi
    ensures lo <= hi ==> Sorted(g)
  {
    var step := (hi - lo) / ((n - 1) as real);
    var g := EvenlySpaced(lo, step, n);
    assert g[n - 1] == hi by {
      assert g[n - 1] == lo + ((n - 1) as real) * step;
      assert ((n - 1) as real) * step == hi - lo;
    }
    if lo <= hi then
      DivLeMono(0.0, hi - lo, (n - 1) as real);
      EvenlySpacedSorted(lo, step, n);
      g
    else g
  }

  /** The n points lo + k * step, k = 0 .. n - 1. */
  function EvenlySpaced(lo: real, step: real, n: nat): (g: seq<real>)
    ensures |g| == n && forall k :: 0 <= k < n ==> g[k] == lo + (k as real) * step
  {
    seq(n, k => lo + (k as real) * step)
  }

  /** Evenly spaced points with a non-negative step are sorted. */
  lemma EvenlySpacedSorted(lo: real, step: real, n: nat)
    requires step >= 0.0
    ensures Sorted(EvenlySpaced(lo, step, n))
  {
    var g := EvenlySpaced(lo, step, n);
    forall a, b | 0 <= a < b < n ensures g[a] <= g[b] {
      MulLeMono(a as real, b as real, step);
    }
  }

  /** numpy's `searchsorted(grid, v)` (side 'left'): on a sorted grid, the
      number of grid points strictly below v. */
  function SearchSorted(grid: seq<real>, v: real): (k: nat)
    ensures k <= |grid|
  {
    CountBelow(grid, v)
  }

  /** The heatmap bin of a coordinate: `clip(searchsorted(grid, v) - 1, 0, n - 1)`. */
  function BinIndex(grid: seq<real>, v: real): (b: nat)
    requires |grid| >= 1
    ensures b < |grid|
  {
    ClipInt(SearchSorted(grid, v) - 1, 0, |grid| - 1)
  }

  /** The bin of every value, on a grid spanning the values' minimum and maximum. */
  function BinIndices(values: seq<real>): (idx: seq<nat>)
    ensures |idx| == |values|
    ensures forall k :: 0 <= k < |idx| ==> idx[k] < GridSize
    ensures values != [] ==>
              forall k :: 0 <= k < |idx| ==> idx[k] == BinIndex(Linspace(SeqMin(values), SeqMax(values), GridSize), values[k])
  {
    if values == [] then []
    else
      var grid := Linspace(SeqMin(values), SeqMax(values), GridSize);
      seq(|values|, k requires 0 <= k < |values| => BinIndex(grid, values[k]))
  }

  /** Number of the first n rows that fell into bin (i, j). */
  function BinCount(lat: seq<nat>, lon: seq<nat>, n: nat, i: nat, j: nat): nat
    requires n <= |lat| && n <= |lon|
  {
    if n == 0 then 0
    else BinCount(lat, lon, n - 1, i, j) + (if lat[n - 1] == i && lon[n - 1] == j then 1 else 0)
  }

  /** Sum of the risks of the first n rows that fell into bin (i, j). */
  function BinSum(lat: seq<nat>, lon: seq<nat>, risks: seq<real>, n: nat, i: nat, j: nat): real
    requires n <= |lat| && n <= |lon| && n <= |risks|
  {
    if n == 0 then 0.0
    else BinSum(lat, lon, risks, n - 1, i, j) + (if lat[n - 1] == i && lon[n - 1] == j then risks[n - 1] else 0.0)
  }

  /** The final value of bin (i, j): its sum over its count, a count of 0 read as 1. */
  function BinMean(lat: seq<nat>, lon: seq<nat>, risks: seq<real>, i: nat, j: nat): real
    requires |lat| == |risks| && |lon| == |risks|
  {
    var count := BinCount(lat, lon, |risks|, i, j);
    BinSum(lat, lon, risks, |risks|, i, j) / (if count == 0 then 1 else count) as real
  }

  predicate InGrid(lat: seq<nat>, lon: seq<nat>)
  {
    |lat| == |lon| && forall k :: 0 <= k < |lat| ==> lat[k] < GridSize && lon[k] < GridSize
  }

  /** The accumulate-then-divide loop over the two grids. */
  method AverageRiskGrid(lat: seq<nat>, lon: seq<nat>, risks: seq<real>) returns (riskGrid: array2<real>)
    requires |lat| == |risks| && InGrid(lat, lon)
    ensures riskGrid.Length0 == GridSize && riskGrid.Length1 == GridSize
    ensures forall i, j :: 0 <= i < GridSize && 0 <= j < GridSize ==>
              riskGrid[i, j] == BinMean(lat, lon, risks, i, j)
  {
    riskGrid := new real[GridSize, GridSize]((i, j) => 0.0);
    var countGrid := new real[GridSize, GridSize]((i, j) => 0.0);
    for k := 0 to |risks|
      invariant forall i, j :: 0 <= i < GridSize && 0 <= j < GridSize ==>
                  riskGrid[i, j] == BinSum(lat, lon, risks, k, i, j)
                  && countGrid[i, j] == BinCount(lat, lon, k, i, j) as real
    {
      riskGrid[lat[k], lon[k]] := riskGrid[lat[k], lon[k]] + risks[k];
      countGrid[lat[k], lon[k]] := countGrid[lat[k], lon[k]] + 1.0;
    }
    for i := 0 to GridSize
      invariant forall i', j :: 0 <= i' < i && 0 <= j < GridSize ==>
                  riskGrid[i', j] == BinMean(lat, lon, risks, i', j)
      invariant forall i', j :: i <= i' < GridSize && 0 <= j < GridSize ==>
                  riskGrid[i', j] == BinSum(lat, lon, risks, |risks|, i', j)
                  && countGrid[i', j] == BinCount(lat, lon, |risks|, i', j) as real
    {
      for j := 0 to GridSize
        invariant forall i', j' :: 0 <= i' < i && 0 <= j' < GridSize ==>
                    riskGrid[i', j'] == BinMean(lat, lon, risks, i', j')
        invariant forall j' :: 0 <= j' < j ==> riskGrid[i, j'] == BinMean(lat, lon, risks, i, j')
        invariant forall i', j' :: (i < i' < GridSize && 0 <= j' < GridSize) || (i' == i && j <= j' < GridSize) ==>
                    riskGrid[i', j'] == BinSum(lat, lon, risks, |risks|, i', j')
                    && countGrid[i', j'] == BinCount(lat, lon, |risks|, i', j') as real
      {
        if countGrid[i, j] == 0.0 {
          countGrid[i, j] := 1.0;
        }
        riskGrid[i, j] := riskGrid[i, j] / countGrid[i, j];
      }
    }
  }

  // ---------------------------------------------------------------------------
  // Properties of the binning
  // ---------------------------------------------------------------------------

  lemma {:induction false} CountBelowMonotone(s: seq<real>, v1: real, v2: real)
    requires v1 <= v2
    ensures CountBelow(s, v1) <= CountBelow(s, v2)
  {
    if s != [] {
      CountBelowMonotone(s[..|s| - 1], v1, v2);
    }
  }

  /** When every point lies below v, all of them are counted. */
  lemma {:induction false} CountBelowAll(s: seq<real>, v: real)
    requires forall a :: 0 <= a < |s| ==> s[a] < v
    ensures CountBelow(s, v) == |s|
  {
    if s != [] {
      CountBelowAll(s[..|s| - 1], v);
    }
  }

  /** On a sorted grid, `searchsorted` is the insertion point of v: every grid
      point before it is below v, every one from it on is at least v. */
  lemma {:induction false} SearchSortedIsInsertionPoint(grid: seq<real>, v: real)
    requires Sorted(grid)
    ensures forall a :: 0 <= a < SearchSorted(grid, v) ==> grid[a] < v
    ensures forall a :: SearchSorted(grid, v) <= a < |grid| ==> v <= grid[a]
  {
    if grid != [] {
      var n := |grid| - 1;
      var init := grid[..n];
      assert forall a :: 0 <= a < n ==> init[a] == grid[a];
      assert Sorted(init);
      SearchSortedIsInsertionPoint(init, v);
      var c := SearchSorted(init, v);
      if grid[n] < v {
        // every point is at most the last one, so all of them lie below v
        assert forall a :: 0 <= a < n ==> grid[a] <= grid[n];
        CountBelowAll(grid, v);
      } else {
        assert SearchSorted(grid, v) == c;
        forall a | c <= a < |grid| ensures v <= grid[a] {
          if a < n {
            assert v <= init[a];
          }
        }
      }
    }
  }

  /** A larger coordinate never falls into a lower bin. */
  lemma BinIndexMonotone(grid: seq<real>, v1: real, v2: real)
    requires |grid| >= 1 && v1 <= v2
    ensures BinIndex(grid, v1) <= BinIndex(grid, v2)
  {
    CountBelowMonotone(grid, v1, v2);
  }

  /** Of two coordinates of the same column, the larger never gets the smaller bin. */
  lemma BinIndicesMonotone(values: seq<real>, a: nat, b: nat)
    requires a < |values| && b < |values| && values[a] <= values[b]
    ensures BinIndices(values)[a] <= BinIndices(values)[b]
  {
    BinIndexMonotone(Linspace(SeqMin(values), SeqMax(values), GridSize), values[a], values[b]);
  }

  /** Inside the grid's span, the bin b of v brackets it: grid[b] < v <= grid[b + 1]. */
  lemma BinIndexBrackets(grid: seq<real>, v: real)
    requires |grid| >= 2 && Sorted(grid)
    requires grid[0] < v <= grid[|grid| - 1]
    ensures BinIndex(grid, v) + 1 < |grid|
    ensures grid[BinIndex(grid, v)] < v <= grid[BinIndex(grid, v) + 1]
  {
    SearchSortedIsInsertionPoint(grid, v);
  }

  lemma {:induction false} BinSumBounds(lat: seq<nat>, lon: seq<nat>, risks: seq<real>, n: nat, i: nat, j: nat)
    requires n <= |lat| && n <= |lon| && n <= |risks|
    requires forall k :: 0 <= k < |risks| ==> 0.0 <= risks[k] <= 1.0
    ensures 0.0 <= BinSum(lat, lon, risks, n, i, j) <= BinCount(lat, lon, n, i, j) as real
  {
    if n > 0 {
      BinSumBounds(lat, lon, risks, n - 1, i, j);
    }
  }

  /** A bin's value is the mean of the risks that fell into it, so it lies in
      [0, 1] when the risks do; a bin no row fell into stays 0. */
  lemma BinMeanIsAverage(lat: seq<nat>, lon: seq<nat>, risks: seq<real>, i: nat, j: nat)
    requires |lat| == |risks| && |lon| == |risks|
    requires forall k :: 0 <= k < |risks| ==> 0.0 <= risks[k] <= 1.0
    ensures 0.0 <= BinMean(lat, lon, risks, i, j) <= 1.0
    ensures BinCount(lat, lon, |risks|, i, j) == 0 ==> BinMean(lat, lon, risks, i, j) == 0.0
  {
    var n := |risks|;
    BinSumBounds(lat, lon, risks, n, i, j);
    var count := BinCount(lat, lon, n, i, j);
    var sum := BinSum(lat, lon, risks, n, i, j);
    if count > 0 {
      DivLeMono(sum, count as real, count as real);
      assert sum / (count as real) >= 0.0;
    }
  }

  /** Total of bin row i over its first `cols` columns. */
  function RowTotal(lat: seq<nat>, lon: seq<nat>, n: nat, i: nat, cols: nat): nat
    requires n <= |lat| && n <= |lon|
  {
    if cols == 0 then 0 else RowTotal(lat, lon, n, i, cols - 1) + BinCount(lat, lon, n, i, cols - 1)
  }

  /** Total over the first `rows` bin rows. */
  function GridTotal(lat: seq<nat>, lon: seq<nat>, n: nat, rows: nat): nat
    requires n <= |lat| && n <= |lon|
  {
    if rows == 0 then 0 else GridTotal(lat, lon, n, rows - 1) + RowTotal(lat, lon, n, rows - 1, GridSize)
  }

  lemma {:induction false} RowTotalStep(lat: seq<nat>, lon: seq<nat>, n: nat, i: nat, cols: nat)
    requires n < |lat| && n < |lon|
    ensures RowTotal(lat, lon, n + 1, i, cols)
         == RowTotal(lat, lon, n, i, cols) + (if lat[n] == i && lon[n] < cols then 1 else 0)
  {
    if cols > 0 {
      RowTotalStep(lat, lon, n, i, cols - 1);
    }
  }

  lemma {:induction false} GridTotalStep(lat: seq<nat>, lon: seq<nat>, n: nat, rows: nat)
    requires n < |lat| && n < |lon| && lon[n] < GridSize
    ensures GridTotal(lat, lon, n + 1, rows) == GridTotal(lat, lon, n, rows) + (if lat[n] < rows then 1 else 0)
  {
    if rows > 0 {
      GridTotalStep(lat, lon, n, rows - 1);
      RowTotalStep(lat, lon, n, rows - 1, GridSize);
    }
  }

  lemma {:induction false} GridTotalEmpty(lat: seq<nat>, lon: seq<nat>, rows: nat)
    ensures GridTotal(lat, lon, 0, rows) == 0
  {
    if rows > 0 {
      GridTotalEmpty(lat, lon, rows - 1);
      RowTotalEmpty(lat, lon, rows - 1, GridSize);
    }
  }

  lemma {:induction false} RowTotalEmpty(lat: seq<nat>, lon: seq<nat>, i: nat, cols: nat)
    ensures RowTotal(lat, lon, 0, i, cols) == 0
  {
    if cols > 0 {
      RowTotalEmpty(lat, lon, i, cols - 1);
    }
  }

  /** Every row lands in exactly one bin: the counts over the whole grid add
      up to the number of rows. */
  lemma {:induction false} CountsSumToRows(lat: seq<nat>, lon: seq<nat>, n: nat)
    requires InGrid(lat, lon) && n <= |lat|
    ensures GridTotal(lat, lon, n, GridSize) == n
  {
    if n == 0 {
      GridTotalEmpty(lat, lon, GridSize);
    } else {
      CountsSumToRows(lat, lon, n - 1);
      GridTotalStep(lat, lon, n - 1, GridSize);
    }
  }
}
