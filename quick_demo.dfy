/** The quick-demo pipeline (`run_demo_event`): an extreme design storm over the
    terrain table, FoS plus the ML residual, the logistic risk, the top-10
    hotspots above the risk threshold, one alert per hotspot and the heatmap. */
module QuickDemo {
  import opened Numeric
  import opened Transcendental
  import opened Fos
  import opened Terrain
  import opened Risk
  import opened Heatmap

  const DesignRainMmph: real := 50.0
  const DesignDurationHours: real := 12.0
  const DefaultRiskThreshold: real := 0.75    // used when the configuration sets none
  const MaxHotspots: nat := 10
  const FallbackSaturation: real := 0.5
  const MaxInitialSaturation: real := 0.9
  const R30dToSaturation: real := 500.0       // mm of 30-day rain for a full column

  /** `fos_to_risk`: a logistic centred at FoS 1.0 with steepness 10. */
  function FosToRisk(exp: real -> real, fos: real): (r: real)
    requires IsExp(exp)
    ensures 0.0 < r < 1.0
    ensures fos == 1.0 ==> r == 0.5
  {
    Logistic(exp, 10.0, 1.0, fos)
  }

  /** A larger FoS always maps to a strictly smaller risk. */
  lemma FosToRiskStrictlyDecreasing(exp: real -> real, f1: real, f2: real)
    requires IsExp(exp) && f1 < f2
    ensures FosToRisk(exp, f2) < FosToRisk(exp, f1)
  {
    LogisticStrictlyDecreasing(exp, 10.0, 1.0, f1, f2);
  }

  /** Antecedent saturation of one cell: its 30-day rainfall over 500 mm, clipped
      to [0, 0.9], when the table has an R_30d column, else 0.5. */
  function InitialSaturation(r30d: Option<real>): (s: real)
    ensures 0.0 <= s <= MaxInitialSaturation
    ensures r30d.None? ==> s == FallbackSaturation
    ensures r30d.Some? && 0.0 <= r30d.value <= 450.0 ==> s == r30d.value / R30dToSaturation
    ensures r30d.Some? && r30d.value < 0.0 ==> s == 0.0
    ensures r30d.Some? && r30d.value > 450.0 ==> s == MaxInitialSaturation
  {
    match r30d
    case None => FallbackSaturation
    case Some(r) => Clip(r / R30dToSaturation, 0.0, MaxInitialSaturation)
  }

  /** The terrain table as loaded; `r30d` is the optional R_30d column. */
  datatype Frame = Frame(cells: seq<Cell>, r30d: Option<seq<real>>)
  {
    predicate WellFormed()
    {
      r30d.Some? ==> |r30d.value| == |cells|
    }

    /** The R_30d value of row i, when the column exists. */
    function R30dAt(i: nat): Option<real>
      requires WellFormed() && i < |cells|
    {
      if r30d.Some? then Some(r30d.value[i]) else None
    }
  }

  function InitialSaturations(frame: Frame): (sat: seq<real>)
    requires frame.WellFormed()
    ensures |sat| == |frame.cells|
    ensures forall i :: 0 <= i < |sat| ==> sat[i] == InitialSaturation(frame.R30dAt(i))
    ensures forall i :: 0 <= i < |sat| ==> 0.0 <= sat[i] <= MaxInitialSaturation
  {
    seq(|frame.cells|, i requires 0 <= i < |frame.cells| => InitialSaturation(frame.R30dAt(i)))
  }

  /** FoS of the design storm plus the ML residual (`fos_values + residual`). */
  function DemoFos(frame: Frame, residual: seq<real>, trig: Trig): (fos: seq<real>)
    requires frame.WellFormed() && |residual| == |frame.cells|
    ensures |fos| == |frame.cells|
    ensures forall i :: 0 <= i < |fos| ==>
              fos[i] == CellFos(frame.cells[i].soil, frame.cells[i].slopeDeg, InitialSaturation(frame.R30dAt(i)),
                                DesignRainMmph, DesignDurationHours, trig) + residual[i]
  {
    var physical := TerrainFos(frame.cells, InitialSaturations(frame), DesignRainMmph, DesignDurationHours, trig);
    seq(|physical|, i requires 0 <= i < |physical| => physical[i] + residual[i])
  }

  function RiskOf(exp: real -> real, fos: seq<real>): (risk: seq<real>)
    requires IsExp(exp)
    ensures |risk| == |fos|
    ensures forall i :: 0 <= i < |risk| ==> risk[i] == FosToRisk(exp, fos[i]) && 0.0 < risk[i] < 1.0
  {
    seq(|fos|, i requires 0 <= i < |fos| => FosToRisk(exp, fos[i]))
  }

  // ---------------------------------------------------------------------------
  // Hotspots: rows with risk above the threshold, highest risk first, top 10
  // ---------------------------------------------------------------------------

  predicate ValidIndices(idx: seq<nat>, n: nat)
  {
    forall k :: 0 <= k < |idx| ==> idx[k] < n
  }

  ghost predicate ByRiskDescending(risks: seq<real>, idx: seq<nat>)
    requires ValidIndices(idx, |risks|)
  {
    forall a, b :: 0 <= a < b < |idx| ==> risks[idx[a]] >= risks[idx[b]]
  }

  /** Row numbers among the first n rows whose risk exceeds the threshold, in row order. */
  function RowsAbove(risks: seq<real>, threshold: real, n: nat): (idx: seq<nat>)
    requires n <= |risks|
    ensures ValidIndices(idx, n)
    ensures forall k :: 0 <= k < |idx| ==> risks[idx[k]] > threshold
    ensures forall i :: 0 <= i < n && risks[i] > threshold ==> i in idx
    ensures forall a, b :: 0 <= a < b < |idx| ==> idx[a] < idx[b]
  {
    if n == 0 then []
    else RowsAbove(risks, threshold, n - 1) + (if risks[n - 1] > threshold then [n - 1] else [])
  }

  /** Insert row i into a list of rows ordered by descending risk, in front of
      the first row that is no riskier. */
  function InsertByRisk(risks: seq<real>, i: nat, sorted: seq<nat>): (r: seq<nat>)
    requires i < |risks| && ValidIndices(sorted, |risks|)
    ensures ValidIndices(r, |risks|)
    ensures multiset(r) == multiset(sorted) + multiset{i}
    ensures ByRiskDescending(risks, sorted) ==> ByRiskDescending(risks, r)
  {
    if sorted == [] then [i]
    else if risks[i] >= risks[sorted[0]] then [i] + sorted
    else
      var rest := InsertByRisk(risks, i, sorted[1..]);
      assert sorted == [sorted[0]] + sorted[1..];
      assert ByRiskDescending(risks, sorted) ==> ByRiskDescending(risks, [sorted[0]] + rest) by {
        if ByRiskDescending(risks, sorted) {
          ConsKeepsDescending(risks, sorted[0], sorted[1..], i, rest);
        }
      }
      [sorted[0]] + rest
  }

  /** Putting row x in front of a descending list keeps it descending when x
      outranks every row of the list it was built from and the inserted row. */
  lemma ConsKeepsDescending(risks: seq<real>, x: nat, tail: seq<nat>, i: nat, rest: seq<nat>)
    requires x < |risks| && i < |risks| && ValidIndices(tail, |risks|) && ValidIndices(rest, |risks|)
    requires ByRiskDescending(risks, [x] + tail) && risks[i] <= risks[x]
    requires multiset(rest) == multiset(tail) + multiset{i} && ByRiskDescending(risks, rest)
    ensures ByRiskDescending(risks, [x] + rest)
  {
    forall k | 0 <= k < |rest| ensures risks[x] >= risks[rest[k]] {
      assert rest[k] in multiset(rest);
      if rest[k] != i {
        assert rest[k] in multiset(tail);
        var j :| 0 <= j < |tail| && tail[j] == rest[k];
        var xs := [x] + tail;
        assert xs[0] == x && xs[j + 1] == tail[j];
        assert risks[xs[0]] >= risks[xs[j + 1]];
      }
    }
    var s := [x] + rest;
    forall a, b | 0 <= a < b < |s| ensures risks[s[a]] >= risks[s[b]] {
      if a == 0 {
        assert s[b] == rest[b - 1];
      } else {
        assert s[a] == rest[a - 1] && s[b] == rest[b - 1];
      }
    }
  }

  /** `sort_values('risk', ascending=False)` on a list of rows. */
  function SortByRisk(risks: seq<real>, idx: seq<nat>): (r: seq<nat>)
    requires ValidIndices(idx, |risks|)
    ensures ValidIndices(r, |risks|)
    ensures multiset(r) == multiset(idx)
    ensures ByRiskDescending(risks, r)
  {
    if idx == [] then []
    else
      assert idx == [idx[0]] + idx[1..];
      InsertByRisk(risks, idx[0], SortByRisk(risks, idx[1..]))
  }

  /** Rows of equal risk appear in ascending row order. */
  ghost predicate TiesInRowOrder(risks: seq<real>, idx: seq<nat>)
    requires ValidIndices(idx, |risks|)
  {
    forall a, b :: 0 <= a < b < |idx| && risks[idx[a]] == risks[idx[b]] ==> idx[a] < idx[b]
  }

  /** Inserting a row numbered below every listed row keeps ties in row order. */
  lemma {:induction false} InsertKeepsTiesInRowOrder(risks: seq<real>, i: nat, sorted: seq<nat>)
    requires i < |risks| && ValidIndices(sorted, |risks|)
    requires TiesInRowOrder(risks, sorted)
    requires forall k :: 0 <= k < |sorted| ==> i < sorted[k]
    ensures TiesInRowOrder(risks, InsertByRisk(risks, i, sorted))
  {
    if sorted != [] && risks[i] < risks[sorted[0]] {
      var tail := sorted[1..];
      InsertKeepsTiesInRowOrder(risks, i, tail);
      assert sorted == [sorted[0]] + tail;
      ConsKeepsTies(risks, sorted[0], tail, i, InsertByRisk(risks, i, tail));
    }
  }

  /** Putting row x in front keeps ties in row order when the inserted row is
      strictly less risky than x. */
  lemma ConsKeepsTies(risks: seq<real>, x: nat, tail: seq<nat>, i: nat, rest: seq<nat>)
    requires x < |risks| && i < |risks| && ValidIndices(tail, |risks|) && ValidIndices(rest, |risks|)
    requires TiesInRowOrder(risks, [x] + tail) && risks[i] < risks[x]
    requires multiset(rest) == multiset(tail) + multiset{i} && TiesInRowOrder(risks, rest)
    ensures TiesInRowOrder(risks, [x] + rest)
  {
    var r := [x] + rest;
    forall a, b | 0 <= a < b < |r| && risks[r[a]] == risks[r[b]] ensures r[a] < r[b] {
      if a == 0 {
        var y := rest[b - 1];
        assert y in multiset(rest);
        if y != i {
          assert y in multiset(tail);
          var j :| 0 <= j < |tail| && tail[j] == y;
          var xs := [x] + tail;
          assert xs[0] == x && xs[j + 1] == y;
        }
      } else {
        assert r[a] == rest[a - 1] && r[b] == rest[b - 1];
      }
    }
  }

  /** The insertion sort is stable: sorting rows given in ascending order
      leaves rows of equal risk in ascending row order. */
  lemma {:induction false} SortByRiskIsStable(risks: seq<real>, idx: seq<nat>)
    requires ValidIndices(idx, |risks|)
    requires forall a, b :: 0 <= a < b < |idx| ==> idx[a] < idx[b]
    ensures TiesInRowOrder(risks, SortByRisk(risks, idx))
  {
    if idx != [] {
      var tail := idx[1..];
      var sortedTail := SortByRisk(risks, tail);
      SortByRiskIsStable(risks, tail);
      forall k | 0 <= k < |sortedTail| ensures idx[0] < sortedTail[k] {
        assert sortedTail[k] in multiset(tail);
        var j :| 0 <= j < |tail| && tail[j] == sortedTail[k];
        assert idx[j + 1] == tail[j];
      }
      InsertKeepsTiesInRowOrder(risks, idx[0], sortedTail);
    }
  }

  /** The hotspot rows: filter by threshold, sort by descending risk, `head(10)`. */
  function Hotspots(risks: seq<real>, threshold: real): (h: seq<nat>)
    ensures ValidIndices(h, |risks|)
  {
    var sorted := SortByRisk(risks, RowsAbove(risks, threshold, |risks|));
    if |sorted| <= MaxHotspots then sorted else sorted[..MaxHotspots]
  }

  /** A reordering of a strictly ascending list of rows keeps each row once. */
  lemma PermutationOfAscendingIsDistinct(above: seq<nat>, sorted: seq<nat>)
    requires forall a, b :: 0 <= a < b < |above| ==> above[a] < above[b]
    requires multiset(sorted) == multiset(above)
    ensures forall a, b :: 0 <= a < b < |sorted| ==> sorted[a] != sorted[b]
  {
    forall a, b | 0 <= a < b < |sorted| ensures sorted[a] != sorted[b] {
      if sorted[a] == sorted[b] {
        DuplicateCounts(sorted, a, b);
        AscendingOccursOnce(above, sorted[a]);
      }
    }
  }

  lemma PermutationKeepsMembers(s: seq<nat>, t: seq<nat>)
    requires multiset(s) == multiset(t)
    ensures forall x :: x in s <==> x in t
  {
    forall x ensures x in s <==> x in t {
      assert x in s <==> x in multiset(s);
      assert x in t <==> x in multiset(t);
    }
  }

  /** What the selection promises: at most 10 rows, each above the threshold,
      no row twice, by non-increasing risk, and no row left out that has a
      higher risk than the lowest one selected. */
  lemma HotspotSelection(risks: seq<real>, threshold: real)
    ensures var h := Hotspots(risks, threshold);
            && |h| <= MaxHotspots
            && (forall k :: 0 <= k < |h| ==> risks[h[k]] > threshold)
            && ByRiskDescending(risks, h)
            && (forall a, b :: 0 <= a < b < |h| ==> h[a] != h[b])
            && (forall i :: 0 <= i < |risks| && risks[i] > threshold && i !in h ==>
                  |h| == MaxHotspots && risks[i] <= risks[h[MaxHotspots - 1]])
  {
    var above := RowsAbove(risks, threshold, |risks|);
    var sorted := SortByRisk(risks, above);
    var h := Hotspots(risks, threshold);
    PermutationKeepsMembers(above, sorted);
    PermutationOfAscendingIsDistinct(above, sorted);
    MembersAboveThreshold(risks, threshold, above, sorted);
    TopOfSortedBoundsRest(risks, threshold, sorted, h);
    PrefixKeeps(risks, threshold, sorted, h);
  }

  /** Among the hotspots, rows of equal risk keep their order in the table. */
  lemma HotspotTiesInRowOrder(risks: seq<real>, threshold: real)
    ensures TiesInRowOrder(risks, Hotspots(risks, threshold))
  {
    var above := RowsAbove(risks, threshold, |risks|);
    var sorted := SortByRisk(risks, above);
    SortByRiskIsStable(risks, above);
    var h := Hotspots(risks, threshold);
    forall a, b | 0 <= a < b < |h| && risks[h[a]] == risks[h[b]] ensures h[a] < h[b] {
      assert h[a] == sorted[a] && h[b] == sorted[b];
    }
  }

  lemma MembersAboveThreshold(risks: seq<real>, threshold: real, above: seq<nat>, sorted: seq<nat>)
    requires ValidIndices(above, |risks|) && forall k :: 0 <= k < |above| ==> risks[above[k]] > threshold
    requires forall x :: x in sorted ==> x in above
    ensures forall k :: 0 <= k < |sorted| ==> sorted[k] < |risks| && risks[sorted[k]] > threshold
  {
    forall k | 0 <= k < |sorted| ensures sorted[k] < |risks| && risks[sorted[k]] > threshold {
      assert sorted[k] in above;
    }
  }

  /** Taking a prefix keeps order, distinctness and the threshold. */
  lemma PrefixKeeps(risks: seq<real>, threshold: real, sorted: seq<nat>, h: seq<nat>)
    requires ValidIndices(sorted, |risks|) && ByRiskDescending(risks, sorted)
    requires forall k :: 0 <= k < |sorted| ==> risks[sorted[k]] > threshold
    requires forall a, b :: 0 <= a < b < |sorted| ==> sorted[a] != sorted[b]
    requires h == (if |sorted| <= MaxHotspots then sorted else sorted[..MaxHotspots])
    ensures |h| <= MaxHotspots && ValidIndices(h, |risks|) && ByRiskDescending(risks, h)
    ensures forall k :: 0 <= k < |h| ==> risks[h[k]] > threshold
    ensures forall a, b :: 0 <= a < b < |h| ==> h[a] != h[b]
  {
  }

  lemma TopOfSortedBoundsRest(risks: seq<real>, threshold: real, sorted: seq<nat>, h: seq<nat>)
    requires ValidIndices(sorted, |risks|) && ByRiskDescending(risks, sorted)
    requires forall i :: 0 <= i < |risks| && risks[i] > threshold ==> i in sorted
    requires h == (if |sorted| <= MaxHotspots then sorted else sorted[..MaxHotspots])
    ensures forall i :: 0 <= i < |risks| && risks[i] > threshold && i !in h ==>
              |h| == MaxHotspots && risks[i] <= risks[h[MaxHotspots - 1]]
  {
    forall i | 0 <= i < |risks| && risks[i] > threshold && i !in h
      ensures |h| == MaxHotspots && risks[i] <= risks[h[MaxHotspots - 1]]
    {
      var j :| 0 <= j < |sorted| && sorted[j] == i;
    }
  }

  lemma DuplicateCounts(s: seq<nat>, a: nat, b: nat)
    requires a < b < |s| && s[a] == s[b]
    ensures multiset(s)[s[a]] >= 2
  {
    var x := s[a];
    assert s == s[..a] + [x] + s[a + 1..b] + [x] + s[b + 1..];
    assert multiset(s) == multiset(s[..a]) + multiset{x} + multiset(s[a + 1..b]) + multiset{x} + multiset(s[b + 1..]);
  }

  lemma {:induction false} AscendingOccursOnce(s: seq<nat>, x: nat)
    requires forall a, b :: 0 <= a < b < |s| ==> s[a] < s[b]
    ensures multiset(s)[x] <= 1
  {
    if s != [] {
      var init := s[..|s| - 1];
      assert s == init + [s[|s| - 1]];
      AscendingOccursOnce(init, x);
      if x == s[|s| - 1] {
        assert x !in init;
      }
    }
  }

  // ---------------------------------------------------------------------------
  // Alerts
  // ---------------------------------------------------------------------------

  /** A row of the scored table. */
  datatype Row = Row(lat: real, lon: real, fos: real, risk: real)

  /** The content of one SMS alert (`generate_sms`); its text rendering is not modelled. */
  datatype Alert = Alert(lat: real, lon: real, risk: real, fos: real)

  function AlertFor(row: Row): Alert
  {
    Alert(row.lat, row.lon, row.risk, row.fos)
  }

  /** One alert per hotspot, in hotspot order; the "no hotspots" notice is
      given exactly when no alert was produced. */
  method GenerateAlerts(rows: seq<Row>, hotspots: seq<nat>) returns (alerts: seq<Alert>, noHotspotsNotice: bool)
    requires ValidIndices(hotspots, |rows|)
    ensures |alerts| == |hotspots|
    ensures forall k :: 0 <= k < |alerts| ==> alerts[k] == AlertFor(rows[hotspots[k]])
    ensures noHotspotsNotice <==> |alerts| == 0
  {
    alerts := [];
    for k := 0 to |hotspots|
      invariant |alerts| == k
      invariant forall m :: 0 <= m < k ==> alerts[m] == AlertFor(rows[hotspots[m]])
    {
      alerts := alerts + [AlertFor(rows[hotspots[k]])];
    }
    noHotspotsNotice := |alerts| == 0;
  }

  // ---------------------------------------------------------------------------
  // The whole event
  // ---------------------------------------------------------------------------

  datatype DemoOutcome =
    | DemoError
    | DemoSuccess(fos: seq<real>, risk: seq<real>, hotspots: seq<nat>, alerts: seq<Alert>,
                  noHotspotsNotice: bool, heatmap: array2<real>)

  function ScoredRows(cells: seq<Cell>, fos: seq<real>, risk: seq<real>): (rows: seq<Row>)
    requires |fos| == |cells| && |risk| == |cells|
    ensures |rows| == |cells|
  {
    seq(|cells|, i requires 0 <= i < |cells| => Row(cells[i].lat, cells[i].lon, fos[i], risk[i]))
  }

  /** The configured risk threshold, or the default when none is set. */
  function RiskThresholdOf(configured: Option<real>): real
  {
    if configured.Some? then configured.value else DefaultRiskThreshold
  }

  /** `run_demo_event` in web mode. The file-system check and the loaded table
      are inputs: `pathExists` answers `os.path.exists`, `frame` is what the loader
      and the soil estimation return, `residual` what the ML model predicts and
      `configuredThreshold` the configuration's `RISK_THRESHOLD`, if it sets one. */
  method RunDemoEvent(csvPath: Option<string>, pathExists: string -> bool, frame: Frame, residual: seq<real>,
                      configuredThreshold: Option<real>, exp: real -> real, trig: Trig) returns (outcome: DemoOutcome)
    requires IsExp(exp) && frame.WellFormed() && |residual| == |frame.cells|
    ensures (csvPath.None? || csvPath.value == "" || !pathExists(csvPath.value)) <==> outcome.DemoError?
    ensures outcome.DemoSuccess? ==>
              && outcome.fos == DemoFos(frame, residual, trig)
              && outcome.risk == RiskOf(exp, outcome.fos)
              && outcome.hotspots == Hotspots(outcome.risk, RiskThresholdOf(configuredThreshold))
              && |outcome.alerts| == |outcome.hotspots|
              && (forall k :: 0 <= k < |outcome.alerts| ==>
                    outcome.alerts[k] == AlertFor(ScoredRows(frame.cells, outcome.fos, outcome.risk)[outcome.hotspots[k]]))
              && (outcome.noHotspotsNotice <==> outcome.alerts == [])
              && outcome.heatmap.Length0 == GridSize && outcome.heatmap.Length1 == GridSize
              && (forall i, j :: 0 <= i < GridSize && 0 <= j < GridSize ==>
                    outcome.heatmap[i, j] == BinMean(BinIndices(Lats(frame.cells)), BinIndices(Lons(frame.cells)), outcome.risk, i, j))
  {
    if csvPath.None? || csvPath.value == "" || !pathExists(csvPath.value) {
      return DemoError;
    }
    var fos := DemoFos(frame, residual, trig);
    var risk := RiskOf(exp, fos);
    var hotspots := Hotspots(risk, RiskThresholdOf(configuredThreshold));
    var rows := ScoredRows(frame.cells, fos, risk);
    var alerts, notice := GenerateAlerts(rows, hotspots);
    var heatmap := AverageRiskGrid(BinIndices(Lats(frame.cells)), BinIndices(Lons(frame.cells)), risk);
    outcome := DemoSuccess(fos, risk, hotspots, alerts, notice, heatmap);
  }
}
