/** `backtest_event`: locate the terrain dataset, pick the historical month
    columns present, and for each month run the FoS engine under that month's
    scenario (July 2023 extreme, otherwise mild), turn FoS into risk with the
    backtest's logistic curve, and count the cells whose risk exceeds 0.8. */
module Backtest {
  import opened Numeric
  import opened Transcendental
  import opened Fos
  import opened Terrain
  import opened Risk

  const Candidates: seq<string> :=
    ["shimla_final_grid.csv", "../shimla_final_grid.csv", "../../shimla_final_grid.csv"]
  const Months: seq<string> := ["2023-06-01", "2023-07-01"]
  const JulyTag: string := "07-01"

  const ExtremeIntensity: real := 45.0    // mm/h, July 2023
  const ExtremeSaturation: real := 0.8
  const MildIntensity: real := 10.0       // mm/h, any other month
  const MildSaturation: real := 0.4
  const BacktestHours: real := 6.0
  const BacktestSteepness: real := 5.0
  const BacktestCentre: real := 1.1
  const HotspotRisk: real := 0.8
  const AlertHotspots: nat := 10

  // ---------------------------------------------------------------------------
  // Dataset search
  // ---------------------------------------------------------------------------

  /** `os.path.join` of a directory and a relative path. */
  function JoinPath(dir: string, p: string): (joined: string)
    ensures |joined| >= |p| && joined[|joined| - |p|..] == p
    ensures dir == "" ==> joined == p
  {
    if dir == "" then p
    else if dir[|dir| - 1] == '/' then dir + p
    else dir + "/" + p
  }

  /** The paths tried, in order: for each candidate, first relative to the
      script's directory, then as given. */
  function SearchOrder(dir: string, candidates: seq<string>): (paths: seq<string>)
    ensures |paths| == 2 * |candidates|
    ensures forall k :: 0 <= k < |candidates| ==>
              paths[2 * k] == JoinPath(dir, candidates[k]) && paths[2 * k + 1] == candidates[k]
  {
    var paths := seq(2 * |candidates|, i requires 0 <= i < 2 * |candidates| =>
                       if i % 2 == 0 then JoinPath(dir, candidates[i / 2]) else candidates[i / 2]);
    assert forall k :: 0 <= k < |candidates| ==> (2 * k) / 2 == k && (2 * k + 1) / 2 == k && (2 * k + 1) % 2 == 1;
    paths
  }

  /** The first existing path of a list, if any. */
  function FirstExisting(paths: seq<string>, pathExists: string -> bool): (found: Option<string>)
    ensures found.None? <==> forall k :: 0 <= k < |paths| ==> !pathExists(paths[k])
    ensures found.Some? ==>
              exists k :: 0 <= k < |paths| && paths[k] == found.value && pathExists(paths[k])
                          && forall j :: 0 <= j < k ==> !pathExists(paths[j])
  {
    if paths == [] then None
    else if pathExists(paths[0]) then Some(paths[0])
    else
      var rest := FirstExisting(paths[1..], pathExists);
      assert forall k :: 1 <= k < |paths| ==> paths[1..][k - 1] == paths[k];
      rest
  }

  predicate UsableGivenPath(csvPath: Option<string>, pathExists: string -> bool)
  {
    csvPath.Some? && csvPath.value != "" && pathExists(csvPath.value)
  }

  /** The dataset the backtest reads: the given path when it exists, else the
      first hit of the candidate search, else none. */
  function DatasetPath(csvPath: Option<string>, currentDir: string, pathExists: string -> bool): Option<string>
  {
    if UsableGivenPath(csvPath, pathExists) then csvPath
    else FirstExisting(SearchOrder(currentDir, Candidates), pathExists)
  }

  /** Two paths at a time: the first hit of a list is the first of its head
      pair that exists, else the first hit after the pair. */
  lemma FirstExistingPair(paths: seq<string>, pathExists: string -> bool, i: nat)
    requires i + 2 <= |paths|
    ensures FirstExisting(paths[i..], pathExists)
         == if pathExists(paths[i]) then Some(paths[i])
            else if pathExists(paths[i + 1]) then Some(paths[i + 1])
            else FirstExisting(paths[i + 2..], pathExists)
  {
    assert paths[i..][0] == paths[i] && paths[i..][1..] == paths[i + 1..];
    assert paths[i + 1..][0] == paths[i + 1] && paths[i + 1..][1..] == paths[i + 2..];
  }

  /** The candidate loop: each candidate under the directory, then as given,
      stopping at the first that exists. */
  method SearchCandidates(dir: string, candidates: seq<string>, pathExists: string -> bool)
    returns (path: Option<string>)
    ensures path == FirstExisting(SearchOrder(dir, candidates), pathExists)
  {
    ghost var order := SearchOrder(dir, candidates);
    var k := 0;
    while k < |candidates|
      invariant 0 <= k <= |candidates|
      invariant FirstExisting(order, pathExists) == FirstExisting(order[2 * k..], pathExists)
    {
      FirstExistingPair(order, pathExists, 2 * k);
      var possible := JoinPath(dir, candidates[k]);
      if pathExists(possible) {
        return Some(possible);
      }
      if pathExists(candidates[k]) {
        return Some(candidates[k]);
      }
      k := k + 1;
    }
    assert order[2 * k..] == [];
    return None;
  }

  /** The dataset lookup: the given path when it exists, else the candidate search. */
  method LocateDataset(csvPath: Option<string>, currentDir: string, pathExists: string -> bool)
    returns (path: Option<string>)
    ensures path == DatasetPath(csvPath, currentDir, pathExists)
    ensures path.Some? ==> pathExists(path.value)
  {
    if UsableGivenPath(csvPath, pathExists) {
      return csvPath;
    }
    path := SearchCandidates(currentDir, Candidates, pathExists);
  }

  // ---------------------------------------------------------------------------
  // Month selection and scenario parameters
  // ---------------------------------------------------------------------------

  /** `a` is `b` with some elements dropped and the rest in their order. */
  ghost predicate IsSubsequence(a: seq<string>, b: seq<string>)
    decreases |b|
  {
    if a == [] then true
    else if b == [] then false
    else (a[0] == b[0] && IsSubsequence(a[1..], b[1..])) || IsSubsequence(a, b[1..])
  }

  /** The months of the list that are columns of the dataset, in list order. */
  function AvailableMonths(months: seq<string>, columns: set<string>): (available: seq<string>)
    ensures forall m :: m in available <==> m in months && m in columns
    ensures IsSubsequence(available, months)
    ensures |available| <= |months|
    ensures forall m :: multiset(available)[m] == if m in columns then multiset(months)[m] else 0
  {
    if months == [] then []
    else
      var rest := AvailableMonths(months[1..], columns);
      assert forall m :: m in months <==> m == months[0] || m in months[1..];
      assert months == [months[0]] + months[1..];
      if months[0] in columns then
        assert ([months[0]] + rest)[1..] == rest;
        [months[0]] + rest
      else
        assert rest == [] || IsSubsequence(rest, months[1..]);
        rest
  }

  /** `t` occurs in `s` at position `i`. */
  ghost predicate OccursAt(s: string, t: string, i: int)
  {
    0 <= i && i + |t| <= |s| && s[i..i + |t|] == t
  }

  /** Python's `t in s` for strings. */
  function HasInfix(s: string, t: string): (b: bool)
    ensures b <==> exists i :: OccursAt(s, t, i)
    decreases |s|
  {
    if |t| > |s| then false
    else if s[..|t|] == t then
      assert OccursAt(s, t, 0);
      true
    else
      var b := HasInfix(s[1..], t);
      assert forall i :: OccursAt(s[1..], t, i) ==> OccursAt(s, t, i + 1) by {
        forall i | OccursAt(s[1..], t, i) ensures OccursAt(s, t, i + 1) {
          assert s[1..][i..i + |t|] == s[i + 1..i + 1 + |t|];
        }
      }
      assert forall i :: OccursAt(s, t, i) ==> OccursAt(s[1..], t, i - 1) by {
        forall i | OccursAt(s, t, i) ensures OccursAt(s[1..], t, i - 1) {
          assert i != 0;
          assert s[1..][i - 1..i - 1 + |t|] == s[i..i + |t|];
        }
      }
      b
  }

  datatype Scenario = Scenario(intensity: real, saturation: real)

  /** A month containing "07-01" is the extreme scenario, any other the mild one. */
  function ScenarioFor(month: string): (p: Scenario)
    ensures HasInfix(month, JulyTag) ==> p == Scenario(ExtremeIntensity, ExtremeSaturation)
    ensures !HasInfix(month, JulyTag) ==> p == Scenario(MildIntensity, MildSaturation)
  {
    if HasInfix(month, JulyTag) then Scenario(ExtremeIntensity, ExtremeSaturation)
    else Scenario(MildIntensity, MildSaturation)
  }

  /** June 2023 gets the mild scenario and July 2023 the extreme one. */
  lemma MonthScenarios()
    ensures ScenarioFor(Months[0]) == Scenario(MildIntensity, MildSaturation)
    ensures ScenarioFor(Months[1]) == Scenario(ExtremeIntensity, ExtremeSaturation)
  {
    assert OccursAt(Months[1], JulyTag, 5);
    var june := Months[0];
    forall j | 1 <= j <= 6 ensures june[j] != '7' {
      if j == 1 { assert june[1] == '0'; }
      else if j == 2 { assert june[2] == '2'; }
      else if j == 3 { assert june[3] == '3'; }
      else if j == 4 { assert june[4] == '-'; }
      else if j == 5 { assert june[5] == '0'; }
      else { assert june[6] == '6'; }
    }
    forall i | 0 <= i && i + |JulyTag| <= |june| ensures !OccursAt(june, JulyTag, i) {
      assert june[i..i + |JulyTag|][1] == june[i + 1];
    }
  }

  // ---------------------------------------------------------------------------
  // Per-month assessment
  // ---------------------------------------------------------------------------

  function BacktestFos(cells: seq<Cell>, p: Scenario, trig: Trig): (fos: seq<real>)
    ensures |fos| == |cells|
    ensures forall i :: 0 <= i < |fos| ==>
              fos[i] == CellFos(cells[i].soil, cells[i].slopeDeg, p.saturation, p.intensity, BacktestHours, trig)
  {
    TerrainFos(cells, seq(|cells|, i => p.saturation), p.intensity, BacktestHours, trig)
  }

  /** `1 / (1 + exp(5 (fos - 1.1)))` cell by cell. */
  function BacktestRisk(exp: real -> real, fos: seq<real>): (risk: seq<real>)
    requires IsExp(exp)
    ensures |risk| == |fos|
    ensures forall i :: 0 <= i < |risk| ==>
              risk[i] == Logistic(exp, BacktestSteepness, BacktestCentre, fos[i]) && 0.0 < risk[i] < 1.0
  {
    seq(|fos|, i requires 0 <= i < |fos| => Logistic(exp, BacktestSteepness, BacktestCentre, fos[i]))
  }

  datatype MonthResult = MonthResult(month: string, hotspots: nat, intensity: real)

  function MonthResultFor(cells: seq<Cell>, exp: real -> real, trig: Trig, month: string): (r: MonthResult)
    requires IsExp(exp)
    ensures r.month == month && r.intensity == ScenarioFor(month).intensity
    ensures r.hotspots <= |cells|
  {
    var p := ScenarioFor(month);
    MonthResult(month, CountAbove(BacktestRisk(exp, BacktestFos(cells, p, trig)), HotspotRisk), p.intensity)
  }

  /** The summary status of a month. */
  function AlertStatus(hotspots: nat): (status: string)
    ensures status == "ALERT TRIGGERED" <==> hotspots > AlertHotspots
  {
    if hotspots > AlertHotspots then "ALERT TRIGGERED" else "No Alert"
  }

  /** Counting the values above a threshold is monotone in the values. */
  lemma {:induction false} CountAboveMonotone(s: seq<real>, t: seq<real>, threshold: real)
    requires |s| == |t| && forall i :: 0 <= i < |s| ==> s[i] <= t[i]
    ensures CountAbove(s, threshold) <= CountAbove(t, threshold)
  {
    if s != [] {
      var n := |s| - 1;
      assert forall i :: 0 <= i < n ==> s[..n][i] == s[i] && t[..n][i] == t[i];
      CountAboveMonotone(s[..n], t[..n], threshold);
    }
  }

  /** In one cell, the July scenario's risk is at least the June one's: more
      rain and more saturation lower the cell's FoS, which raises its risk. */
  lemma JulyCellRiskAtLeastJune(soil: Soil, slope: real, exp: real -> real, trig: Trig)
    requires IsExp(exp) && ValidTrig(trig) && 0.0 <= soil.phiDeg < 90.0 && soil.depth >= 0.0
    ensures Logistic(exp, BacktestSteepness, BacktestCentre,
                     CellFos(soil, slope, MildSaturation, MildIntensity, BacktestHours, trig))
         <= Logistic(exp, BacktestSteepness, BacktestCentre,
                     CellFos(soil, slope, ExtremeSaturation, ExtremeIntensity, BacktestHours, trig))
  {
    var fJune := CellFos(soil, slope, MildSaturation, MildIntensity, BacktestHours, trig);
    var fJuly := CellFos(soil, slope, ExtremeSaturation, ExtremeIntensity, BacktestHours, trig);
    FosAntitoneInSaturation(soil, slope, MildSaturation, ExtremeSaturation, MildIntensity, BacktestHours, trig);
    FosAntitoneInRain(soil, slope, ExtremeSaturation, MildIntensity, ExtremeIntensity, BacktestHours, trig);
    if fJuly < fJune {
      LogisticStrictlyDecreasing(exp, BacktestSteepness, BacktestCentre, fJuly, fJune);
    }
  }

  /** The July scenario never flags fewer hotspots than the June one. */
  lemma JulyFlagsAtLeastJune(cells: seq<Cell>, exp: real -> real, trig: Trig)
    requires IsExp(exp) && ValidTrig(trig)
    requires forall i :: 0 <= i < |cells| ==> 0.0 <= cells[i].soil.phiDeg < 90.0 && cells[i].soil.depth >= 0.0
    ensures MonthResultFor(cells, exp, trig, Months[0]).hotspots <= MonthResultFor(cells, exp, trig, Months[1]).hotspots
  {
    MonthScenarios();
    var june := BacktestRisk(exp, BacktestFos(cells, Scenario(MildIntensity, MildSaturation), trig));
    var july := BacktestRisk(exp, BacktestFos(cells, Scenario(ExtremeIntensity, ExtremeSaturation), trig));
    forall i | 0 <= i < |cells| ensures june[i] <= july[i] {
      JulyCellRiskAtLeastJune(cells[i].soil, cells[i].slopeDeg, exp, trig);
    }
    CountAboveMonotone(june, july, HotspotRisk);
  }

  // ---------------------------------------------------------------------------
  // The backtest
  // ---------------------------------------------------------------------------

  /** `int(np.sum(risk > 0.8))` as a counting loop. */
  method CountHotspots(risk: seq<real>) returns (hotspots: nat)
    ensures hotspots == CountAbove(risk, HotspotRisk)
  {
    hotspots := 0;
    for i := 0 to |risk|
      invariant hotspots == CountAbove(risk[..i], HotspotRisk)
    {
      assert risk[..i + 1][..i] == risk[..i];
      if risk[i] > HotspotRisk {
        hotspots := hotspots + 1;
      }
    }
    assert risk[..|risk|] == risk;
  }

  /** The body of the month loop: the month's scenario, FoS, risk and hotspot count. */
  method AssessMonth(cells: seq<Cell>, exp: real -> real, trig: Trig, month: string) returns (result: MonthResult)
    requires IsExp(exp)
    ensures result == MonthResultFor(cells, exp, trig, month)
  {
    var p := ScenarioFor(month);
    var fos := BacktestFos(cells, p, trig);
    var risk := BacktestRisk(exp, fos);
    var hotspots := CountHotspots(risk);
    result := MonthResult(month, hotspots, p.intensity);
  }

  /** The month loop: one assessment per month, appended in order. */
  method AssessMonths(cells: seq<Cell>, exp: real -> real, trig: Trig, months: seq<string>)
    returns (results: seq<MonthResult>)
    requires IsExp(exp)
    ensures |results| == |months|
    ensures forall k :: 0 <= k < |months| ==> results[k] == MonthResultFor(cells, exp, trig, months[k])
  {
    results := [];
    for k := 0 to |months|
      invariant |results| == k
      invariant forall j :: 0 <= j < k ==> results[j] == MonthResultFor(cells, exp, trig, months[j])
    {
      var result := AssessMonth(cells, exp, trig, months[k]);
      results := results + [result];
    }
  }

  datatype BacktestOutcome = BacktestError | BacktestSuccess(results: seq<MonthResult>)

  /** The backtest: an error when no dataset is found; otherwise one result
      per available month, in month order (none when no month column exists,
      which is still a success). */
  method BacktestEvent(csvPath: Option<string>, currentDir: string, pathExists: string -> bool,
                       cells: seq<Cell>, columns: set<string>, exp: real -> real, trig: Trig)
    returns (outcome: BacktestOutcome)
    requires IsExp(exp)
    ensures outcome.BacktestError? <==> DatasetPath(csvPath, currentDir, pathExists).None?
    ensures outcome.BacktestSuccess? ==>
              var months := AvailableMonths(Months, columns);
              && |outcome.results| == |months|
              && forall k :: 0 <= k < |months| ==> outcome.results[k] == MonthResultFor(cells, exp, trig, months[k])
  {
    var path := LocateDataset(csvPath, currentDir, pathExists);
    if path.None? {
      return BacktestError;
    }
    var results := AssessMonths(cells, exp, trig, AvailableMonths(Months, columns));
    outcome := BacktestSuccess(results);
  }
}
