/** `run_live_simulation`: the bounded (or operator-interrupted) live loop with
    its dataset check, its stop condition and its error and status responses.
    The operator's interrupt is the end of the list of per-cycle draws: the
    loop runs one cycle per draw until `max_cycles` stops it. */
module LiveSimulationScript {
  import opened Numeric
  import opened Transcendental
  import opened Terrain
  import opened LiveCycle

  const DefaultMaxCycles: nat := 5

  datatype Status = Success | Error

  /** How a run ends: it returns a response (a status dictionary, or nothing
      outside web mode), or the operator interrupts it. */
  datatype Outcome = Returned(response: Option<Status>) | Interrupted

  predicate DatasetMissing(csvPath: Option<string>, pathExists: string -> bool)
  {
    csvPath.None? || csvPath.value == "" || !pathExists(csvPath.value)
  }

  /** The number of cycles a run performs with the given draws available. */
  function CyclesRun(maxCycles: Option<nat>, available: nat): (n: nat)
    ensures n <= available
    ensures maxCycles.None? ==> n == available
    ensures maxCycles.Some? ==> n <= maxCycles.value && (n == maxCycles.value || n == available)
  {
    match maxCycles
    case None => available
    case Some(m) => if m <= available then m else available
  }

  /** The saturation memory before the k-th recorded cycle. */
  function PriorSaturation(cells: seq<Cell>, reports: seq<CycleReport>, k: nat): seq<real>
    requires k <= |reports|
  {
    if k == 0 then InitialSaturation(|cells|) else reports[k - 1].saturation
  }

  ghost predicate InputsOk(sinRad: real -> real, inputs: seq<CycleInput>)
  {
    forall k :: 0 <= k < |inputs| ==> CycleInputOk(BaseRain(sinRad, k + 1), inputs[k])
  }

  /** The recorded cycles are the first cycles of the run, in order: cycle
      k + 1 follows from the saturation cycle k left and the k-th draws. */
  ghost predicate History(cells: seq<Cell>, trig: Trig, sinRad: real -> real,
                          inputs: seq<CycleInput>, reports: seq<CycleReport>)
    decreases |reports|
  {
    && |reports| <= |inputs|
    && (reports != [] ==>
          var n := |reports| - 1;
          && History(cells, trig, sinRad, inputs, reports[..n])
          && cells != [] && InputsOk(sinRad, inputs)
          && |PriorSaturation(cells, reports, n)| == |cells|
          && reports[n] == CycleOf(cells, trig, sinRad, PriorSaturation(cells, reports, n), inputs[n], n + 1))
  }

  lemma HistoryExtends(cells: seq<Cell>, trig: Trig, sinRad: real -> real, inputs: seq<CycleInput>,
                       reports: seq<CycleReport>, r: CycleReport)
    requires History(cells, trig, sinRad, inputs, reports) && |reports| < |inputs|
    requires cells != [] && InputsOk(sinRad, inputs)
    requires |PriorSaturation(cells, reports, |reports|)| == |cells|
    requires r == CycleOf(cells, trig, sinRad, PriorSaturation(cells, reports, |reports|), inputs[|reports|], |reports| + 1)
    ensures History(cells, trig, sinRad, inputs, reports + [r])
  {
    var next := reports + [r];
    assert next[..|reports|] == reports;
    assert PriorSaturation(cells, next, |reports|) == PriorSaturation(cells, reports, |reports|);
  }

  /** Every recorded cycle is numbered in order and leaves each cell's
      saturation within [0.05, 1]. */
  ghost predicate NumberedInRange(cells: seq<Cell>, reports: seq<CycleReport>)
  {
    forall k :: 0 <= k < |reports| ==>
      && reports[k].cycle == k + 1
      && |reports[k].saturation| == |cells| && SaturationInRange(reports[k].saturation)
  }

  lemma NumberedExtends(cells: seq<Cell>, reports: seq<CycleReport>, r: CycleReport)
    requires NumberedInRange(cells, reports)
    requires r.cycle == |reports| + 1 && |r.saturation| == |cells| && SaturationInRange(r.saturation)
    ensures NumberedInRange(cells, reports + [r])
  {
    var next := reports + [r];
    forall k | 0 <= k < |next|
      ensures next[k].cycle == k + 1
      ensures |next[k].saturation| == |cells| && SaturationInRange(next[k].saturation)
    {
      if k < |reports| {
        assert next[k] == reports[k];
      }
    }
  }

  /** One turn of the loop: run the next cycle on the simulation state and
      record its report. */
  method Advance(sim: LiveSimulation, sinRad: real -> real, inputs: seq<CycleInput>,
                 reports: seq<CycleReport>) returns (next: seq<CycleReport>)
    requires sim.Valid() && sim.cells != [] && InputsOk(sinRad, inputs)
    requires sim.cycle == |reports| < |inputs|
    requires History(sim.cells, sim.trig, sinRad, inputs, reports) && NumberedInRange(sim.cells, reports)
    requires sim.saturation == PriorSaturation(sim.cells, reports, |reports|)
    modifies sim
    ensures sim.Valid() && sim.cycle == |next| == |reports| + 1
    ensures History(sim.cells, sim.trig, sinRad, inputs, next) && NumberedInRange(sim.cells, next)
    ensures sim.saturation == PriorSaturation(sim.cells, next, |next|)
  {
    ghost var prior := sim.saturation;
    var n := sim.cycle;
    var report := sim.Step(sinRad, inputs[n]);
    assert report == CycleOf(sim.cells, sim.trig, sinRad, prior, inputs[n], n + 1);
    HistoryExtends(sim.cells, sim.trig, sinRad, inputs, reports, report);
    NumberedExtends(sim.cells, reports, report);
    next := reports + [report];
  }

  /** The live simulation: a missing dataset returns at once; otherwise the
      loop runs one cycle per draw until `max_cycles` cycles have run, an
      empty grid makes the first cycle fail, and every cycle's saturation
      stays in [0.05, 1]. */
  method RunLiveSimulation(csvPath: Option<string>, pathExists: string -> bool, cells: seq<Cell>, trig: Trig,
                           sinRad: real -> real, maxCycles: Option<nat>, webMode: bool,
                           inputs: seq<CycleInput>)
    returns (outcome: Outcome, reports: seq<CycleReport>)
    requires InputsOk(sinRad, inputs)
    ensures DatasetMissing(csvPath, pathExists) ==>
              outcome == Returned(if webMode then Some(Error) else None) && reports == []
    ensures !DatasetMissing(csvPath, pathExists) && cells == [] && CyclesRun(maxCycles, |inputs|) > 0 ==>
              outcome == Returned(Some(Error)) && reports == []
    ensures !DatasetMissing(csvPath, pathExists) && (cells != [] || CyclesRun(maxCycles, |inputs|) == 0) ==>
              && |reports| == CyclesRun(maxCycles, |inputs|)
              && History(cells, trig, sinRad, inputs, reports)
              && outcome == (if maxCycles.Some? && maxCycles.value <= |inputs|
                             then Returned(if webMode then Some(Success) else None)
                             else Interrupted)
    ensures History(cells, trig, sinRad, inputs, reports) && NumberedInRange(cells, reports)
  {
    reports := [];
    if DatasetMissing(csvPath, pathExists) {
      outcome := Returned(if webMode then Some(Error) else None);
      return;
    }
    var sim := new LiveSimulation(cells, trig);
    var limit := CyclesRun(maxCycles, |inputs|);
    while sim.cycle < limit
      invariant sim.Valid() && sim.cells == cells && sim.trig == trig
      invariant sim.cycle == |reports| <= limit
      invariant History(cells, trig, sinRad, inputs, reports) && NumberedInRange(cells, reports)
      invariant sim.saturation == PriorSaturation(cells, reports, |reports|)
      decreases limit - sim.cycle
    {
      if cells == [] {
        // the rain field of an empty grid has no maximum
        outcome := Returned(Some(Error));
        reports := [];
        return;
      }
      reports := Advance(sim, sinRad, inputs, reports);
    }
    if maxCycles.Some? && maxCycles.value <= |inputs| {
      outcome := Returned(if webMode then Some(Success) else None);
    } else {
      outcome := Interrupted;
    }
  }

  /** `run_live_simulation` in web mode with the default limit of five cycles,
      as the web interface calls it: with a usable dataset and a non-empty grid
      it runs min(5, draws) cycles and reports success once all five ran. */
  method RunWebSimulation(csvPath: Option<string>, pathExists: string -> bool, cells: seq<Cell>, trig: Trig,
                          sinRad: real -> real, inputs: seq<CycleInput>)
    returns (outcome: Outcome, reports: seq<CycleReport>)
    requires InputsOk(sinRad, inputs)
    ensures DatasetMissing(csvPath, pathExists) ==> outcome == Returned(Some(Error)) && reports == []
    ensures !DatasetMissing(csvPath, pathExists) && cells != [] ==>
              && |reports| == (if |inputs| < DefaultMaxCycles then |inputs| else DefaultMaxCycles)
              && outcome == (if |inputs| < DefaultMaxCycles then Interrupted else Returned(Some(Success)))
    ensures |reports| <= DefaultMaxCycles
    ensures History(cells, trig, sinRad, inputs, reports) && NumberedInRange(cells, reports)
  {
    outcome, reports := RunLiveSimulation(csvPath, pathExists, cells, trig, sinRad, Some(DefaultMaxCycles), true, inputs);
  }

  const StubGridPath: string := "shimla_final_grid.csv"

  /** `run_live_loop` of this script: the simulation on the default grid file,
      with no cycle limit and outside web mode, so it only ever ends by a
      missing dataset, an empty grid or the operator's interrupt. */
  method RunLiveLoop(pathExists: string -> bool, cells: seq<Cell>, trig: Trig, sinRad: real -> real,
                     inputs: seq<CycleInput>)
    returns (outcome: Outcome, reports: seq<CycleReport>)
    requires InputsOk(sinRad, inputs)
    ensures !pathExists(StubGridPath) ==> outcome == Returned(None) && reports == []
    ensures pathExists(StubGridPath) && cells != [] ==> outcome == Interrupted && |reports| == |inputs|
    ensures outcome != Returned(Some(Success))
    ensures History(cells, trig, sinRad, inputs, reports) && NumberedInRange(cells, reports)
  {
    outcome, reports := RunLiveSimulation(Some(StubGridPath), pathExists, cells, trig, sinRad, None, false, inputs);
  }
}
