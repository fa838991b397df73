/** `run_live_loop` of the top-level live script: the same cycle body with no
    stop condition and no error handling. The loop ends only when the operator
    interrupts it, modelled as the end of the list of per-cycle draws. */
module LiveLoopScript {
  import opened Numeric
  import opened Transcendental
  import opened Terrain
  import opened LiveCycle
  import opened LiveSimulationScript

  const GridPath: string := "shimla_final_grid.csv"

  /** How the loop ends: the dataset is missing, the operator interrupts it,
      or the first cycle fails on an empty grid and the error escapes. */
  datatype LoopEnd = MissingDataset | OperatorStop | Crashed

  method RunLiveLoop(pathExists: string -> bool, cells: seq<Cell>, trig: Trig, sinRad: real -> real,
                     inputs: seq<CycleInput>)
    returns (end: LoopEnd, reports: seq<CycleReport>)
    requires InputsOk(sinRad, inputs)
    ensures !pathExists(GridPath) <==> end == MissingDataset
    ensures end == Crashed <==> pathExists(GridPath) && cells == [] && inputs != []
    ensures end != OperatorStop ==> reports == []
    ensures end == OperatorStop ==> |reports| == |inputs|
    ensures History(cells, trig, sinRad, inputs, reports) && NumberedInRange(cells, reports)
  {
    reports := [];
    if !pathExists(GridPath) {
      return MissingDataset, [];
    }
    var sim := new LiveSimulation(cells, trig);
    while sim.cycle < |inputs|
      invariant sim.Valid() && sim.cells == cells && sim.trig == trig
      invariant sim.cycle == |reports| <= |inputs|
      invariant History(cells, trig, sinRad, inputs, reports) && NumberedInRange(cells, reports)
      invariant sim.saturation == PriorSaturation(cells, reports, |reports|)
      decreases |inputs| - sim.cycle
    {
      if cells == [] {
        return Crashed, [];
      }
      reports := Advance(sim, sinRad, inputs, reports);
    }
    end := OperatorStop;
  }
}
