/** The per-cell rows of the terrain table the scripts load (latitude,
    longitude, elevation, slope and the estimated soil parameters), and the
    column views that the scripts pass to the FoS engine. */
module Terrain {
  import opened Fos
  import opened Transcendental

  datatype Cell = Cell(lat: real, lon: real, elevation: real, slopeDeg: real, soil: Soil)

  function Slopes(cells: seq<Cell>): (s: seq<real>)
    ensures |s| == |cells| && forall i :: 0 <= i < |s| ==> s[i] == cells[i].slopeDeg
  {
    seq(|cells|, i requires 0 <= i < |cells| => cells[i].slopeDeg)
  }

  function Soils(cells: seq<Cell>): (s: seq<Soil>)
    ensures |s| == |cells| && forall i :: 0 <= i < |s| ==> s[i] == cells[i].soil
  {
    seq(|cells|, i requires 0 <= i < |cells| => cells[i].soil)
  }

  function Lats(cells: seq<Cell>): (s: seq<real>)
    ensures |s| == |cells| && forall i :: 0 <= i < |s| ==> s[i] == cells[i].lat
  {
    seq(|cells|, i requires 0 <= i < |cells| => cells[i].lat)
  }

  function Lons(cells: seq<Cell>): (s: seq<real>)
    ensures |s| == |cells| && forall i :: 0 <= i < |s| ==> s[i] == cells[i].lon
  {
    seq(|cells|, i requires 0 <= i < |cells| => cells[i].lon)
  }

  /** `compute_fos_vectorized` over a terrain table with a saturation column. */
  function TerrainFos(cells: seq<Cell>, saturation: seq<real>, rainMmph: real,
                      durationHours: real, trig: Trig): (fos: seq<real>)
    requires |saturation| == |cells|
    ensures |fos| == |cells|
    ensures forall i :: 0 <= i < |fos| ==>
              fos[i] == CellFos(cells[i].soil, cells[i].slopeDeg, saturation[i], rainMmph, durationHours, trig)
  {
    FosGrid(Slopes(cells), Soils(cells), saturation, rainMmph, durationHours, trig)
  }
}
