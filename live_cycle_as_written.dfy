/** The live cycle's rain field, saturation update and alert as both live
    scripts write them, in IEEE-754 terms where a value is a real number or
    NaN. When the fusion engine keeps readings that are all 0, the weighted
    field is 0 in every cell and is divided by its own maximum, 0: every cell
    becomes NaN. `np.clip` keeps NaN, so the saturation memory turns NaN and
    stays NaN in every later cycle; every FoS is then NaN, `NaN < 1.0` is
    false, and the alert can never fire again. `LiveCycle.RainField` is the
    guarded field the rest of the model uses. */
module LiveCycleAsWritten {
  import opened Numeric
  import opened Transcendental
  import opened Fos
  import opened Terrain
  import opened LiveCycle

  /** A float64 value that is either a real number or NaN. */
  datatype Float = Finite(v: real) | NaN

  /** `rain_grid /= np.max(rain_grid); rain_grid *= max(vals)` without a guard:
      a zero maximum of a non-negative field makes every cell 0 / 0. */
  function RainFieldAsWritten(lats: seq<real>, lons: seq<real>, clean: seq<Reading>): (rain: seq<Float>)
    requires |lons| == |lats|
    requires clean != [] ==> |lats| > 0 && NonNegative(clean)
    ensures |rain| == |lats|
    ensures clean == [] ==> forall c :: 0 <= c < |rain| ==> rain[c] == Finite(0.0)
  {
    if clean == [] then seq(|lats|, c => Finite(0.0))
    else
      var raw := Weights(lats, lons, clean);
      var top := SeqMax(raw);
      assert raw[0] >= 0.0;
      if top == 0.0 then seq(|lats|, c => NaN)
      else seq(|lats|, c requires 0 <= c < |lats| => Finite(Scaled(raw[c], top, MaxReading(clean))))
  }

  /** `saturation * 0.985 + rain / 100 * 0.08`, clipped: NaN in, NaN out. */
  function NextSaturationAsWritten(s: Float, rain: Float): (s': Float)
    ensures s'.NaN? <==> s.NaN? || rain.NaN?
    ensures s'.Finite? ==> MinSaturation <= s'.v <= MaxSaturation
  {
    if s.NaN? || rain.NaN? then NaN else Finite(NextSaturation(s.v, rain.v))
  }

  /** The FoS of one cell for the cycle: NaN whenever its saturation or the
      peak rain is NaN, since every step of the engine propagates NaN. */
  function CellFosAsWritten(cell: Cell, saturation: Float, peak: Float, trig: Trig): (f: Float)
    ensures f.NaN? <==> saturation.NaN? || peak.NaN?
  {
    if saturation.NaN? || peak.NaN? then NaN
    else Finite(CellFos(cell.soil, cell.slopeDeg, saturation.v, peak.v, ForecastHours, trig))
  }

  /** `fos < 1.0` on a float: false for NaN. */
  predicate Unstable(f: Float)
  {
    f.Finite? && f.v < 1.0
  }

  /** `np.sum(fos < 1.0)`. */
  function CountUnstable(fos: seq<Float>): (n: nat)
    ensures n <= |fos|
  {
    if fos == [] then 0
    else CountUnstable(fos[..|fos| - 1]) + (if Unstable(fos[|fos| - 1]) then 1 else 0)
  }

  /** Clean readings that are all 0 give a weighted sum of 0 at every cell. */
  lemma {:induction false} ZeroReadingsZeroWeight(lat: real, lon: real, clean: seq<Reading>)
    requires forall k :: 0 <= k < |clean| ==> clean[k].val == 0.0
    ensures Weight(lat, lon, clean) == 0.0
  {
    if clean != [] {
      var init := clean[..|clean| - 1];
      assert forall k :: 0 <= k < |init| ==> init[k] == clean[k];
      ZeroReadingsZeroWeight(lat, lon, init);
    }
  }

  /** Clean readings whose largest is 0 make the field NaN in every cell as
      written, where the guarded field is 0 in every cell. */
  lemma AllZeroReadingsGiveNaN(lats: seq<real>, lons: seq<real>, clean: seq<Reading>)
    requires |lons| == |lats| && |lats| > 0
    requires clean != [] && NonNegative(clean) && MaxReading(clean) == 0.0
    ensures forall c :: 0 <= c < |lats| ==> RainFieldAsWritten(lats, lons, clean)[c] == NaN
    ensures forall c :: 0 <= c < |lats| ==> RainField(lats, lons, clean)[c] == 0.0
  {
    forall k | 0 <= k < |clean| ensures clean[k].val == 0.0 {
      assert clean[k].val >= 0.0;
    }
    var raw := Weights(lats, lons, clean);
    forall c | 0 <= c < |raw| ensures raw[c] == 0.0 {
      ZeroReadingsZeroWeight(lats[c], lons[c], clean);
    }
    var i :| 0 <= i < |raw| && raw[i] == SeqMax(raw);
  }

  /** Every cell NaN: no cell counts as unstable. */
  lemma {:induction false} NaNGridHasNoUnstableCell(fos: seq<Float>)
    requires forall c :: 0 <= c < |fos| ==> fos[c] == NaN
    ensures CountUnstable(fos) == 0
  {
    if fos != [] {
      var init := fos[..|fos| - 1];
      assert forall c :: 0 <= c < |init| ==> init[c] == fos[c];
      NaNGridHasNoUnstableCell(init);
    }
  }

  /** Once the saturation memory is NaN, the next cycle leaves it NaN whatever
      its rain, every FoS is NaN, and the alert does not fire. */
  lemma NaNSaturationPersists(cells: seq<Cell>, saturation: seq<Float>, rain: seq<Float>, peak: Float, trig: Trig)
    requires |saturation| == |cells| && |rain| == |cells|
    requires forall c :: 0 <= c < |cells| ==> saturation[c] == NaN
    ensures var next := seq(|cells|, c requires 0 <= c < |cells| => NextSaturationAsWritten(saturation[c], rain[c]));
            var fos := seq(|cells|, c requires 0 <= c < |cells| => CellFosAsWritten(cells[c], next[c], peak, trig));
            && (forall c :: 0 <= c < |cells| ==> next[c] == NaN && fos[c] == NaN)
            && !(20 * CountUnstable(fos) > |cells|)
  {
    var next := seq(|cells|, c requires 0 <= c < |cells| => NextSaturationAsWritten(saturation[c], rain[c]));
    var fos := seq(|cells|, c requires 0 <= c < |cells| => CellFosAsWritten(cells[c], next[c], peak, trig));
    NaNGridHasNoUnstableCell(fos);
  }

  /** The draws that expose it: in cycle 12, where sin(4.8) <= -0.8 puts the
      base rain at no more than 5 mm/h, no station faults, every noise draw is
      -5 and the fusion engine keeps all three readings. Every reading is then
      0, and the rain field of any non-empty grid is NaN in every cell. */
  lemma CycleTwelveGivesNaN(sinRad: real -> real, lats: seq<real>, lons: seq<real>)
    requires sinRad(12.0 * CyclePhaseStep) <= -0.8
    requires |lons| == |lats| && |lats| > 0
    ensures var input := CycleInput([-5.0, -5.0, -5.0], [false, false, false], [true, true, true]);
            var clean := Kept(StationReadings(BaseRain(sinRad, 12), input), input.keep);
            && clean != [] && NonNegative(clean)
            && forall c :: 0 <= c < |lats| ==> RainFieldAsWritten(lats, lons, clean)[c] == NaN
  {
    var input := CycleInput([-5.0, -5.0, -5.0], [false, false, false], [true, true, true]);
    var base := BaseRain(sinRad, 12);
    assert base <= 5.0;
    var readings := StationReadings(base, input);
    var clean := Kept(readings, input.keep);
    KeptMembers(readings, input.keep);
    CleanReadings(base, input);
    assert readings[0] in clean;
    forall k | 0 <= k < |clean| ensures clean[k].val == 0.0 {
      assert clean[k] in readings;
      var j :| 0 <= j < |readings| && readings[j] == clean[k];
      assert StationValue(base, input.noise[j], input.fault[j]) <= 0.0;
    }
    var m :| 0 <= m < |clean| && clean[m].val == MaxReading(clean);
    AllZeroReadingsGiveNaN(lats, lons, clean);
  }
}
