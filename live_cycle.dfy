/** One cycle of the live simulation, shared by both live-simulation scripts:
    station readings (floored at 0), the sensor-fusion filter, an inverse
    distance weighted rain field rescaled to the largest clean reading, the
    cell-wise saturation memory update, the FoS of every cell under the peak
    rain, and the widespread-instability alert. */
module LiveCycle {
  import opened Numeric
  import opened Transcendental
  import opened Fos
  import opened Terrain

  const DecayRate: real := 0.985          // drainage per cycle
  const RainGain: real := 0.08            // saturation gained per 100 mm/h of rain
  const MinSaturation: real := 0.05
  const MaxSaturation: real := 1.0
  const StartSaturation: real := 0.2
  const MinDist2: real := 0.000001        // floor of the squared distance to a station
  const UnstableAlertFraction: real := 0.05
  const ForecastHours: real := 6.0
  const BaseRainMean: real := 25.0
  const BaseRainSwing: real := 25.0
  const CyclePhaseStep: real := 0.4       // radians of the base-rain sine per cycle
  const FaultValue: real := 9999.0

  datatype Station = Station(id: string, lat: real, lon: real)

  const Stations: seq<Station> :=
    [Station("S1", 31.10, 77.10), Station("S2", 31.20, 77.20), Station("S3", 31.05, 77.15)]

  datatype Reading = Reading(station: Station, val: real)

  // ---------------------------------------------------------------------------
  // Readings and the fusion filter
  // ---------------------------------------------------------------------------

  /** The base rainfall of a cycle, `max(0, 25 + 25 sin(0.4 cycle))`, with the
      sine (in radians) supplied by the caller. */
  function BaseRain(sinRad: real -> real, cycle: nat): (r: real)
    ensures r >= 0.0
  {
    Max(0.0, BaseRainMean + BaseRainSwing * sinRad(cycle as real * CyclePhaseStep))
  }

  /** A station's simulated value: the fault value when the fault fires, else
      the base rain plus the station's noise. */
  function StationValue(base: real, noise: real, fault: bool): real
  {
    if fault then FaultValue else base + noise
  }

  /** A station's reading: its simulated value floored at 0. */
  function ReadingOf(s: Station, raw: real): (r: Reading)
    ensures r.station == s && r.val >= 0.0
    ensures raw >= 0.0 ==> r.val == raw
    ensures raw < 0.0 ==> r.val == 0.0
  {
    Reading(s, Max(raw, 0.0))
  }

  /** The random draws of one cycle, per station: the uniform noise, whether
      the fault fires, and whether the fusion engine keeps the reading. */
  datatype CycleInput = CycleInput(noise: seq<real>, fault: seq<bool>, keep: seq<bool>)
  {
    predicate Shaped()
    {
      |noise| == |Stations| && |fault| == |Stations| && |keep| == |Stations|
    }
  }

  function StationReadings(base: real, input: CycleInput): (readings: seq<Reading>)
    requires input.Shaped()
    ensures |readings| == |Stations|
    ensures forall k :: 0 <= k < |readings| ==>
              readings[k] == ReadingOf(Stations[k], StationValue(base, input.noise[k], input.fault[k]))
  {
    seq(|Stations|, k requires 0 <= k < |Stations| =>
      ReadingOf(Stations[k], StationValue(base, input.noise[k], input.fault[k])))
  }

  /** The readings loop: one reading per station, in station order. */
  method CollectReadings(base: real, input: CycleInput) returns (readings: seq<Reading>)
    requires input.Shaped()
    ensures |readings| == |Stations|
    ensures forall k :: 0 <= k < |readings| ==>
              readings[k] == ReadingOf(Stations[k], StationValue(base, input.noise[k], input.fault[k]))
  {
    readings := [];
    for k := 0 to |Stations|
      invariant |readings| == k
      invariant forall m :: 0 <= m < k ==>
                  readings[m] == ReadingOf(Stations[m], StationValue(base, input.noise[m], input.fault[m]))
    {
      var val := base + input.noise[k];
      if input.fault[k] {
        val := FaultValue;
      }
      readings := readings + [ReadingOf(Stations[k], val)];
    }
  }

  /** The fusion engine's output: the readings it keeps, in order. */
  function Kept(readings: seq<Reading>, keep: seq<bool>): (clean: seq<Reading>)
    requires |keep| == |readings|
    ensures |clean| <= |readings|
    ensures forall r :: r in clean ==> r in readings
  {
    if readings == [] then []
    else (if keep[0] then [readings[0]] else []) + Kept(readings[1..], keep[1..])
  }

  ghost predicate NonNegative(clean: seq<Reading>)
  {
    forall k :: 0 <= k < |clean| ==> clean[k].val >= 0.0
  }

  /** `max(s["val"] for s in clean)`. */
  function MaxReading(clean: seq<Reading>): (m: real)
    requires clean != []
    ensures forall k :: 0 <= k < |clean| ==> clean[k].val <= m
    ensures exists k :: 0 <= k < |clean| && clean[k].val == m
  {
    if |clean| == 1 then clean[0].val
    else
      var m' := MaxReading(clean[..|clean| - 1]);
      assert forall k :: 0 <= k < |clean| - 1 ==> clean[..|clean| - 1][k] == clean[k];
      Max(m', clean[|clean| - 1].val)
  }

  /** What a cycle needs of its simulated input: a noise draw, a fault draw
      and a keep flag per station. */
  ghost predicate CycleInputOk(base: real, input: CycleInput)
  {
    input.Shaped()
  }

  /** A kept reading is in the clean list, and a non-empty clean list means
      some reading was kept. */
  lemma {:induction false} KeptMembers(readings: seq<Reading>, keep: seq<bool>)
    requires |keep| == |readings|
    ensures forall k :: 0 <= k < |readings| && keep[k] ==> readings[k] in Kept(readings, keep)
    ensures Kept(readings, keep) != [] ==> exists k :: 0 <= k < |readings| && keep[k]
  {
    if readings != [] {
      KeptMembers(readings[1..], keep[1..]);
      forall k | 0 <= k < |readings| && keep[k] ensures readings[k] in Kept(readings, keep) {
        if k > 0 {
          assert readings[1..][k - 1] == readings[k];
        }
      }
      if Kept(readings, keep) != [] && !keep[0] {
        var j :| 0 <= j < |readings[1..]| && keep[1..][j];
        assert keep[j + 1];
      }
    }
  }

  /** The clean readings of a well-formed input are non-negative. */
  lemma CleanReadings(base: real, input: CycleInput)
    requires CycleInputOk(base, input)
    ensures NonNegative(Kept(StationReadings(base, input), input.keep))
  {
    var readings := StationReadings(base, input);
    var clean := Kept(readings, input.keep);
    forall k | 0 <= k < |clean| ensures clean[k].val >= 0.0 {
      assert clean[k] in readings;
    }
  }

  // ---------------------------------------------------------------------------
  // The inverse-distance weighted rain field
  // ---------------------------------------------------------------------------

  function Dist2(lat: real, lon: real, s: Station): (d: real)
    ensures d >= MinDist2
  {
    Max((lat - s.lat) * (lat - s.lat) + (lon - s.lon) * (lon - s.lon), MinDist2)
  }

  /** One station's contribution at a cell: its value over the floored squared distance. */
  function Contribution(lat: real, lon: real, r: Reading): (w: real)
    ensures r.val >= 0.0 ==> w >= 0.0
    ensures r.val > 0.0 ==> w > 0.0
  {
    r.val / Dist2(lat, lon, r.station)
  }

  /** The weighted sum at one cell over the given readings. */
  function Weight(lat: real, lon: real, clean: seq<Reading>): (w: real)
    ensures NonNegative(clean) ==> w >= 0.0
  {
    if clean == [] then 0.0
    else
      assert NonNegative(clean) ==> NonNegative(clean[..|clean| - 1]);
      Weight(lat, lon, clean[..|clean| - 1]) + Contribution(lat, lon, clean[|clean| - 1])
  }

  /** The weighted sums over the grid, before rescaling. */
  function Weights(lats: seq<real>, lons: seq<real>, clean: seq<Reading>): (raw: seq<real>)
    requires |lons| == |lats|
    ensures |raw| == |lats|
    ensures forall c :: 0 <= c < |raw| ==> raw[c] == Weight(lats[c], lons[c], clean)
  {
    seq(|lats|, c requires 0 <= c < |lats| => Weight(lats[c], lons[c], clean))
  }

  /** One value divided by the field's maximum and multiplied by the peak. */
  function Scaled(x: real, top: real, peak: real): real
    requires top > 0.0
  {
    x / top * peak
  }

  /** Divide a field by its maximum, then multiply it by a peak value. */
  function Rescale(raw: seq<real>, peak: real): (r: seq<real>)
    requires raw != [] && SeqMax(raw) > 0.0
    ensures |r| == |raw|
    ensures forall c :: 0 <= c < |r| ==> r[c] == Scaled(raw[c], SeqMax(raw), peak)
  {
    var top := SeqMax(raw);
    seq(|raw|, c requires 0 <= c < |raw| => Scaled(raw[c], top, peak))
  }

  /** The rain field: zeros without clean readings or when every clean reading
      is 0, else the weighted sums divided by their maximum and multiplied by
      the largest clean reading. The scripts divide an all-zero field by its
      maximum, 0, without this guard (see `LiveCycleAsWritten`). */
  function RainField(lats: seq<real>, lons: seq<real>, clean: seq<Reading>): (rain: seq<real>)
    requires |lons| == |lats|
    requires clean != [] ==> |lats| > 0 && NonNegative(clean)
    ensures |rain| == |lats|
    ensures clean == [] || MaxReading(clean) == 0.0 ==> forall c :: 0 <= c < |rain| ==> rain[c] == 0.0
  {
    if clean == [] || MaxReading(clean) == 0.0 then seq(|lats|, c => 0.0)
    else
      WeightsPositive(lats, lons, clean);
      Rescale(Weights(lats, lons, clean), MaxReading(clean))
  }

  lemma {:induction false} WeightPositive(lat: real, lon: real, clean: seq<Reading>, k: nat)
    requires NonNegative(clean) && k < |clean| && clean[k].val > 0.0
    ensures Weight(lat, lon, clean) > 0.0
  {
    var init := clean[..|clean| - 1];
    assert NonNegative(init);
    if k < |clean| - 1 {
      assert init[k] == clean[k];
      WeightPositive(lat, lon, init, k);
    }
  }

  lemma WeightsPositive(lats: seq<real>, lons: seq<real>, clean: seq<Reading>)
    requires |lons| == |lats| && |lats| > 0
    requires clean != [] && NonNegative(clean) && MaxReading(clean) > 0.0
    ensures SeqMax(Weights(lats, lons, clean)) > 0.0
  {
    var k :| 0 <= k < |clean| && clean[k].val == MaxReading(clean);
    WeightPositive(lats[0], lons[0], clean, k);
  }

  /** One value of a field in [0, top], rescaled to a positive peak, stays in [0, peak]. */
  lemma ScaleWithin(x: real, top: real, peak: real)
    requires 0.0 <= x <= top && top > 0.0 && peak > 0.0
    ensures 0.0 <= Scaled(x, top, peak) <= peak
    ensures x == top ==> Scaled(x, top, peak) == peak
  {
    var q := x / top;
    DivLeMono(0.0, x, top);
    DivLeMono(x, top, top);
    assert 0.0 <= q <= 1.0;
    MulLeMono(q, 1.0, peak);
    MulNonNeg(q, peak);
  }

  /** A non-negative field rescaled to a positive peak lies in [0, peak] and reaches it. */
  lemma RescaleBounds(raw: seq<real>, peak: real)
    requires raw != [] && SeqMax(raw) > 0.0 && peak > 0.0
    requires forall c :: 0 <= c < |raw| ==> raw[c] >= 0.0
    ensures forall c :: 0 <= c < |raw| ==> 0.0 <= Rescale(raw, peak)[c] <= peak
    ensures exists c :: 0 <= c < |raw| && Rescale(raw, peak)[c] == peak
  {
    var top := SeqMax(raw);
    var r := Rescale(raw, peak);
    forall c | 0 <= c < |raw| ensures 0.0 <= r[c] <= peak {
      ScaleWithin(raw[c], top, peak);
    }
    var t :| 0 <= t < |raw| && raw[t] == top;
    ScaleWithin(raw[t], top, peak);
    assert r[t] == peak;
  }

  /** The rain field lies in [0, M] and reaches M, M the largest clean reading,
      also when M is 0. */
  lemma RainFieldBounds(lats: seq<real>, lons: seq<real>, clean: seq<Reading>)
    requires |lons| == |lats| && |lats| > 0
    requires clean != [] && NonNegative(clean)
    ensures forall c :: 0 <= c < |lats| ==> 0.0 <= RainField(lats, lons, clean)[c] <= MaxReading(clean)
    ensures SeqMax(RainField(lats, lons, clean)) == MaxReading(clean)
  {
    if MaxReading(clean) != 0.0 {
      WeightsPositive(lats, lons, clean);
      RescaleBounds(Weights(lats, lons, clean), MaxReading(clean));
    }
  }

  /** The accumulation loop: each clean station's weighted value added over the grid. */
  method AccumulateWeights(lats: seq<real>, lons: seq<real>, clean: seq<Reading>) returns (raw: seq<real>)
    requires |lons| == |lats|
    ensures raw == Weights(lats, lons, clean)
  {
    raw := seq(|lats|, c => 0.0);
    for k := 0 to |clean|
      invariant |raw| == |lats|
      invariant forall c :: 0 <= c < |raw| ==> raw[c] == Weight(lats[c], lons[c], clean[..k])
    {
      assert clean[..k + 1][..k] == clean[..k];
      raw := seq(|raw|, c requires 0 <= c < |raw| => raw[c] + Contribution(lats[c], lons[c], clean[k]));
    }
    assert clean[..|clean|] == clean;
  }

  /** The imperative field computation: zeros without clean readings or when all
      of them are 0, else the
      accumulated weights divided by their maximum and rescaled. */
  method InterpolateRain(lats: seq<real>, lons: seq<real>, clean: seq<Reading>) returns (rain: seq<real>)
    requires |lons| == |lats|
    requires clean != [] ==> |lats| > 0 && NonNegative(clean)
    ensures rain == RainField(lats, lons, clean)
  {
    if clean == [] || MaxReading(clean) == 0.0 {
      rain := seq(|lats|, c => 0.0);
      return;
    }
    var raw := AccumulateWeights(lats, lons, clean);
    WeightsPositive(lats, lons, clean);
    rain := Normalise(raw, MaxReading(clean));
  }

  /** Divide the field by its maximum in place, then multiply it by the peak. */
  method Normalise(raw: seq<real>, peak: real) returns (rain: seq<real>)
    requires raw != [] && SeqMax(raw) > 0.0
    ensures rain == Rescale(raw, peak)
  {
    var top := SeqMax(raw);
    rain := seq(|raw|, c requires 0 <= c < |raw| => raw[c] / top);
    rain := seq(|rain|, c requires 0 <= c < |rain| => rain[c] * peak);
    forall c | 0 <= c < |rain| ensures rain[c] == Rescale(raw, peak)[c] {
      assert rain[c] == Scaled(raw[c], top, peak);
    }
  }

  // ---------------------------------------------------------------------------
  // Saturation memory and the alert
  // ---------------------------------------------------------------------------

  /** One cell's saturation after a cycle: drained by 0.985, wetted by
      rain / 100 * 0.08, clipped to [0.05, 1.0]. */
  function NextSaturation(s: real, rain: real): (s': real)
    ensures MinSaturation <= s' <= MaxSaturation
  {
    Clip(s * DecayRate + rain / 100.0 * RainGain, MinSaturation, MaxSaturation)
  }

  /** A dry cycle never wets a cell. */
  lemma DryCycleNeverWets(s: real)
    requires MinSaturation <= s <= MaxSaturation
    ensures NextSaturation(s, 0.0) <= s
  {
    MulLeMono(DecayRate, 1.0, s);
  }

  /** More rain never leaves a cell drier. */
  lemma NextSaturationMonotoneInRain(s: real, rain1: real, rain2: real)
    requires rain1 <= rain2
    ensures NextSaturation(s, rain1) <= NextSaturation(s, rain2)
  {
    DivLeMono(rain1, rain2, 100.0);
    MulLeMono(rain1 / 100.0, rain2 / 100.0, RainGain);
    ClipMonotone(s * DecayRate + rain1 / 100.0 * RainGain, s * DecayRate + rain2 / 100.0 * RainGain,
                 MinSaturation, MaxSaturation);
  }

  /** `np.mean(fos < 1.0)`. */
  function UnstableFraction(fos: seq<real>): (f: real)
    requires fos != []
    ensures 0.0 <= f <= 1.0
  {
    var n := |fos| as real;
    var k := CountBelow(fos, 1.0) as real;
    DivLeMono(k, n, n);
    k / n
  }

  /** The widespread-instability alert (a NaN mean over no cells never exceeds the bound). */
  function WidespreadInstability(fos: seq<real>): bool
  {
    fos != [] && UnstableFraction(fos) > UnstableAlertFraction
  }

  lemma ScaledThreshold(k: real, n: real, t: real)
    requires n > 0.0
    ensures k / n > t <==> k > t * n
  {
    assert k / n * n == k;
    if k / n > t {
      assert (k / n - t) * n > 0.0;
    }
    if k > t * n {
      assert k / n - t == (k - t * n) / n;
    }
  }

  /** The alert fires exactly when more than one cell in twenty has FoS < 1. */
  lemma AlertIffMoreThanOneInTwenty(fos: seq<real>)
    ensures WidespreadInstability(fos) <==> 20 * CountBelow(fos, 1.0) > |fos|
  {
    if fos != [] {
      var n := |fos| as real;
      var k := CountBelow(fos, 1.0) as real;
      ScaledThreshold(k, n, UnstableAlertFraction);
    }
  }

  // ---------------------------------------------------------------------------
  // The simulation state and one cycle
  // ---------------------------------------------------------------------------

  /** What one cycle reports: its number, the readings, the clean readings,
      the rain field, its peak, the new saturation, the FoS grid and the alert. */
  datatype CycleReport = CycleReport(cycle: nat, readings: seq<Reading>, clean: seq<Reading>,
                                     rain: seq<real>, peakRain: real, saturation: seq<real>,
                                     fos: seq<real>, alert: bool)

  ghost predicate SaturationInRange(saturation: seq<real>)
  {
    forall c :: 0 <= c < |saturation| ==> MinSaturation <= saturation[c] <= MaxSaturation
  }

  /** The saturation memory after a cycle with the given rain field. */
  function UpdatedSaturation(saturation: seq<real>, rain: seq<real>): (next: seq<real>)
    requires |rain| == |saturation|
    ensures |next| == |saturation| && SaturationInRange(next)
    ensures forall c :: 0 <= c < |next| ==> next[c] == NextSaturation(saturation[c], rain[c])
  {
    seq(|saturation|, c requires 0 <= c < |saturation| => NextSaturation(saturation[c], rain[c]))
  }

  /** The saturation memory before the first cycle: 0.2 in every cell. */
  function InitialSaturation(n: nat): (s: seq<real>)
    ensures |s| == n && SaturationInRange(s)
    ensures forall c :: 0 <= c < n ==> s[c] == StartSaturation
  {
    seq(n, c => StartSaturation)
  }

  /** The report of cycle `n` from the saturation left by the previous cycle
      and this cycle's draws: the station readings of the cycle's base rain,
      the readings the fusion engine keeps, the rescaled rain field and its
      peak, the updated saturation, the FoS under the peak rain for six hours,
      and the alert. */
  ghost function CycleOf(cells: seq<Cell>, trig: Trig, sinRad: real -> real,
                         prior: seq<real>, input: CycleInput, n: nat): (r: CycleReport)
    requires cells != [] && |prior| == |cells| && CycleInputOk(BaseRain(sinRad, n), input)
    ensures r.cycle == n
    ensures |r.saturation| == |cells| && SaturationInRange(r.saturation)
    ensures |r.fos| == |cells|
  {
    var readings := StationReadings(BaseRain(sinRad, n), input);
    var clean := Kept(readings, input.keep);
    CleanReadings(BaseRain(sinRad, n), input);
    var rain := RainField(Lats(cells), Lons(cells), clean);
    var peak := SeqMax(rain);
    var saturation := UpdatedSaturation(prior, rain);
    var fos := TerrainFos(cells, saturation, peak, ForecastHours, trig);
    CycleReport(n, readings, clean, rain, peak, saturation, fos, WidespreadInstability(fos))
  }

  /** A cycle in which the fusion engine keeps no reading has a dry rain
      field, and then no cell's saturation rises. */
  lemma DryCycleDrains(cells: seq<Cell>, trig: Trig, sinRad: real -> real,
                       prior: seq<real>, input: CycleInput, n: nat)
    requires cells != [] && |prior| == |cells| && CycleInputOk(BaseRain(sinRad, n), input)
    requires SaturationInRange(prior)
    requires CycleOf(cells, trig, sinRad, prior, input, n).clean == []
    ensures forall c :: 0 <= c < |cells| ==> CycleOf(cells, trig, sinRad, prior, input, n).rain[c] == 0.0
    ensures forall c :: 0 <= c < |cells| ==> CycleOf(cells, trig, sinRad, prior, input, n).saturation[c] <= prior[c]
  {
    var r := CycleOf(cells, trig, sinRad, prior, input, n);
    forall c | 0 <= c < |cells| ensures r.saturation[c] <= prior[c] {
      DryCycleNeverWets(prior[c]);
    }
  }

  /** With clean readings, a cycle's rain field lies in [0, M] and peaks at M,
      M the largest clean reading; each cell's saturation follows its rain;
      and the cycle alerts exactly when more than one cell in twenty has FoS < 1. */
  lemma WetCycleFacts(cells: seq<Cell>, trig: Trig, sinRad: real -> real,
                      prior: seq<real>, input: CycleInput, n: nat)
    requires cells != [] && |prior| == |cells| && CycleInputOk(BaseRain(sinRad, n), input)
    requires CycleOf(cells, trig, sinRad, prior, input, n).clean != []
    ensures var r := CycleOf(cells, trig, sinRad, prior, input, n);
            && r.peakRain == MaxReading(r.clean)
            && (forall c :: 0 <= c < |cells| ==> 0.0 <= r.rain[c] <= r.peakRain)
            && (forall c :: 0 <= c < |cells| ==> r.saturation[c] == NextSaturation(prior[c], r.rain[c]))
            && (r.alert <==> 20 * CountBelow(r.fos, 1.0) > |cells|)
  {
    var r := CycleOf(cells, trig, sinRad, prior, input, n);
    CleanReadings(BaseRain(sinRad, n), input);
    RainFieldBounds(Lats(cells), Lons(cells), r.clean);
    AlertIffMoreThanOneInTwenty(r.fos);
  }

  class LiveSimulation {
    const cells: seq<Cell>
    const trig: Trig
    var cycle: nat
    var saturation: seq<real>

    ghost predicate Valid()
      reads this
    {
      |saturation| == |cells| && SaturationInRange(saturation)
    }

    /** Saturation memory starts at 0.2 in every cell, before the first cycle. */
    constructor (cells: seq<Cell>, trig: Trig)
      ensures Valid()
      ensures this.cells == cells && this.trig == trig && cycle == 0
      ensures saturation == InitialSaturation(|cells|)
    {
      this.cells := cells;
      this.trig := trig;
      cycle := 0;
      saturation := InitialSaturation(|cells|);
    }

    /** The body of the simulation loop: advance the counter, read the stations,
        filter, interpolate, update the saturation memory, recompute FoS and
        raise the alert. */
    method Step(sinRad: real -> real, input: CycleInput) returns (report: CycleReport)
      requires Valid() && cells != [] && CycleInputOk(BaseRain(sinRad, cycle + 1), input)
      modifies this
      ensures Valid()
      ensures cycle == old(cycle) + 1 && report.cycle == cycle
      ensures report == CycleOf(cells, trig, sinRad, old(saturation), input, cycle)
      ensures saturation == report.saturation
    {
      cycle := cycle + 1;
      var readings := CollectReadings(BaseRain(sinRad, cycle), input);
      assert readings == StationReadings(BaseRain(sinRad, cycle), input);
      var clean := Kept(readings, input.keep);
      CleanReadings(BaseRain(sinRad, cycle), input);
      var rain := InterpolateRain(Lats(cells), Lons(cells), clean);
      var peak := SeqMax(rain);
      saturation := UpdatedSaturation(saturation, rain);
      var fos := TerrainFos(cells, saturation, peak, ForecastHours, trig);
      var alert := WidespreadInstability(fos);
      report := CycleReport(cycle, readings, clean, rain, peak, saturation, fos, alert);
    }
  }
}
