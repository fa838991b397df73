/** Infinite-slope Factor of Safety with a Green-Ampt style infiltration step
    (`compute_fos_vectorized`). Every output cell depends on that cell's inputs
    only, so the computation is a scalar function per cell (`CellFos`) lifted
    element-wise over sequences (`FosGrid`). Units: kPa, kN/m3, m, m/s; the
    saturation is a FRACTION of the soil column and the duration is in HOURS. */
module Fos {
  import opened Numeric
  import opened Transcendental

  const GammaW: real := 9.81                  // unit weight of water, kN/m3
  const MmPerHourToMs: real := 0.0000002777   // mm/h -> m/s
  const SecondsPerHour: real := 3600.0
  const EffectivePorosity: real := 0.3
  const MinSlopeDeg: real := 0.1
  const MaxSlopeDeg: real := 89.9
  const MinDriving: real := 0.00001           // floor of the driving stress, kPa
  const MaxFos: real := 10.0

  /** Per-cell soil parameters: cohesion (kPa), friction angle (degrees),
      unit weight (kN/m3), depth of the failure plane (m), conductivity (m/s). */
  datatype Soil = Soil(c: real, phiDeg: real, gamma: real, depth: real, ksat: real)

  /** The slope angle handed to the trigonometry. */
  function ClampedSlope(slopeDeg: real): (d: real)
    ensures MinSlopeDeg <= d <= MaxSlopeDeg
    ensures MinSlopeDeg <= slopeDeg <= MaxSlopeDeg ==> d == slopeDeg
    ensures slopeDeg < MinSlopeDeg ==> d == MinSlopeDeg
    ensures slopeDeg > MaxSlopeDeg ==> d == MaxSlopeDeg
  {
    Clip(slopeDeg, MinSlopeDeg, MaxSlopeDeg)
  }

  /** Infiltration is the rain rate converted to m/s, capped by conductivity. */
  function InfiltrationRate(rainMmph: real, ksat: real): (r: real)
    ensures r <= ksat && r <= rainMmph * MmPerHourToMs
    ensures r == ksat || r == rainMmph * MmPerHourToMs
  {
    Min(rainMmph * MmPerHourToMs, ksat)
  }

  /** Rise of the water table over the storm: infiltrated depth over porosity. */
  function WaterTableRise(rainMmph: real, ksat: real, durationHours: real): (rise: real)
    ensures rainMmph == 0.0 && ksat >= 0.0 ==> rise == 0.0
    ensures rainMmph >= 0.0 && ksat >= 0.0 && durationHours >= 0.0 ==> rise >= 0.0
    ensures durationHours >= 0.0 ==>
              rise <= ksat * (durationHours * SecondsPerHour) / EffectivePorosity
  {
    var rate := InfiltrationRate(rainMmph, ksat);
    var seconds := durationHours * SecondsPerHour;
    assert seconds >= 0.0 ==> rate * seconds <= ksat * seconds by {
      if seconds >= 0.0 { MulLeMono(rate, ksat, seconds); }
    }
    assert rainMmph >= 0.0 && ksat >= 0.0 && durationHours >= 0.0 ==> rate * seconds >= 0.0 by {
      if rainMmph >= 0.0 && ksat >= 0.0 && durationHours >= 0.0 {
        MulNonNeg(rate, seconds);
      }
    }
    rate * seconds / EffectivePorosity
  }

  /** Total water height: antecedent water plus the rise, within the soil column. */
  function WaterHeight(saturation: real, depth: real, rise: real): (hw: real)
    ensures hw <= depth
    ensures depth >= 0.0 ==> 0.0 <= hw <= depth
  {
    Clip(saturation * depth + rise, 0.0, depth)
  }

  /** Effective normal stress: total normal stress less pore pressure, floored at 0. */
  function EffectiveStress(sigmaN: real, u: real): (s: real)
    ensures s >= 0.0 && s >= sigmaN - u
    ensures s == 0.0 || s == sigmaN - u
  {
    Max(sigmaN - u, 0.0)
  }

  /** Driving shear stress, floored so that the FoS division is always defined. */
  function DrivingStress(gamma: real, depth: real, sinA: real, cosA: real): (t: real)
    ensures t >= MinDriving && t >= gamma * depth * sinA * cosA
    ensures t == MinDriving || t == gamma * depth * sinA * cosA
  {
    Max(gamma * depth * sinA * cosA, MinDriving)
  }

  /** Total normal stress on the failure plane. */
  function NormalStress(gamma: real, depth: real, cosA: real): real
  {
    gamma * depth * (cosA * cosA)
  }

  /** Pore-water pressure of a water column of height hw on the failure plane. */
  function PorePressure(hw: real, cosA: real): (u: real)
    ensures hw >= 0.0 ==> u >= 0.0
  {
    assert hw >= 0.0 ==> GammaW * hw * (cosA * cosA) >= 0.0 by {
      if hw >= 0.0 { MulNonNeg(GammaW * hw, cosA * cosA); }
    }
    GammaW * hw * (cosA * cosA)
  }

  /** Mohr-Coulomb shear strength. */
  function Resisting(c: real, sigmaPrime: real, tanPhi: real): real
  {
    c + sigmaPrime * tanPhi
  }

  /** Resisting over driving, clamped to [0, 10]. */
  function SafetyRatio(resisting: real, driving: real): (f: real)
    requires driving > 0.0
    ensures 0.0 <= f <= MaxFos
  {
    Clip(resisting / driving, 0.0, MaxFos)
  }

  /** The stability computation once the water height is known. */
  function FosFromWater(soil: Soil, slopeDeg: real, hw: real, trig: Trig): (f: real)
    ensures 0.0 <= f <= MaxFos
  {
    var a := ClampedSlope(slopeDeg);
    var cosA := trig.cosDeg(a);
    var sigmaPrime := EffectiveStress(NormalStress(soil.gamma, soil.depth, cosA), PorePressure(hw, cosA));
    var driving := DrivingStress(soil.gamma, soil.depth, trig.sinDeg(a), cosA);
    SafetyRatio(Resisting(soil.c, sigmaPrime, trig.tanDeg(soil.phiDeg)), driving)
  }

  /** Factor of Safety of one cell (`compute_fos_vectorized` on one element). */
  function CellFos(soil: Soil, slopeDeg: real, saturation: real, rainMmph: real,
                   durationHours: real, trig: Trig): (f: real)
    ensures 0.0 <= f <= MaxFos
  {
    var rise := WaterTableRise(rainMmph, soil.ksat, durationHours);
    FosFromWater(soil, slopeDeg, WaterHeight(saturation, soil.depth, rise), trig)
  }

  /** The vectorised form: cell i of the result is `CellFos` of the inputs at i. */
  function FosGrid(slopes: seq<real>, soils: seq<Soil>, saturation: seq<real>,
                   rainMmph: real, durationHours: real, trig: Trig): (fos: seq<real>)
    requires |soils| == |slopes| && |saturation| == |slopes|
    ensures |fos| == |slopes|
    ensures forall i :: 0 <= i < |fos| ==>
              fos[i] == CellFos(soils[i], slopes[i], saturation[i], rainMmph, durationHours, trig)
    ensures forall i :: 0 <= i < |fos| ==> 0.0 <= fos[i] <= MaxFos
  {
    if slopes == [] then []
    else
      [CellFos(soils[0], slopes[0], saturation[0], rainMmph, durationHours, trig)]
      + FosGrid(slopes[1..], soils[1..], saturation[1..], rainMmph, durationHours, trig)
  }

  // ---------------------------------------------------------------------------
  // Properties of the model
  // ---------------------------------------------------------------------------

  /** Zero rainfall: no rise, the water height comes from saturation alone. */
  lemma ZeroRainNoRise(soil: Soil, slopeDeg: real, saturation: real, durationHours: real, trig: Trig)
    requires soil.ksat >= 0.0
    ensures CellFos(soil, slopeDeg, saturation, 0.0, durationHours, trig)
         == FosFromWater(soil, slopeDeg, Clip(saturation * soil.depth, 0.0, soil.depth), trig)
  {
    assert WaterTableRise(0.0, soil.ksat, durationHours) == 0.0;
    assert saturation * soil.depth + 0.0 == saturation * soil.depth;
  }

  lemma PorePressureMonotone(h1: real, h2: real, cosA: real)
    requires h1 <= h2
    ensures PorePressure(h1, cosA) <= PorePressure(h2, cosA)
  {
    var c2 := cosA * cosA;
    MulNonNeg(GammaW * (h2 - h1), c2);
    assert GammaW * h2 * c2 - GammaW * h1 * c2 == GammaW * (h2 - h1) * c2;
  }

  lemma ResistingMonotone(c: real, s1: real, s2: real, tanPhi: real)
    requires s1 <= s2 && tanPhi >= 0.0
    ensures Resisting(c, s1, tanPhi) <= Resisting(c, s2, tanPhi)
  {
    MulLeMono(s1, s2, tanPhi);
  }

  lemma SafetyRatioMonotone(r1: real, r2: real, driving: real)
    requires r1 <= r2 && driving > 0.0
    ensures SafetyRatio(r1, driving) <= SafetyRatio(r2, driving)
  {
    DivLeMono(r1, r2, driving);
    ClipMonotone(r1 / driving, r2 / driving, 0.0, MaxFos);
  }

  /** More antecedent saturation never lowers the water height. */
  lemma WaterHeightMonotoneInSaturation(sat1: real, sat2: real, depth: real, rise: real)
    requires sat1 <= sat2 && depth >= 0.0
    ensures WaterHeight(sat1, depth, rise) <= WaterHeight(sat2, depth, rise)
  {
    MulLeMono(sat1, sat2, depth);
    ClipMonotone(sat1 * depth + rise, sat2 * depth + rise, 0.0, depth);
  }

  /** A larger rise never lowers the water height. */
  lemma WaterHeightMonotoneInRise(saturation: real, depth: real, rise1: real, rise2: real)
    requires rise1 <= rise2
    ensures WaterHeight(saturation, depth, rise1) <= WaterHeight(saturation, depth, rise2)
  {
    ClipMonotone(saturation * depth + rise1, saturation * depth + rise2, 0.0, depth);
  }

  /** Heavier rain never lowers the rise of the water table. */
  lemma RiseMonotoneInRain(rain1: real, rain2: real, ksat: real, durationHours: real)
    requires rain1 <= rain2 && durationHours >= 0.0
    ensures WaterTableRise(rain1, ksat, durationHours) <= WaterTableRise(rain2, ksat, durationHours)
  {
    MulLeMono(rain1, rain2, MmPerHourToMs);
    var r1 := InfiltrationRate(rain1, ksat);
    var r2 := InfiltrationRate(rain2, ksat);
    InfiltratedMonotone(r1, r2, durationHours * SecondsPerHour);
  }

  lemma InfiltratedMonotone(r1: real, r2: real, seconds: real)
    requires r1 <= r2 && seconds >= 0.0
    ensures r1 * seconds / EffectivePorosity <= r2 * seconds / EffectivePorosity
  {
    MulLeMono(r1, r2, seconds);
    DivLeMono(r1 * seconds, r2 * seconds, EffectivePorosity);
  }

  /** More water never raises the Factor of Safety (when tan(phi) >= 0):
      pore pressure grows with hw, effective stress shrinks with it. */
  lemma FosAntitoneInWater(soil: Soil, slopeDeg: real, h1: real, h2: real, trig: Trig)
    requires ValidTrig(trig) && 0.0 <= soil.phiDeg < 90.0
    requires h1 <= h2
    ensures FosFromWater(soil, slopeDeg, h2, trig) <= FosFromWater(soil, slopeDeg, h1, trig)
  {
    var a := ClampedSlope(slopeDeg);
    var cosA := trig.cosDeg(a);
    var tanPhi := trig.tanDeg(soil.phiDeg);
    assert tanPhi >= 0.0;
    var sigmaN := NormalStress(soil.gamma, soil.depth, cosA);
    PorePressureMonotone(h1, h2, cosA);
    var s1 := EffectiveStress(sigmaN, PorePressure(h1, cosA));
    var s2 := EffectiveStress(sigmaN, PorePressure(h2, cosA));
    ResistingMonotone(soil.c, s2, s1, tanPhi);
    var driving := DrivingStress(soil.gamma, soil.depth, trig.sinDeg(a), cosA);
    SafetyRatioMonotone(Resisting(soil.c, s2, tanPhi), Resisting(soil.c, s1, tanPhi), driving);
  }

  /** Raising the antecedent saturation never raises the Factor of Safety. */
  lemma FosAntitoneInSaturation(soil: Soil, slopeDeg: real, sat1: real, sat2: real,
                                rainMmph: real, durationHours: real, trig: Trig)
    requires ValidTrig(trig) && 0.0 <= soil.phiDeg < 90.0 && soil.depth >= 0.0
    requires sat1 <= sat2
    ensures CellFos(soil, slopeDeg, sat2, rainMmph, durationHours, trig)
         <= CellFos(soil, slopeDeg, sat1, rainMmph, durationHours, trig)
  {
    var rise := WaterTableRise(rainMmph, soil.ksat, durationHours);
    WaterHeightMonotoneInSaturation(sat1, sat2, soil.depth, rise);
    FosAntitoneInWater(soil, slopeDeg, WaterHeight(sat1, soil.depth, rise),
                       WaterHeight(sat2, soil.depth, rise), trig);
  }

  /** Heavier rain never raises the Factor of Safety. */
  lemma FosAntitoneInRain(soil: Soil, slopeDeg: real, saturation: real,
                          rain1: real, rain2: real, durationHours: real, trig: Trig)
    requires ValidTrig(trig) && 0.0 <= soil.phiDeg < 90.0
    requires rain1 <= rain2 && durationHours >= 0.0
    ensures CellFos(soil, slopeDeg, saturation, rain2, durationHours, trig)
         <= CellFos(soil, slopeDeg, saturation, rain1, durationHours, trig)
  {
    RiseMonotoneInRain(rain1, rain2, soil.ksat, durationHours);
    var rise1 := WaterTableRise(rain1, soil.ksat, durationHours);
    var rise2 := WaterTableRise(rain2, soil.ksat, durationHours);
    WaterHeightMonotoneInRise(saturation, soil.depth, rise1, rise2);
    FosAntitoneInWater(soil, slopeDeg, WaterHeight(saturation, soil.depth, rise1),
                       WaterHeight(saturation, soil.depth, rise2), trig);
  }

  /** Element-wise: changing the inputs of other cells never changes cell i. */
  lemma FosGridIsLocal(slopes: seq<real>, soils: seq<Soil>, sats: seq<real>,
                       slopes': seq<real>, soils': seq<Soil>, sats': seq<real>,
                       rainMmph: real, durationHours: real, trig: Trig, i: nat)
    requires |soils| == |slopes| && |sats| == |slopes|
    requires |soils'| == |slopes'| && |sats'| == |slopes'|
    requires i < |slopes| && i < |slopes'|
    requires slopes[i] == slopes'[i] && soils[i] == soils'[i] && sats[i] == sats'[i]
    ensures FosGrid(slopes, soils, sats, rainMmph, durationHours, trig)[i]
         == FosGrid(slopes', soils', sats', rainMmph, durationHours, trig)[i]
  {
  }
}
