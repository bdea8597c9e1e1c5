// The tire degradation model: the five Pirelli compounds, the track
// abrasiveness table, the grip multiplier built from temperature, wear
// (with its cliff), thermal damage and flat spots, and the per-lap update
// of a tire's state. The state lives in a class whose methods update its
// fields in place, as the source's TireDegradationModel does; every
// formula it applies is a pure function on a TireState value so that the
// race strategy can reason about it.

module TireDegradation {
  import opened Common
  import BaseVehicle

  datatype Compound = Compound(
    name: string,
    code: string,
    optimalTempMin: real,
    optimalTempMax: real,
    peakGrip: real,
    wearRate: real,
    thermalDegradation: real,
    cliffThreshold: real,
    heatingRate: real)

  /** The codes the compound table knows. */
  predicate IsCompoundCode(code: string)
  {
    code == "C1" || code == "C2" || code == "C3" || code == "C4" || code == "C5"
  }

  /**
   * What the formulas below rely on: a non-empty temperature window above
   * zero, a cliff strictly inside (0, 1) and positive rates.
   */
  predicate WellFormed(c: Compound)
  {
    0.0 < c.optimalTempMin <= c.optimalTempMax && 0.0 < c.cliffThreshold < 1.0 &&
    c.peakGrip > 0.0 && c.wearRate > 0.0 && c.thermalDegradation >= 0.0 && c.heatingRate > 0.0
  }

  /** TIRE_COMPOUNDS[code], or nothing for a code outside the table. */
  function LookupCompound(code: string): (r: Option<Compound>)
    ensures r.Some? <==> IsCompoundCode(code)
    ensures r.Some? ==> r.value.code == code && WellFormed(r.value)
  {
    if code == "C1" then Some(Compound("Hard", "C1", 100.0, 110.0, 0.95, 0.5, 0.3, 0.85, 0.7))
    else if code == "C2" then Some(Compound("Medium-Hard", "C2", 95.0, 105.0, 0.98, 0.7, 0.4, 0.82, 0.8))
    else if code == "C3" then Some(Compound("Medium", "C3", 90.0, 100.0, 1.0, 1.0, 0.5, 0.80, 1.0))
    else if code == "C4" then Some(Compound("Soft", "C4", 85.0, 95.0, 1.03, 1.4, 0.6, 0.75, 1.2))
    else if code == "C5" then Some(Compound("Hyper-Soft", "C5", 80.0, 90.0, 1.05, 1.8, 0.7, 0.70, 1.4))
    else None
  }

  /** The ValueError message for a code outside the table. */
  function UnknownCompound(code: string): string
  {
    "Unknown compound: " + code + ". Must be C1-C5."
  }

  /**
   * From C1 (hard) to C5 (hyper-soft) each step is softer: more grip, a
   * faster wear rate, an earlier cliff, a cooler window and faster heating.
   */
  lemma SofterCompoundsTradeLifeForGrip(i: nat)
    requires 1 <= i < 5
    ensures var hard := LookupCompound(CompoundCode(i)).value;
      var soft := LookupCompound(CompoundCode(i + 1)).value;
      hard.peakGrip < soft.peakGrip && hard.wearRate < soft.wearRate &&
      soft.cliffThreshold < hard.cliffThreshold && soft.optimalTempMax < hard.optimalTempMax &&
      hard.heatingRate < soft.heatingRate
  {
  }

  /** "C" followed by the digit i, for 1 <= i <= 5. */
  function CompoundCode(i: nat): (code: string)
    requires 1 <= i <= 5
    ensures IsCompoundCode(code)
  {
    ['C', '0' + i as char]
  }

  /** The track names TRACK_ABRASIVENESS lists. */
  predicate IsKnownTrack(trackName: string)
  {
    trackName == "Monaco" || trackName == "Singapore" || trackName == "Silverstone" ||
    trackName == "Barcelona" || trackName == "Spa" || trackName == "Paul Ricard" || trackName == "Bahrain"
  }

  /** TRACK_ABRASIVENESS.get(track_name, 1.0). */
  function Abrasiveness(trackName: string): (a: real)
    ensures !IsKnownTrack(trackName) ==> a == 1.0
    ensures 0.6 <= a <= 1.5
  {
    if trackName == "Monaco" then 0.6
    else if trackName == "Singapore" then 0.7
    else if trackName == "Silverstone" then 1.0
    else if trackName == "Barcelona" then 1.1
    else if trackName == "Spa" then 1.2
    else if trackName == "Paul Ricard" then 1.3
    else if trackName == "Bahrain" then 1.5
    else 1.0
  }

  // ---------------------------------------------------------------------
  // The tire's state and its grip.

  datatype TireState = TireState(
    compound: Compound,
    abrasiveness: real,
    wear: real,
    surfaceTemp: real,
    coreTemp: real,
    thermalDamage: real,
    flatspotDamage: real,
    laps: nat)

  /** A new set: no wear or damage, surface at 60 and core at 50 degrees. */
  function Fresh(c: Compound, abrasiveness: real): (t: TireState)
    ensures t.laps == 0 && t.wear == 0.0 && t.thermalDamage == 0.0 && t.flatspotDamage == 0.0
  {
    TireState(c, abrasiveness, 0.0, 60.0, 50.0, 0.0, 0.0, 0)
  }

  /** The ranges the model keeps: wear and both damages are fractions in [0, 1]. */
  predicate ValidState(t: TireState)
  {
    WellFormed(t.compound) && t.abrasiveness > 0.0 &&
    0.0 <= t.wear <= 1.0 && 0.0 <= t.thermalDamage <= 1.0 && 0.0 <= t.flatspotDamage <= 1.0
  }

  lemma FreshIsValid(c: Compound, abrasiveness: real)
    requires WellFormed(c) && abrasiveness > 0.0
    ensures ValidState(Fresh(c, abrasiveness))
  {
  }

  /**
   * Grip from the surface temperature: exactly 1 inside the compound's
   * window, losing 1% per degree below it down to 0.7 and 0.8% per degree
   * above it down to 0.75.
   */
  function TemperatureEffect(c: Compound, temp: real): real
  {
    if c.optimalTempMin <= temp <= c.optimalTempMax then 1.0
    else if temp < c.optimalTempMin then Max(0.7, 1.0 - (c.optimalTempMin - temp) * 0.01)
    else Max(0.75, 1.0 - (temp - c.optimalTempMax) * 0.008)
  }

  /**
   * The temperature factor lies in [0.7, 1], is 1 exactly inside the
   * window, and an overheated tire keeps at least 0.75.
   */
  lemma TemperatureEffectBounds(c: Compound, temp: real)
    ensures 0.7 <= TemperatureEffect(c, temp) <= 1.0
    ensures TemperatureEffect(c, temp) == 1.0 <==> c.optimalTempMin <= temp <= c.optimalTempMax
    ensures c.optimalTempMin <= c.optimalTempMax < temp ==> TemperatureEffect(c, temp) >= 0.75
  {
  }

  /** Warming a cold tire towards its window and cooling a hot one never costs grip. */
  lemma TemperatureEffectTowardsWindow(c: Compound, t1: real, t2: real)
    requires c.optimalTempMin <= c.optimalTempMax
    ensures t1 <= t2 <= c.optimalTempMax ==> TemperatureEffect(c, t1) <= TemperatureEffect(c, t2)
    ensures c.optimalTempMin <= t1 <= t2 ==> TemperatureEffect(c, t2) <= TemperatureEffect(c, t1)
  {
  }

  /**
   * Grip from wear: linear (1 - 0.15 wear) below the cliff threshold;
   * past it up to a further 0.5 is lost in proportion to the way from the
   * threshold to full wear, floored at 0.3.
   */
  function WearEffect(c: Compound, wear: real): real
    requires c.cliffThreshold < 1.0
  {
    var baseAtCliff := 1.0 - c.cliffThreshold * 0.15;
    if wear < c.cliffThreshold then 1.0 - wear * 0.15
    else Max(0.3, baseAtCliff - CliffProgress(c, wear) * 0.5)
  }

  /**
   * Below the cliff the factor is 1 - 0.15 wear; from the threshold on it
   * lies between 0.3 and its value at the threshold, and for wear up to 1
   * it loses at most 0.5 more.
   */
  lemma WearEffectShape(c: Compound, wear: real)
    requires c.cliffThreshold < 1.0
    ensures wear < c.cliffThreshold ==> WearEffect(c, wear) == 1.0 - wear * 0.15
    ensures wear >= c.cliffThreshold ==> 0.3 <= WearEffect(c, wear) <= 1.0 - c.cliffThreshold * 0.15
    ensures c.cliffThreshold <= wear <= 1.0 ==> WearEffect(c, wear) >= 1.0 - c.cliffThreshold * 0.15 - 0.5
  {
    CliffProgressBounds(c, wear);
  }

  /** How far past the cliff the wear is, as a fraction of what is left of the tire beyond the threshold. */
  function CliffProgress(c: Compound, wear: real): real
    requires c.cliffThreshold < 1.0
  {
    (wear - c.cliffThreshold) / (1.0 - c.cliffThreshold)
  }

  lemma CliffProgressBounds(c: Compound, wear: real)
    requires c.cliffThreshold < 1.0
    ensures wear >= c.cliffThreshold ==> CliffProgress(c, wear) >= 0.0
    ensures wear <= 1.0 ==> CliffProgress(c, wear) <= 1.0
  {
    var room := 1.0 - c.cliffThreshold;
    if wear >= c.cliffThreshold {
      DivAtLeast(wear - c.cliffThreshold, room, 0.0);
    }
    if wear <= 1.0 {
      DivAtMost(wear - c.cliffThreshold, room, 1.0);
    }
  }

  /** The wear effect never rises as the tire wears. */
  lemma WearEffectNonIncreasing(c: Compound, w1: real, w2: real)
    requires c.cliffThreshold < 1.0 && w1 <= w2
    ensures WearEffect(c, w2) <= WearEffect(c, w1)
  {
    WearEffectShape(c, w1);
    WearEffectShape(c, w2);
    if c.cliffThreshold <= w1 {
      DivMonotone(w1 - c.cliffThreshold, w2 - c.cliffThreshold, 1.0 - c.cliffThreshold);
    }
  }

  /** At the threshold the cliff branch starts where the linear branch ends: no jump. */
  lemma WearEffectContinuousAtCliff(c: Compound)
    requires c.cliffThreshold < 1.0
    ensures WearEffect(c, c.cliffThreshold) == 1.0 - c.cliffThreshold * 0.15
  {
    DivAtLeast(0.0, 1.0 - c.cliffThreshold, 0.0);
    DivAtMost(0.0, 1.0 - c.cliffThreshold, 0.0);
    assert CliffProgress(c, c.cliffThreshold) == 0.0;
  }

  /** The compound's peak grip scaled by the four grip factors. */
  function Scaled(p: real, temp: real, wear: real, thermal: real, flatspot: real): real
  {
    p * temp * wear * thermal * flatspot
  }

  /** A positive base scaled by four factors in (0, 1] stays in (0, base]. */
  lemma ScaledByFactors(p: real, a: real, b: real, c: real, d: real)
    requires p > 0.0 && 0.0 < a <= 1.0 && 0.0 < b <= 1.0 && 0.0 < c <= 1.0 && 0.0 < d <= 1.0
    ensures 0.0 < Scaled(p, a, b, c, d) <= p
  {
    var q1 := p * a;
    MulPos(p, a);
    MulLeRight(a, 1.0, p);
    var q2 := q1 * b;
    MulPos(q1, b);
    MulLeRight(b, 1.0, q1);
    var q3 := q2 * c;
    MulPos(q2, c);
    MulLeRight(c, 1.0, q2);
    var q4 := q3 * d;
    MulPos(q3, d);
    MulLeRight(d, 1.0, q3);
    assert 0.0 < q4 <= q3 <= q2 <= q1 <= p;
  }

  /** Scaling by a smaller wear factor, the other factors non-negative, gives no more. */
  lemma ScaledMonotoneInWear(p: real, a: real, x: real, y: real, c: real, d: real)
    requires p >= 0.0 && a >= 0.0 && x <= y && c >= 0.0 && d >= 0.0
    ensures Scaled(p, a, x, c, d) <= Scaled(p, a, y, c, d)
  {
    var pa := p * a;
    MulNonneg(p, a);
    MulLeRight(x, y, pa);
    MulNonneg(pa, y - x);
    MulLeRight(pa * x, pa * y, c);
    MulNonneg(pa * y - pa * x, c);
    MulLeRight(pa * x * c, pa * y * c, d);
  }

  /** get_grip_multiplier: peak grip times the temperature, wear, thermal and flat-spot factors. */
  function Grip(t: TireState): real
    requires t.compound.cliffThreshold < 1.0
  {
    Scaled(t.compound.peakGrip, TemperatureEffect(t.compound, t.surfaceTemp), WearEffect(t.compound, t.wear),
      1.0 - t.thermalDamage * 0.5, 1.0 - t.flatspotDamage * 0.3)
  }

  /** Every factor lies in (0, 1], so a tire in its ranges grips positively and never above the compound's peak. */
  lemma GripBounds(t: TireState)
    requires ValidState(t)
    ensures 0.0 < Grip(t) <= t.compound.peakGrip
  {
    TemperatureEffectBounds(t.compound, t.surfaceTemp);
    WearEffectShape(t.compound, t.wear);
    ScaledByFactors(t.compound.peakGrip, TemperatureEffect(t.compound, t.surfaceTemp), WearEffect(t.compound, t.wear),
      1.0 - t.thermalDamage * 0.5, 1.0 - t.flatspotDamage * 0.3);
  }

  /** An undamaged, unworn tire inside its temperature window gives exactly the compound's peak grip. */
  lemma GripAtPeak(t: TireState)
    requires WellFormed(t.compound) && t.wear == 0.0 && t.thermalDamage == 0.0 && t.flatspotDamage == 0.0
    requires t.compound.optimalTempMin <= t.surfaceTemp <= t.compound.optimalTempMax
    ensures Grip(t) == t.compound.peakGrip
  {
  }

  /** With everything else fixed, more wear never gives more grip. */
  lemma GripNonIncreasingInWear(t: TireState, w: real)
    requires ValidState(t) && t.wear <= w <= 1.0
    ensures Grip(t.(wear := w)) <= Grip(t)
  {
    var c := t.compound;
    WearEffectNonIncreasing(c, t.wear, w);
    TemperatureEffectBounds(c, t.surfaceTemp);
    ScaledMonotoneInWear(c.peakGrip, TemperatureEffect(c, t.surfaceTemp), WearEffect(c, w), WearEffect(c, t.wear),
      1.0 - t.thermalDamage * 0.5, 1.0 - t.flatspotDamage * 0.3);
  }

  /**
   * get_lap_time_delta: a 10% grip loss costs 1% of the base lap time, so
   * the delta is base (1 - grip) / 10 and vanishes at grip 1.
   */
  function LapTimeDelta(grip: real, baseLapTime: real): (d: real)
    ensures d == baseLapTime * (1.0 - grip) * 0.1
    ensures grip == 1.0 ==> d == 0.0
    ensures grip <= 1.0 && baseLapTime >= 0.0 ==> d >= 0.0
  {
    if grip <= 1.0 && baseLapTime >= 0.0 then
      MulNonneg(baseLapTime, 1.0 - grip); baseLapTime * ((1.0 - grip) * 10.0 / 100.0)
    else baseLapTime * ((1.0 - grip) * 10.0 / 100.0)
  }

  /** Less grip never makes the lap faster, and grip below 1 never makes it faster than the base. */
  lemma LapTimeDeltaMonotone(g1: real, g2: real, baseLapTime: real)
    requires g1 <= g2 && baseLapTime >= 0.0
    ensures LapTimeDelta(g2, baseLapTime) <= LapTimeDelta(g1, baseLapTime)
    ensures g2 <= 1.0 ==> LapTimeDelta(g2, baseLapTime) >= 0.0
  {
    MulLeRight(1.0 - g2, 1.0 - g1, baseLapTime);
    if g2 <= 1.0 {
      MulNonneg(baseLapTime, 1.0 - g2);
    }
  }

  /** The base wear a lap adds before the cornering factor: 0.015 times wear rate times abrasiveness. */
  function BaseWearPerLap(t: TireState): (w: real)
    ensures t.compound.wearRate > 0.0 && t.abrasiveness > 0.0 ==> w > 0.0
  {
    if t.compound.wearRate > 0.0 && t.abrasiveness > 0.0 then
      MulPos(0.015 * t.compound.wearRate, t.abrasiveness);
      0.015 * t.compound.wearRate * t.abrasiveness
    else 0.015 * t.compound.wearRate * t.abrasiveness
  }

  /** The estimate never divides by zero: a lap average or the nominal wear rate is non-zero. */
  predicate RemainingLifeDefined(t: TireState)
  {
    t.wear >= t.compound.cliffThreshold ||
    (t.laps > 0 && t.wear / t.laps as real > 0.0) ||
    BaseWearPerLap(t) != 0.0
  }

  /**
   * get_remaining_life: laps until the cliff at the average wear so far,
   * or at the nominal rate before the first lap (or when no wear has
   * accrued), truncated toward zero; 0 once the cliff is reached.
   */
  function RemainingLife(t: TireState): (n: int)
    requires RemainingLifeDefined(t)
    ensures t.wear >= t.compound.cliffThreshold ==> n == 0
    ensures ValidState(t) ==> n >= 0
  {
    if t.wear >= t.compound.cliffThreshold then 0
    else
      var remaining := t.compound.cliffThreshold - t.wear;
      if t.laps > 0 && t.wear / t.laps as real > 0.0 then
        var avg := t.wear / t.laps as real;
        DivAtLeast(remaining, avg, 0.0);
        Trunc(remaining / avg)
      else if ValidState(t) then
        DivAtLeast(remaining, BaseWearPerLap(t), 0.0);
        Trunc(remaining / BaseWearPerLap(t))
      else Trunc(remaining / BaseWearPerLap(t))
  }

  /**
   * The estimate is the whole number of laps at the average rate that fit
   * before the cliff: n such laps stay at or below the threshold and one
   * more would pass it.
   */
  lemma RemainingLifeFitsBeforeCliff(t: TireState)
    requires t.laps > 0 && t.wear < t.compound.cliffThreshold && t.wear / t.laps as real > 0.0
    ensures var avg := t.wear / t.laps as real;
      var n := RemainingLife(t);
      t.wear + n as real * avg <= t.compound.cliffThreshold < t.wear + (n + 1) as real * avg
  {
    var avg := t.wear / t.laps as real;
    assert RemainingLife(t) == Trunc((t.compound.cliffThreshold - t.wear) / avg);
    LapsBeforeThreshold(t.wear, t.compound.cliffThreshold, avg);
  }

  /** Trunc((cliff - w) / avg) laps of avg from w stay at or below cliff, one more passes it. */
  lemma LapsBeforeThreshold(w: real, cliff: real, avg: real)
    requires w < cliff && avg > 0.0
    ensures var n := Trunc((cliff - w) / avg);
      w + n as real * avg <= cliff < w + (n + 1) as real * avg
  {
    var q := (cliff - w) / avg;
    DivAtLeast(cliff - w, avg, 0.0);
    var n := Trunc(q);
    StepsAroundQuotient(w, cliff, avg, q, n as real, (n + 1) as real);
  }

  /** With q = (cliff - w) / avg between k and k', k laps of avg from w stay at or below cliff and k' pass it. */
  lemma StepsAroundQuotient(w: real, cliff: real, avg: real, q: real, k: real, k': real)
    requires avg > 0.0 && q == (cliff - w) / avg && k <= q < k'
    ensures w + k * avg <= cliff < w + k' * avg
  {
    assert q * avg == cliff - w;
    MulLeRight(k, q, avg);
    MulLtRight(q, k', avg);
  }

  // ---------------------------------------------------------------------
  // One lap of running.

  /** The temperature usage drives the tire towards: 60 degrees plus 40 per unit of heat generated. */
  function HeatTarget(c: Compound, speedMs: real, corneringSeverity: real): (target: real)
    ensures speedMs >= 0.0 && corneringSeverity >= 0.0 && c.heatingRate >= 0.0 ==> target >= 60.0
  {
    var heat := HeatGeneration(c, speedMs, corneringSeverity);
    60.0 + heat * 40.0
  }

  function HeatGeneration(c: Compound, speedMs: real, corneringSeverity: real): (h: real)
    ensures speedMs >= 0.0 && corneringSeverity >= 0.0 && c.heatingRate >= 0.0 ==> h >= 0.0
  {
    if speedMs >= 0.0 && corneringSeverity >= 0.0 && c.heatingRate >= 0.0 then
      MulNonneg(speedMs / 80.0, corneringSeverity);
      MulNonneg(speedMs / 80.0 * corneringSeverity, c.heatingRate);
      speedMs / 80.0 * corneringSeverity * c.heatingRate
    else speedMs / 80.0 * corneringSeverity * c.heatingRate
  }

  /**
   * _update_temperature: surface and core move 30% and 15% of the way to
   * the target, then lose 5% and 2% of their excess over 25 degrees ambient.
   */
  function TemperatureStep(c: Compound, surface: real, core: real, speedMs: real, corneringSeverity: real): (r: (real, real))
  {
    var target := HeatTarget(c, speedMs, corneringSeverity);
    var surface1 := surface + (target - surface) * 0.3;
    var core1 := core + (target - core) * 0.15;
    (surface1 - (surface1 - 25.0) * 0.05, core1 - (core1 - 25.0) * 0.02)
  }

  /**
   * Each new temperature is a weighted mean of the old one, the target
   * and the ambient 25 degrees, so it never leaves the range they span.
   */
  lemma TemperatureStepBetween(c: Compound, surface: real, core: real, speedMs: real, corneringSeverity: real)
    ensures var target := HeatTarget(c, speedMs, corneringSeverity);
      var r := TemperatureStep(c, surface, core, speedMs, corneringSeverity);
      Min(Min(surface, target), 25.0) <= r.0 <= Max(Max(surface, target), 25.0) &&
      Min(Min(core, target), 25.0) <= r.1 <= Max(Max(core, target), 25.0)
  {
  }

  /** The wear one lap adds: the base wear times the cornering severity. */
  function WearIncrement(t: TireState, corneringSeverity: real): (w: real)
    ensures t.compound.wearRate > 0.0 && t.abrasiveness > 0.0 && corneringSeverity >= 0.0 ==> w >= 0.0
  {
    var base := BaseWearPerLap(t);
    if corneringSeverity >= 0.0 && base > 0.0 then MulNonneg(base, corneringSeverity); base * corneringSeverity
    else base * corneringSeverity
  }

  /** Whether the surface is more than 10 degrees above the window, the condition for thermal damage. */
  predicate Overheated(c: Compound, surfaceTemp: real)
  {
    surfaceTemp > c.optimalTempMax + 10.0
  }

  /** The thermal damage one lap adds: 2% of the compound's sensitivity per 50 degrees of overheat. */
  function ThermalIncrement(c: Compound, surfaceTemp: real): (d: real)
    requires Overheated(c, surfaceTemp)
    ensures c.thermalDegradation >= 0.0 ==> d >= 0.0
    ensures c.thermalDegradation > 0.0 ==> d > 0.0
  {
    var overheat := (surfaceTemp - c.optimalTempMax - 10.0) / 50.0;
    if c.thermalDegradation > 0.0 then
      MulPos(overheat, c.thermalDegradation); overheat * c.thermalDegradation * 0.02
    else if c.thermalDegradation == 0.0 then
      overheat * c.thermalDegradation * 0.02
    else overheat * c.thermalDegradation * 0.02
  }

  /** Wear after a lap, capped at a fully worn 1. */
  function WearAfterLap(t: TireState, corneringSeverity: real): real
  {
    Min(1.0, t.wear + WearIncrement(t, corneringSeverity))
  }

  /** Thermal damage after a lap that ends at the given surface temperature, capped at 1. */
  function ThermalAfterLap(c: Compound, thermalDamage: real, surfaceTemp: real): real
  {
    if Overheated(c, surfaceTemp) then Min(1.0, thermalDamage + ThermalIncrement(c, surfaceTemp))
    else thermalDamage
  }

  /** Flat-spot damage after a lap with the given number of lock-ups, capped at 1. */
  function FlatspotAfterLap(flatspotDamage: real, lockupEvents: int): real
  {
    if lockupEvents > 0 then Min(1.0, flatspotDamage + lockupEvents as real * 0.15)
    else flatspotDamage
  }

  /** simulate_lap on the tire's state: wear, temperatures, thermal and flat-spot damage, lap count. */
  function AfterLap(t: TireState, avgSpeedKmh: real, corneringSeverity: real, lockupEvents: int): (n: TireState)
    ensures n.compound == t.compound && n.abrasiveness == t.abrasiveness && n.laps == t.laps + 1
    ensures n.wear <= 1.0
    ensures n.thermalDamage <= 1.0 || n.thermalDamage == t.thermalDamage
    ensures n.flatspotDamage <= 1.0 || n.flatspotDamage == t.flatspotDamage
  {
    var temps := TemperatureStep(t.compound, t.surfaceTemp, t.coreTemp, avgSpeedKmh / 3.6, corneringSeverity);
    TireState(t.compound, t.abrasiveness, WearAfterLap(t, corneringSeverity), temps.0, temps.1,
      ThermalAfterLap(t.compound, t.thermalDamage, temps.0), FlatspotAfterLap(t.flatspotDamage, lockupEvents), t.laps + 1)
  }

  /**
   * A lap never repairs a tire: wear (for a non-negative cornering
   * severity), thermal damage and flat-spot damage never decrease and stay
   * capped at 1. Thermal damage changes only when the new surface
   * temperature is overheated; flat spots grow by 0.15 per lock-up and only
   * when there was one.
   */
  lemma LapNeverRepairs(t: TireState, avgSpeedKmh: real, corneringSeverity: real, lockupEvents: int)
    requires ValidState(t)
    ensures var n := AfterLap(t, avgSpeedKmh, corneringSeverity, lockupEvents);
      n.wear <= 1.0 && (corneringSeverity >= 0.0 ==> t.wear <= n.wear) &&
      t.thermalDamage <= n.thermalDamage <= 1.0 &&
      (n.thermalDamage != t.thermalDamage ==> Overheated(t.compound, n.surfaceTemp)) &&
      t.flatspotDamage <= n.flatspotDamage <= 1.0 &&
      (lockupEvents > 0 ==> n.flatspotDamage == Min(1.0, t.flatspotDamage + lockupEvents as real * 0.15)) &&
      (lockupEvents <= 0 ==> n.flatspotDamage == t.flatspotDamage)
  {
  }

  /** A lap with non-negative cornering severity keeps the state in its ranges. */
  lemma LapKeepsValid(t: TireState, avgSpeedKmh: real, corneringSeverity: real, lockupEvents: int)
    requires ValidState(t) && corneringSeverity >= 0.0
    ensures ValidState(AfterLap(t, avgSpeedKmh, corneringSeverity, lockupEvents))
  {
    LapNeverRepairs(t, avgSpeedKmh, corneringSeverity, lockupEvents);
  }

  /** A tire run for k laps from new at the given pace (the race strategy runs 200 km/h, severity 1, no lock-ups). */
  function Worn(c: Compound, abrasiveness: real, k: nat, avgSpeedKmh: real): (t: TireState)
    ensures t.compound == c && t.abrasiveness == abrasiveness && t.laps == k
  {
    if k == 0 then Fresh(c, abrasiveness) else AfterLap(Worn(c, abrasiveness, k - 1, avgSpeedKmh), avgSpeedKmh, 1.0, 0)
  }

  /** However many laps it has run, a tire from the table stays in its ranges, and its wear only grows. */
  lemma {:induction false} WornIsValid(c: Compound, abrasiveness: real, k: nat, avgSpeedKmh: real)
    requires WellFormed(c) && abrasiveness > 0.0
    ensures ValidState(Worn(c, abrasiveness, k, avgSpeedKmh))
    ensures k > 0 ==> Worn(c, abrasiveness, k - 1, avgSpeedKmh).wear <= Worn(c, abrasiveness, k, avgSpeedKmh).wear
  {
    if k > 0 {
      WornIsValid(c, abrasiveness, k - 1, avgSpeedKmh);
      LapKeepsValid(Worn(c, abrasiveness, k - 1, avgSpeedKmh), avgSpeedKmh, 1.0, 0);
      LapNeverRepairs(Worn(c, abrasiveness, k - 1, avgSpeedKmh), avgSpeedKmh, 1.0, 0);
    } else {
      FreshIsValid(c, abrasiveness);
    }
  }

  // ---------------------------------------------------------------------
  // The stateful model.

  /** TireDegradationModel: the tire's state as fields, updated in place lap by lap, with its history lists. */
  class TireDegradationModel {
    var compound: Compound
    var trackAbrasiveness: real
    var wearLevel: real
    var surfaceTemp: real
    var coreTemp: real
    var thermalDamage: real
    var flatspotDamage: real
    var lapsCompleted: nat
    var lapsHistory: seq<int>
    var wearHistory: seq<real>
    var gripHistory: seq<real>
    var surfaceTempHistory: seq<real>
    var thermalDamageHistory: seq<real>

    /** The fields as a value. */
    function State(): TireState
      reads this
    {
      TireState(compound, trackAbrasiveness, wearLevel, surfaceTemp, coreTemp, thermalDamage, flatspotDamage, lapsCompleted)
    }

    /** The compound is well formed and every history list has one entry per completed lap, the laps numbered 1, 2, ... */
    predicate Valid()
      reads this
    {
      WellFormed(compound) &&
      |lapsHistory| == lapsCompleted && |wearHistory| == lapsCompleted && |gripHistory| == lapsCompleted &&
      |surfaceTempHistory| == lapsCompleted && |thermalDamageHistory| == lapsCompleted &&
      (forall i :: 0 <= i < |lapsHistory| ==> lapsHistory[i] == i + 1)
    }

    constructor(c: Compound, abrasiveness: real)
      requires WellFormed(c)
      ensures Valid() && State() == Fresh(c, abrasiveness)
      ensures lapsHistory == [] && wearHistory == [] && gripHistory == []
      ensures surfaceTempHistory == [] && thermalDamageHistory == []
    {
      compound := c;
      trackAbrasiveness := abrasiveness;
      wearLevel := 0.0;
      surfaceTemp := 60.0;
      coreTemp := 50.0;
      thermalDamage := 0.0;
      flatspotDamage := 0.0;
      lapsCompleted := 0;
      lapsHistory := [];
      wearHistory := [];
      gripHistory := [];
      surfaceTempHistory := [];
      thermalDamageHistory := [];
    }

    /** TireDegradationModel(compound, track_name): a ValueError for a code outside the table. */
    static method Create(code: string, trackName: string) returns (r: Result<TireDegradationModel, string>)
      ensures r.Failure? <==> !IsCompoundCode(code)
      ensures r.Failure? ==> r.error == UnknownCompound(code)
      ensures r.Success? ==>
        fresh(r.value) && r.value.Valid() &&
        r.value.State() == Fresh(LookupCompound(code).value, Abrasiveness(trackName)) && r.value.lapsHistory == []
    {
      var c := LookupCompound(code);
      if c.None? {
        return Failure(UnknownCompound(code));
      }
      var model := new TireDegradationModel(c.value, Abrasiveness(trackName));
      return Success(model);
    }

    function GripMultiplier(): real
      reads this
      requires compound.cliffThreshold < 1.0
    {
      Grip(State())
    }

    function GetLapTimeDelta(baseLapTime: real): real
      reads this
      requires compound.cliffThreshold < 1.0
    {
      LapTimeDelta(GripMultiplier(), baseLapTime)
    }

    function GetRemainingLife(): int
      reads this
      requires RemainingLifeDefined(State())
    {
      RemainingLife(State())
    }

    /** _update_temperature: only the two temperatures change. */
    method UpdateTemperature(speedMs: real, corneringSeverity: real)
      modifies this
      ensures (surfaceTemp, coreTemp) == TemperatureStep(compound, old(surfaceTemp), old(coreTemp), speedMs, corneringSeverity)
      ensures compound == old(compound) && trackAbrasiveness == old(trackAbrasiveness) && wearLevel == old(wearLevel)
      ensures thermalDamage == old(thermalDamage) && flatspotDamage == old(flatspotDamage) && lapsCompleted == old(lapsCompleted)
      ensures lapsHistory == old(lapsHistory) && wearHistory == old(wearHistory) && gripHistory == old(gripHistory)
      ensures surfaceTempHistory == old(surfaceTempHistory) && thermalDamageHistory == old(thermalDamageHistory)
    {
      var target := HeatTarget(compound, speedMs, corneringSeverity);
      surfaceTemp := surfaceTemp + (target - surfaceTemp) * 0.3;
      coreTemp := coreTemp + (target - coreTemp) * 0.15;
      surfaceTemp := surfaceTemp - (surfaceTemp - 25.0) * 0.05;
      coreTemp := coreTemp - (coreTemp - 25.0) * 0.02;
    }

    /** The history block of simulate_lap: one entry per list for the lap just counted; the state itself is untouched. */
    method RecordHistory()
      requires WellFormed(compound) && lapsCompleted > 0
      requires |lapsHistory| == lapsCompleted - 1 && |wearHistory| == lapsCompleted - 1 && |gripHistory| == lapsCompleted - 1
      requires |surfaceTempHistory| == lapsCompleted - 1 && |thermalDamageHistory| == lapsCompleted - 1
      requires forall i :: 0 <= i < |lapsHistory| ==> lapsHistory[i] == i + 1
      modifies this
      ensures Valid() && State() == old(State())
      ensures lapsHistory == old(lapsHistory) + [lapsCompleted]
      ensures wearHistory == old(wearHistory) + [wearLevel]
      ensures gripHistory == old(gripHistory) + [Grip(State())]
      ensures surfaceTempHistory == old(surfaceTempHistory) + [surfaceTemp]
      ensures thermalDamageHistory == old(thermalDamageHistory) + [thermalDamage]
    {
      var grip := GripMultiplier();
      lapsHistory := lapsHistory + [lapsCompleted];
      wearHistory := wearHistory + [wearLevel];
      gripHistory := gripHistory + [grip];
      surfaceTempHistory := surfaceTempHistory + [surfaceTemp];
      thermalDamageHistory := thermalDamageHistory + [thermalDamage];
    }

    /**
     * simulate_lap: the state moves to AfterLap of the old state, and each
     * history list gains the one entry describing the lap just completed.
     */
    method SimulateLap(avgSpeedKmh: real, corneringSeverity: real, lockupEvents: int)
      requires Valid()
      modifies this
      ensures Valid()
      ensures State() == AfterLap(old(State()), avgSpeedKmh, corneringSeverity, lockupEvents)
      ensures lapsHistory == old(lapsHistory) + [lapsCompleted]
      ensures wearHistory == old(wearHistory) + [wearLevel]
      ensures gripHistory == old(gripHistory) + [Grip(State())]
      ensures surfaceTempHistory == old(surfaceTempHistory) + [surfaceTemp]
      ensures thermalDamageHistory == old(thermalDamageHistory) + [thermalDamage]
    {
      ghost var before := State();
      var avgSpeedMs := avgSpeedKmh / 3.6;
      wearLevel := WearAfterLap(State(), corneringSeverity);
      UpdateTemperature(avgSpeedMs, corneringSeverity);
      thermalDamage := ThermalAfterLap(compound, thermalDamage, surfaceTemp);
      flatspotDamage := FlatspotAfterLap(flatspotDamage, lockupEvents);
      lapsCompleted := lapsCompleted + 1;
      assert State() == AfterLap(before, avgSpeedKmh, corneringSeverity, lockupEvents);
      RecordHistory();
    }
  }

  // ---------------------------------------------------------------------
  // The wrapped vehicle.

  /** What simulate_lap_with_degradation reports: the lap number after the lap, the grip it was run at, wear and temperature after it. */
  datatype LapReport = LapReport(lap: int, grip: real, wear: real, temp: real)

  /** The car's friction coefficient scaled by the tire's grip multiplier. */
  function EffectiveMu(baseMu: real, t: TireState): (mu: real)
    requires t.compound.cliffThreshold < 1.0
    ensures ValidState(t) && baseMu >= 0.0 ==> 0.0 <= mu <= baseMu * t.compound.peakGrip
  {
    if ValidState(t) && baseMu >= 0.0 then
      GripBounds(t);
      MulNonneg(baseMu, Grip(t));
      MulLeRight(Grip(t), t.compound.peakGrip, baseMu);
      baseMu * Grip(t)
    else baseMu * Grip(t)
  }

  /** DegradingF1Vehicle: the default car with a degrading set of tires. */
  class DegradingF1Vehicle {
    var baseVehicle: BaseVehicle.Vehicle
    var tireModel: TireDegradationModel

    predicate Valid()
      reads this, tireModel
    {
      tireModel.Valid()
    }

    /** DegradingF1Vehicle(compound, track_name): the default car; a ValueError for an unknown compound. */
    static method Create(code: string, trackName: string) returns (r: Result<DegradingF1Vehicle, string>)
      ensures r.Failure? <==> !IsCompoundCode(code)
      ensures r.Success? ==>
        fresh(r.value) && fresh(r.value.tireModel) && r.value.Valid() &&
        r.value.baseVehicle == BaseVehicle.DefaultVehicle &&
        r.value.tireModel.State() == Fresh(LookupCompound(code).value, Abrasiveness(trackName))
    {
      var model := TireDegradationModel.Create(code, trackName);
      if model.Failure? {
        return Failure(model.error);
      }
      var car := new DegradingF1Vehicle.Init(model.value);
      return Success(car);
    }

    constructor Init(model: TireDegradationModel)
      ensures baseVehicle == BaseVehicle.DefaultVehicle && tireModel == model
    {
      baseVehicle := BaseVehicle.DefaultVehicle;
      tireModel := model;
    }

    /** get_effective_grip. */
    function GetEffectiveGrip(): real
      reads this, tireModel
      requires Valid()
    {
      EffectiveMu(baseVehicle.tireMuPeak, tireModel.State())
    }

    /** simulate_lap_with_degradation: reports the grip the lap was run at, then wears the tire by one lap. */
    method SimulateLapWithDegradation(avgSpeedKmh: real) returns (report: LapReport)
      requires Valid()
      modifies tireModel
      ensures Valid()
      ensures tireModel.State() == AfterLap(old(tireModel.State()), avgSpeedKmh, 1.0, 0)
      ensures report == LapReport(tireModel.lapsCompleted, old(GetEffectiveGrip()), tireModel.wearLevel, tireModel.surfaceTemp)
    {
      var grip := GetEffectiveGrip();
      tireModel.SimulateLap(avgSpeedKmh, 1.0, 0);
      report := LapReport(tireModel.lapsCompleted, grip, tireModel.wearLevel, tireModel.surfaceTemp);
    }
  }
}
