// src/f1_simulation_advance.py: the car with tire and brake temperatures,
// the temperature-dependent grip and brake-efficiency multipliers, the
// longitudinal load transfer, and simulate_lap_enhanced, the lap loop that
// also heats and cools the tires and brakes and clamps their temperatures.

module ThermalLap {
  import opened Common
  import opened Tracks
  import BaseLap

  /** The F1Vehicle of this file; the Pacejka coefficients and max_rpm are not used here. */
  datatype ThermalVehicle = ThermalVehicle(
    mass: real,
    wheelbase: real,
    trackWidth: real,
    cgHeight: real,
    weightDistFront: real,
    cd: real,
    clFront: real,
    clRear: real,
    frontalArea: real,
    airDensity: real,
    maxPower: real,
    tireMuPeak: real,
    tireOptimalTemp: real,
    tireInitialTemp: real,
    tireMaxTemp: real,
    tireHeatingRate: real,
    tireCoolingRate: real,
    brakeInitialTemp: real,
    brakeOptimalTemp: real,
    brakeMaxTemp: real,
    brakeHeatingRate: real,
    brakeCoolingRate: real,
    g: real)

  function DefaultThermalVehicle(): ThermalVehicle
  {
    ThermalVehicle(798.0, 3.6, 1.8, 0.35, 0.45, 0.70, 1.8, 1.7, 1.5, 1.225, 746000.0, 1.8,
                   90.0, 40.0, 130.0, 2.5, 0.5, 200.0, 400.0, 800.0, 50.0, 8.0, 9.81)
  }

  // ---------------------------------------------------------------------
  // The two temperature multipliers

  /** The divisions of the peaked multiplier below are defined: the branch taken does not divide by zero. */
  predicate PeakDefined(t: real, optimal: real, maximum: real)
  {
    if t < optimal then optimal != 0.0 else maximum != optimal
  }

  /** Below the optimum: linear from `cold` at 0 degrees to 1 at the optimum. */
  function ColdRamp(t: real, optimal: real, cold: real): real
    requires optimal != 0.0
  {
    cold + (1.0 - cold) * (t / optimal)
  }

  /** From the optimum on: 1 less `hot` for every optimum-to-maximum span of excess. */
  function HotFade(t: real, optimal: real, maximum: real, hot: real): real
    requires maximum != optimal
  {
    1.0 - hot * ((t - optimal) / (maximum - optimal))
  }

  /** The shape both multipliers share: the cold ramp, then the hot fade, clamped to [floor, 1]. */
  function Peaked(t: real, optimal: real, maximum: real, cold: real, hot: real, floor: real): (m: real)
    requires PeakDefined(t, optimal, maximum)
    ensures m >= floor
    ensures floor <= 1.0 ==> m <= 1.0
  {
    var raw := if t < optimal then ColdRamp(t, optimal, cold) else HotFade(t, optimal, maximum, hot);
    Max(floor, Min(1.0, raw))
  }

  /** The cold ramp rises with the temperature and stays below 1 short of the optimum. */
  lemma ColdRampRises(t1: real, t2: real, optimal: real, cold: real)
    requires 0.0 < optimal && cold <= 1.0 && t1 <= t2
    ensures ColdRamp(t1, optimal, cold) <= ColdRamp(t2, optimal, cold)
    ensures t1 <= optimal ==> ColdRamp(t1, optimal, cold) <= 1.0
    ensures t1 < optimal && cold < 1.0 ==> ColdRamp(t1, optimal, cold) < 1.0
  {
    var q1 := t1 / optimal;
    DivMonotone(t1, t2, optimal);
    MulLeRight(q1, t2 / optimal, 1.0 - cold);
    assert (1.0 - cold) * q1 <= (1.0 - cold) * (t2 / optimal);
    if t1 <= optimal {
      DivMonotone(t1, optimal, optimal);
      MulLeRight(q1, 1.0, 1.0 - cold);
      assert (1.0 - cold) * q1 <= 1.0 - cold;
    }
    if t1 < optimal && cold < 1.0 {
      DivStrictMonotone(t1, optimal, optimal);
      MulLtRight(q1, 1.0, 1.0 - cold);
      assert (1.0 - cold) * q1 < 1.0 - cold;
    }
  }

  /** The hot fade is 1 at the optimum, falls with the temperature, and is below 1 past the optimum. */
  lemma HotFadeFalls(t1: real, t2: real, optimal: real, maximum: real, hot: real)
    requires optimal < maximum && hot >= 0.0 && t1 <= t2
    ensures HotFade(optimal, optimal, maximum, hot) == 1.0
    ensures HotFade(t1, optimal, maximum, hot) >= HotFade(t2, optimal, maximum, hot)
    ensures optimal < t1 && hot > 0.0 ==> HotFade(t1, optimal, maximum, hot) < 1.0
  {
    var span := maximum - optimal;
    assert (optimal - optimal) / span == 0.0;
    DivMonotone(t1 - optimal, t2 - optimal, span);
    MulLeRight((t1 - optimal) / span, (t2 - optimal) / span, hot);
    if optimal < t1 && hot > 0.0 {
      DivStrictMonotone(0.0, t1 - optimal, span);
      MulPos((t1 - optimal) / span, hot);
    }
  }

  /** The multiplier is full at the optimum and only there. */
  lemma PeakedFullExactlyAtOptimum(t: real, optimal: real, maximum: real, cold: real, hot: real, floor: real)
    requires 0.0 < optimal < maximum && cold < 1.0 && hot > 0.0 && floor < 1.0
    ensures Peaked(t, optimal, maximum, cold, hot, floor) == 1.0 <==> t == optimal
  {
    ColdRampRises(t, t, optimal, cold);
    HotFadeFalls(t, t, optimal, maximum, hot);
  }

  /** Warming towards the optimum never lowers the multiplier. */
  lemma PeakedRisesToOptimum(t1: real, t2: real, optimal: real, maximum: real, cold: real, hot: real, floor: real)
    requires 0.0 < optimal < maximum && cold <= 1.0 && hot >= 0.0
    requires t1 <= t2 <= optimal
    ensures Peaked(t1, optimal, maximum, cold, hot, floor) <= Peaked(t2, optimal, maximum, cold, hot, floor)
  {
    ColdRampRises(t1, t2, optimal, cold);
    HotFadeFalls(t2, t2, optimal, maximum, hot);
  }

  /** Heating beyond the optimum never raises the multiplier. */
  lemma PeakedFallsPastOptimum(t1: real, t2: real, optimal: real, maximum: real, cold: real, hot: real, floor: real)
    requires optimal < maximum && hot >= 0.0
    requires optimal <= t1 <= t2
    ensures Peaked(t1, optimal, maximum, cold, hot, floor) >= Peaked(t2, optimal, maximum, cold, hot, floor)
  {
    HotFadeFalls(t1, t2, optimal, maximum, hot);
  }

  predicate GripDefined(veh: ThermalVehicle, tireTemp: real)
  {
    PeakDefined(tireTemp, veh.tireOptimalTemp, veh.tireMaxTemp)
  }

  predicate BrakeDefined(veh: ThermalVehicle, brakeTemp: real)
  {
    PeakDefined(brakeTemp, veh.brakeOptimalTemp, veh.brakeMaxTemp)
  }

  /** get_tire_grip_multiplier: 0.70 + 0.30 t/opt when cold, 1 - 0.25 overheat when hot, within [0.65, 1]. */
  function GripMultiplier(veh: ThermalVehicle, tireTemp: real): (m: real)
    requires GripDefined(veh, tireTemp)
    ensures 0.65 <= m <= 1.0
  {
    Peaked(tireTemp, veh.tireOptimalTemp, veh.tireMaxTemp, 0.70, 0.25, 0.65)
  }

  /** get_brake_efficiency: 0.75 + 0.25 t/opt when cold, 1 - 0.30 fade when hot, within [0.70, 1]. */
  function BrakeEfficiency(veh: ThermalVehicle, brakeTemp: real): (e: real)
    requires BrakeDefined(veh, brakeTemp)
    ensures 0.70 <= e <= 1.0
  {
    Peaked(brakeTemp, veh.brakeOptimalTemp, veh.brakeMaxTemp, 0.75, 0.30, 0.70)
  }

  /**
   * Tires give full grip at their optimal temperature and only there; grip
   * grows while they warm up to it and fades as they overheat past it.
   */
  lemma GripPeaksAtOptimum(veh: ThermalVehicle, t1: real, t2: real)
    requires 0.0 < veh.tireOptimalTemp < veh.tireMaxTemp
    ensures GripMultiplier(veh, t1) == 1.0 <==> t1 == veh.tireOptimalTemp
    ensures t1 <= t2 <= veh.tireOptimalTemp ==> GripMultiplier(veh, t1) <= GripMultiplier(veh, t2)
    ensures veh.tireOptimalTemp <= t1 <= t2 ==> GripMultiplier(veh, t1) >= GripMultiplier(veh, t2)
  {
    var opt, max := veh.tireOptimalTemp, veh.tireMaxTemp;
    PeakedFullExactlyAtOptimum(t1, opt, max, 0.70, 0.25, 0.65);
    if t1 <= t2 <= opt {
      PeakedRisesToOptimum(t1, t2, opt, max, 0.70, 0.25, 0.65);
    }
    if opt <= t1 <= t2 {
      PeakedFallsPastOptimum(t1, t2, opt, max, 0.70, 0.25, 0.65);
    }
  }

  /** Brakes bite fully at their optimal temperature and only there; below it they are cold, above it they fade. */
  lemma BrakesPeakAtOptimum(veh: ThermalVehicle, t1: real, t2: real)
    requires 0.0 < veh.brakeOptimalTemp < veh.brakeMaxTemp
    ensures BrakeEfficiency(veh, t1) == 1.0 <==> t1 == veh.brakeOptimalTemp
    ensures t1 <= t2 <= veh.brakeOptimalTemp ==> BrakeEfficiency(veh, t1) <= BrakeEfficiency(veh, t2)
    ensures veh.brakeOptimalTemp <= t1 <= t2 ==> BrakeEfficiency(veh, t1) >= BrakeEfficiency(veh, t2)
  {
    var opt, max := veh.brakeOptimalTemp, veh.brakeMaxTemp;
    PeakedFullExactlyAtOptimum(t1, opt, max, 0.75, 0.30, 0.70);
    if t1 <= t2 <= opt {
      PeakedRisesToOptimum(t1, t2, opt, max, 0.75, 0.30, 0.70);
    }
    if opt <= t1 <= t2 {
      PeakedFallsPastOptimum(t1, t2, opt, max, 0.75, 0.30, 0.70);
    }
  }

  // ---------------------------------------------------------------------
  // Load transfer and aerodynamics

  datatype AxleLoads = AxleLoads(front: real, rear: real)

  /** The load moved from the front axle to the rear one, m a h / L. */
  function Transfer(veh: ThermalVehicle, acceleration: real): real
    requires veh.wheelbase != 0.0
  {
    (veh.mass * acceleration * veh.cgHeight) / veh.wheelbase
  }

  /** The axle weights before the floor at zero: static split, minus/plus the transfer, plus downforce. */
  function UnflooredLoads(veh: ThermalVehicle, acceleration: real, downforceFront: real, downforceRear: real): AxleLoads
    requires veh.wheelbase != 0.0
  {
    AxleLoads(veh.mass * veh.g * veh.weightDistFront - Transfer(veh, acceleration) + downforceFront,
              veh.mass * veh.g * (1.0 - veh.weightDistFront) + Transfer(veh, acceleration) + downforceRear)
  }

  /** For a car of positive mass, height and wheelbase the transfer has the sign of the acceleration. */
  lemma TransferSign(veh: ThermalVehicle, acceleration: real)
    requires veh.mass > 0.0 && veh.cgHeight > 0.0 && veh.wheelbase > 0.0
    ensures Transfer(veh, 0.0) == 0.0
    ensures acceleration > 0.0 ==> Transfer(veh, acceleration) > 0.0
    ensures acceleration < 0.0 ==> Transfer(veh, acceleration) < 0.0
  {
    SignOfQuotient(veh.mass, acceleration, veh.cgHeight, veh.wheelbase);
    SignOfQuotient(veh.mass, 0.0, veh.cgHeight, veh.wheelbase);
  }

  /** calculate_load_transfer: each axle's weight, floored at zero. */
  function CalculateLoadTransfer(veh: ThermalVehicle, acceleration: real, downforceFront: real, downforceRear: real)
    : (w: AxleLoads)
    requires veh.wheelbase != 0.0
    ensures w.front >= 0.0 && w.rear >= 0.0
    ensures var u := UnflooredLoads(veh, acceleration, downforceFront, downforceRear);
      (u.front >= 0.0 ==> w.front == u.front) && (u.front < 0.0 ==> w.front == 0.0) &&
      (u.rear >= 0.0 ==> w.rear == u.rear) && (u.rear < 0.0 ==> w.rear == 0.0)
  {
    var u := UnflooredLoads(veh, acceleration, downforceFront, downforceRear);
    AxleLoads(Max(0.0, u.front), Max(0.0, u.rear))
  }

  /** Load transfer only moves weight between the axles: the unfloored total is m g plus the downforce. */
  lemma LoadTransferConservesWeight(veh: ThermalVehicle, acceleration: real, downforceFront: real, downforceRear: real)
    requires veh.wheelbase != 0.0
    ensures var u := UnflooredLoads(veh, acceleration, downforceFront, downforceRear);
      u.front + u.rear == veh.mass * veh.g + downforceFront + downforceRear
  {
    var mg := veh.mass * veh.g;
    assert mg * veh.weightDistFront + mg * (1.0 - veh.weightDistFront) == mg;
  }

  /** Accelerating moves weight from the front axle to the rear one; braking does the opposite. */
  lemma LoadTransferShiftsRearward(veh: ThermalVehicle, acceleration: real, downforceFront: real, downforceRear: real)
    requires veh.mass > 0.0 && veh.cgHeight > 0.0 && veh.wheelbase > 0.0
    ensures var u := UnflooredLoads(veh, acceleration, downforceFront, downforceRear);
      var u0 := UnflooredLoads(veh, 0.0, downforceFront, downforceRear);
      (acceleration > 0.0 ==> u.rear > u0.rear && u.front < u0.front) &&
      (acceleration < 0.0 ==> u.rear < u0.rear && u.front > u0.front)
    ensures var w := CalculateLoadTransfer(veh, acceleration, downforceFront, downforceRear);
      var w0 := CalculateLoadTransfer(veh, 0.0, downforceFront, downforceRear);
      (acceleration > 0.0 ==> w.rear >= w0.rear && w.front <= w0.front) &&
      (acceleration < 0.0 ==> w.rear <= w0.rear && w.front >= w0.front)
  {
    TransferSign(veh, acceleration);
  }

  datatype ThermalAero = ThermalAero(drag: real, downforceTotal: real, downforceFront: real, downforceRear: real)

  /** calculate_aero_forces: each force is 1/2 rho C A v^2; the total is front plus rear. No DRS in this file. */
  function CalculateAeroForces(veh: ThermalVehicle, velocity: real): (a: ThermalAero)
    ensures a.downforceTotal == a.downforceFront + a.downforceRear
  {
    var vSquared := velocity * velocity;
    var front := 0.5 * veh.airDensity * veh.clFront * veh.frontalArea * vSquared;
    var rear := 0.5 * veh.airDensity * veh.clRear * veh.frontalArea * vSquared;
    ThermalAero(0.5 * veh.airDensity * veh.cd * veh.frontalArea * vSquared, front + rear, front, rear)
  }

  /**
   * With non-negative air density, area and coefficients, every force is
   * non-negative, and the two axles share the downforce in the ratio of
   * their lift coefficients.
   */
  lemma AeroForcesShape(veh: ThermalVehicle, velocity: real)
    requires veh.airDensity >= 0.0 && veh.frontalArea >= 0.0
    requires veh.cd >= 0.0 && veh.clFront >= 0.0 && veh.clRear >= 0.0
    ensures var a := CalculateAeroForces(veh, velocity);
      a.drag >= 0.0 && a.downforceFront >= 0.0 && a.downforceRear >= 0.0 &&
      a.downforceFront * veh.clRear == a.downforceRear * veh.clFront
  {
    var q := velocity * velocity;
    SquareNonneg(velocity);
    var half := 0.5 * veh.airDensity;
    MulNonneg(half, veh.cd);
    MulNonneg(half * veh.cd, veh.frontalArea);
    MulNonneg(half * veh.cd * veh.frontalArea, q);
    MulNonneg(half, veh.clFront);
    MulNonneg(half * veh.clFront, veh.frontalArea);
    MulNonneg(half * veh.clFront * veh.frontalArea, q);
    MulNonneg(half, veh.clRear);
    MulNonneg(half * veh.clRear, veh.frontalArea);
    MulNonneg(half * veh.clRear * veh.frontalArea, q);
    var k := half * veh.frontalArea * q;
    assert half * veh.clFront * veh.frontalArea * q == veh.clFront * k;
    assert half * veh.clRear * veh.frontalArea * q == veh.clRear * k;
  }

  // ---------------------------------------------------------------------
  // Force limits

  /** The power-limited engine force; 10000 N at and below 5 m/s. */
  function EngineForce(veh: ThermalVehicle, velocity: real): real
  {
    if velocity > 5.0 then veh.maxPower / velocity else 10000.0
  }

  /** calculate_max_acceleration: the engine force capped by the rear tires' grip at their temperature. */
  function CalculateMaxAcceleration(veh: ThermalVehicle, velocity: real, weightRear: real, tireTemp: real): (f: real)
    requires GripDefined(veh, tireTemp)
    ensures f <= EngineForce(veh, velocity)
    ensures f <= veh.tireMuPeak * GripMultiplier(veh, tireTemp) * weightRear
    ensures f == EngineForce(veh, velocity) || f == veh.tireMuPeak * GripMultiplier(veh, tireTemp) * weightRear
  {
    Min(EngineForce(veh, velocity), veh.tireMuPeak * GripMultiplier(veh, tireTemp) * weightRear)
  }

  /**
   * The driving force never exceeds the rear tires' grip at the optimal
   * temperature, and it is non-negative for a car with positive power on
   * a loaded rear axle.
   */
  lemma MaxAccelerationWithinGrip(veh: ThermalVehicle, velocity: real, weightRear: real, tireTemp: real)
    requires GripDefined(veh, tireTemp)
    requires veh.tireMuPeak >= 0.0 && weightRear >= 0.0
    ensures CalculateMaxAcceleration(veh, velocity, weightRear, tireTemp) <= veh.tireMuPeak * weightRear
    ensures veh.maxPower >= 0.0 && velocity >= 0.0 ==> CalculateMaxAcceleration(veh, velocity, weightRear, tireTemp) >= 0.0
  {
    var grip := GripMultiplier(veh, tireTemp);
    var f := CalculateMaxAcceleration(veh, velocity, weightRear, tireTemp);
    GripScaled(veh.tireMuPeak, grip, weightRear);
    assert f <= veh.tireMuPeak * grip * weightRear;
    if velocity > 5.0 && veh.maxPower >= 0.0 {
      DivMonotone(0.0, veh.maxPower, velocity);
    }
  }

  /** A grip multiplier in [0.65, 1] scales the tire force mu W by that much. */
  lemma GripScaled(mu: real, grip: real, weight: real)
    requires mu >= 0.0 && weight >= 0.0 && 0.65 <= grip <= 1.0
    ensures 0.65 * (mu * weight) <= mu * grip * weight <= mu * weight
  {
    var cap := mu * weight;
    MulNonneg(mu, weight);
    MulLeRight(grip, 1.0, cap);
    MulLeRight(0.65, grip, cap);
    assert mu * grip * weight == grip * cap;
  }

  /**
   * The braking force of the two axles: each axle's mu grip W at the brakes'
   * efficiency, the rear axle at 70 %.
   */
  function AxleBraking(mu: real, gripFront: real, gripRear: real, eff: real, weightFront: real, weightRear: real): real
  {
    mu * gripFront * weightFront * eff + mu * gripRear * weightRear * eff * 0.7
  }

  /** calculate_max_braking: the two axles at their tires' grip multipliers and the brakes' efficiency. */
  function CalculateMaxBraking(veh: ThermalVehicle, weightFront: real, weightRear: real, brakeTemp: real,
                               tireTempFront: real, tireTempRear: real): real
    requires BrakeDefined(veh, brakeTemp) && GripDefined(veh, tireTempFront) && GripDefined(veh, tireTempRear)
  {
    AxleBraking(veh.tireMuPeak, GripMultiplier(veh, tireTempFront), GripMultiplier(veh, tireTempRear),
                BrakeEfficiency(veh, brakeTemp), weightFront, weightRear)
  }

  /**
   * On loaded axles the braking force is at least 0.65 x 0.70 of, and at
   * most, the force of optimal tires and brakes: mu (W_f + 0.7 W_r).
   */
  lemma MaxBrakingBounds(veh: ThermalVehicle, weightFront: real, weightRear: real, brakeTemp: real,
                         tireTempFront: real, tireTempRear: real)
    requires BrakeDefined(veh, brakeTemp) && GripDefined(veh, tireTempFront) && GripDefined(veh, tireTempRear)
    requires veh.tireMuPeak >= 0.0 && weightFront >= 0.0 && weightRear >= 0.0
    ensures var full := veh.tireMuPeak * weightFront + veh.tireMuPeak * weightRear * 0.7;
      0.455 * full <= CalculateMaxBraking(veh, weightFront, weightRear, brakeTemp, tireTempFront, tireTempRear) <= full
  {
    BrakingArith(veh.tireMuPeak, GripMultiplier(veh, tireTempFront), GripMultiplier(veh, tireTempRear),
                 BrakeEfficiency(veh, brakeTemp), weightFront, weightRear);
  }

  lemma BrakingArith(mu: real, gf: real, gr: real, eff: real, weightFront: real, weightRear: real)
    requires 0.65 <= gf <= 1.0 && 0.65 <= gr <= 1.0 && 0.70 <= eff <= 1.0
    requires mu >= 0.0 && weightFront >= 0.0 && weightRear >= 0.0
    ensures 0.455 * (mu * weightFront + mu * weightRear * 0.7)
         <= AxleBraking(mu, gf, gr, eff, weightFront, weightRear)
         <= mu * weightFront + mu * weightRear * 0.7
  {
    AxleBrakeBounds(mu, gf, eff, weightFront);
    AxleBrakeBounds(mu, gr, eff, weightRear);
    WeightedAxles(mu * gf * weightFront * eff, mu * gr * weightRear * eff, mu * weightFront, mu * weightRear);
  }

  /** One axle's braking force mu grip W eff, against the same axle with full grip and efficiency. */
  lemma AxleBrakeBounds(mu: real, grip: real, eff: real, weight: real)
    requires 0.65 <= grip <= 1.0 && 0.70 <= eff <= 1.0 && mu >= 0.0 && weight >= 0.0
    ensures 0.455 * (mu * weight) <= mu * grip * weight * eff <= mu * weight
  {
    var full := mu * weight;
    MulNonneg(mu, weight);
    FactorBounds(grip, eff);
    MulLeRight(grip * eff, 1.0, full);
    MulLeRight(0.455, grip * eff, full);
    assert mu * grip * weight * eff == (grip * eff) * full;
  }

  lemma WeightedAxles(front: real, rear: real, fullFront: real, fullRear: real)
    requires 0.455 * fullFront <= front <= fullFront && 0.455 * fullRear <= rear <= fullRear
    ensures 0.455 * (fullFront + fullRear * 0.7) <= front + rear * 0.7 <= fullFront + fullRear * 0.7
  {
  }

  lemma FactorBounds(grip: real, eff: real)
    requires 0.65 <= grip <= 1.0 && 0.70 <= eff <= 1.0
    ensures 0.455 <= grip * eff <= 1.0
  {
    calc {
      0.455;
      0.65 * 0.70;
    <=  { MulLeRight(0.70, eff, 0.65); }
      0.65 * eff;
    <=  { MulLeRight(0.65, grip, eff); }
      grip * eff;
    <=  { MulLeRight(grip, 1.0, eff); }
      eff;
    }
  }

  /** calculate_corner_speed, squared: infinite on a straight, else mu grip W / m |r|. */
  function CalculateCornerSpeed(veh: ThermalVehicle, radius: Radius, weightTotal: real, tireTemp: real): (limit: SpeedLimit)
    requires veh.mass != 0.0 && GripDefined(veh, tireTemp)
    ensures limit.Unbounded? <==> radius.Straight?
  {
    match radius
    case Straight => Unbounded
    case Corner(r) => Bounded(LateralLimitSq(veh.tireMuPeak, GripMultiplier(veh, tireTemp), weightTotal, veh.mass, Abs(r)))
  }

  /** The squared corner speed: the lateral force mu grip W over the mass, times the radius. */
  function LateralLimitSq(mu: real, grip: real, weight: real, mass: real, absR: real): real
    requires mass != 0.0
  {
    ((mu * grip * weight) / mass) * absR
  }

  /**
   * In a corner the squared limit is the squared limit of tires at their
   * optimal temperature scaled by the grip multiplier, so it lies between
   * 0.65 and 1 times that limit.
   */
  lemma CornerSpeedGripBounds(veh: ThermalVehicle, r: real, weightTotal: real, tireTemp: real)
    requires veh.mass > 0.0 && GripDefined(veh, tireTemp)
    requires veh.tireMuPeak >= 0.0 && weightTotal >= 0.0
    ensures var full := (veh.tireMuPeak * weightTotal / veh.mass) * Abs(r);
      var sq := CalculateCornerSpeed(veh, Corner(r), weightTotal, tireTemp).sq;
      0.65 * full <= sq <= full
  {
    LateralScaled(veh.tireMuPeak, GripMultiplier(veh, tireTemp), weightTotal, veh.mass, Abs(r));
  }

  /** (mu grip W / m) |r| is grip times (mu W / m) |r|, hence between 0.65 and 1 times it. */
  lemma LateralScaled(mu: real, grip: real, weight: real, mass: real, absR: real)
    requires mu >= 0.0 && weight >= 0.0 && mass > 0.0 && absR >= 0.0 && 0.65 <= grip <= 1.0
    ensures 0.65 * ((mu * weight / mass) * absR) <= LateralLimitSq(mu, grip, weight, mass, absR) <= (mu * weight / mass) * absR
  {
    var full := (mu * weight / mass) * absR;
    assert LateralLimitSq(mu, grip, weight, mass, absR) == grip * full;
    MulNonneg(mu, weight);
    DivMonotone(0.0, mu * weight, mass);
    MulNonneg(mu * weight / mass, absR);
    MulLeRight(grip, 1.0, full);
    MulLeRight(0.65, grip, full);
  }

  // ---------------------------------------------------------------------
  // Temperatures

  datatype Temps = Temps(tireFront: real, tireRear: real, brake: real)

  /** The temperatures before the first step: 110 degree tires and the car's initial brake temperature. */
  function InitialTemps(veh: ThermalVehicle): Temps
  {
    Temps(110.0, 110.0, veh.brakeInitialTemp)
  }

  /**
   * The temperature changes of one step before the clamp. Braking heats the
   * brakes but ASSIGNS the tires initial * dt * 0.8 and initial * dt * 0.5;
   * accelerating heats the tires and cools the brakes; coasting cools all.
   */
  function HeatFlow(veh: ThermalVehicle, mode: Mode, temps: Temps, dt: real): Temps
  {
    match mode
    case Braking =>
      Temps(veh.tireInitialTemp * dt * 0.8, veh.tireInitialTemp * dt * 0.5, temps.brake + veh.brakeHeatingRate * dt)
    case Accelerating =>
      Temps(temps.tireFront + veh.tireHeatingRate * dt * 0.2, temps.tireRear + veh.tireHeatingRate * dt * 0.6,
            temps.brake - veh.brakeCoolingRate * dt)
    case Coasting =>
      Temps(temps.tireFront - veh.tireCoolingRate * dt, temps.tireRear - veh.tireCoolingRate * dt,
            temps.brake - veh.brakeCoolingRate * dt)
  }

  /** Tires within [30, tire_max_temp] and brakes within [150, brake_max_temp], where those ranges are not empty. */
  predicate TempsInRange(veh: ThermalVehicle, temps: Temps)
  {
    temps.tireFront <= veh.tireMaxTemp && temps.tireRear <= veh.tireMaxTemp && temps.brake <= veh.brakeMaxTemp &&
    (30.0 <= veh.tireMaxTemp ==> 30.0 <= temps.tireFront && 30.0 <= temps.tireRear) &&
    (150.0 <= veh.brakeMaxTemp ==> 150.0 <= temps.brake)
  }

  /** The step's new temperatures: the heat flow clipped to the tire and brake ranges. */
  function UpdateTemperatures(veh: ThermalVehicle, mode: Mode, temps: Temps, dt: real): (t: Temps)
    ensures TempsInRange(veh, t)
    ensures var h := HeatFlow(veh, mode, temps, dt);
      (30.0 <= h.tireFront <= veh.tireMaxTemp ==> t.tireFront == h.tireFront) &&
      (30.0 <= h.tireRear <= veh.tireMaxTemp ==> t.tireRear == h.tireRear) &&
      (150.0 <= h.brake <= veh.brakeMaxTemp ==> t.brake == h.brake)
  {
    var h := HeatFlow(veh, mode, temps, dt);
    Temps(Clip(h.tireFront, 30.0, veh.tireMaxTemp), Clip(h.tireRear, 30.0, veh.tireMaxTemp),
          Clip(h.brake, 150.0, veh.brakeMaxTemp))
  }

  /**
   * A braking step forgets the tire temperatures: whatever they were, they
   * become the same values, and at the floor of 30 degrees whenever
   * initial * dt * 0.8 is at most 30 (for the default car, any dt up to
   * 0.9375 s, so the default 0.05 s). The brakes warm by heating rate * dt.
   */
  lemma BrakingResetsTireTemperatures(veh: ThermalVehicle, before1: Temps, before2: Temps, dt: real)
    requires 30.0 <= veh.tireMaxTemp
    requires veh.tireInitialTemp >= 0.0 && dt >= 0.0 && veh.tireInitialTemp * dt * 0.8 <= 30.0
    ensures var t1 := UpdateTemperatures(veh, Braking, before1, dt);
      var t2 := UpdateTemperatures(veh, Braking, before2, dt);
      t1.tireFront == t2.tireFront == 30.0 && t1.tireRear == t2.tireRear == 30.0
    ensures var b := before1.brake + veh.brakeHeatingRate * dt;
      150.0 <= b <= veh.brakeMaxTemp ==> UpdateTemperatures(veh, Braking, before1, dt).brake == b
  {
    MulNonneg(veh.tireInitialTemp, dt);
    assert veh.tireInitialTemp * dt * 0.5 <= veh.tireInitialTemp * dt * 0.8;
  }

  /** The default car's tires sit at 30 degrees after any braking step of the default 0.05 s. */
  lemma DefaultCarBrakingColdTires(before: Temps)
    ensures var t := UpdateTemperatures(DefaultThermalVehicle(), Braking, before, 0.05);
      t.tireFront == 30.0 && t.tireRear == 30.0
  {
    BrakingResetsTireTemperatures(DefaultThermalVehicle(), before, before, 0.05);
  }

  /**
   * From temperatures in range, with non-negative rates and step:
   * accelerating never cools the tires nor heats the brakes, and coasting
   * cools everything.
   */
  lemma HeatFlowDirections(veh: ThermalVehicle, temps: Temps, dt: real)
    requires TempsInRange(veh, temps) && 30.0 <= veh.tireMaxTemp && 150.0 <= veh.brakeMaxTemp
    requires dt >= 0.0 && veh.tireHeatingRate >= 0.0 && veh.tireCoolingRate >= 0.0 && veh.brakeCoolingRate >= 0.0
    ensures var t := UpdateTemperatures(veh, Accelerating, temps, dt);
      t.tireFront >= temps.tireFront && t.tireRear >= temps.tireRear && t.brake <= temps.brake
    ensures var t := UpdateTemperatures(veh, Coasting, temps, dt);
      t.tireFront <= temps.tireFront && t.tireRear <= temps.tireRear && t.brake <= temps.brake
  {
    MulNonneg(veh.tireHeatingRate, dt);
    MulNonneg(veh.tireCoolingRate, dt);
    MulNonneg(veh.brakeCoolingRate, dt);
  }

  // ---------------------------------------------------------------------
  // One step of simulate_lap_enhanced

  /** Everything a step decides before any force is computed. */
  datatype Control = Control(aero: ThermalAero, loads: AxleLoads, limit: SpeedLimit, mode: Mode)

  /**
   * The aero forces, the axle loads at zero acceleration, the corner limit
   * for the summed load at the front tires' temperature, and the mode.
   */
  function ControlAt(veh: ThermalVehicle, radius: Radius, velocity: real, temps: Temps): (c: Control)
    requires velocity >= 0.0 && veh.mass != 0.0 && veh.wheelbase != 0.0 && GripDefined(veh, temps.tireFront)
    ensures c.mode == SelectMode(velocity, c.limit)
    ensures c.loads.front >= 0.0 && c.loads.rear >= 0.0
    ensures radius.Straight? ==> c.mode == Accelerating
  {
    var aero := CalculateAeroForces(veh, velocity);
    var loads := CalculateLoadTransfer(veh, 0.0, aero.downforceFront, aero.downforceRear);
    var limit := CalculateCornerSpeed(veh, radius, loads.front + loads.rear, temps.tireFront);
    Control(aero, loads, limit, SelectMode(velocity, limit))
  }

  /** The net longitudinal force of each mode, from the temperatures before the step. */
  function NetForce(veh: ThermalVehicle, velocity: real, c: Control, temps: Temps): real
    requires ThermalScales(veh)
  {
    match c.mode
    case Braking =>
      -(CalculateMaxBraking(veh, c.loads.front, c.loads.rear, temps.brake, temps.tireFront, temps.tireRear) + c.aero.drag)
    case Accelerating => CalculateMaxAcceleration(veh, velocity, c.loads.rear, temps.tireRear) - c.aero.drag
    case Coasting => -c.aero.drag
  }

  /**
   * The temperature constants no multiplier can divide by zero with,
   * whatever the temperature: both optima and both optimum-to-maximum spans
   * are non-zero.
   */
  predicate ThermalScales(veh: ThermalVehicle)
  {
    veh.tireOptimalTemp != 0.0 && veh.tireMaxTemp != veh.tireOptimalTemp &&
    veh.brakeOptimalTemp != 0.0 && veh.brakeMaxTemp != veh.brakeOptimalTemp
  }

  /** With non-negative drag and loaded axles, only the accelerating mode can push the car forward. */
  lemma NetForceSigns(veh: ThermalVehicle, velocity: real, c: Control, temps: Temps)
    requires ThermalScales(veh) && veh.tireMuPeak >= 0.0 && c.aero.drag >= 0.0
    requires c.loads.front >= 0.0 && c.loads.rear >= 0.0
    ensures c.mode != Accelerating ==> NetForce(veh, velocity, c, temps) <= -c.aero.drag
    ensures c.mode == Accelerating ==> NetForce(veh, velocity, c, temps) <= veh.tireMuPeak * c.loads.rear - c.aero.drag
  {
    if c.mode == Braking {
      MaxBrakingBounds(veh, c.loads.front, c.loads.rear, temps.brake, temps.tireFront, temps.tireRear);
      MulNonneg(veh.tireMuPeak, c.loads.front + 0.7 * c.loads.rear);
    } else if c.mode == Accelerating {
      MaxAccelerationWithinGrip(veh, velocity, c.loads.rear, temps.tireRear);
    }
  }

  /** The lateral g-force: v^2 / (|r| g) in a corner, 0 on a straight. */
  function LateralG(veh: ThermalVehicle, radius: Radius, velocity: real): real
    requires veh.g != 0.0 && BaseLap.NonZeroRadius(radius)
  {
    match radius
    case Straight => 0.0
    case Corner(r) => (velocity * velocity) / (Abs(r) * veh.g)
  }

  /** What one pass of the loop computes. */
  datatype ThermalStep = ThermalStep(control: Control, acceleration: real, lateralG: real, velocity: real, temps: Temps)

  /**
   * One pass of the loop body on a segment of the given radius: the force
   * from the temperatures before the step, then the new temperatures, the
   * acceleration and the clamped new speed.
   */
  function ThermalStepAt(veh: ThermalVehicle, radius: Radius, velocity: real, temps: Temps, dt: real): (s: ThermalStep)
    requires velocity >= 0.0 && veh.mass != 0.0 && veh.wheelbase != 0.0 && veh.g != 0.0
    requires ThermalScales(veh) && BaseLap.NonZeroRadius(radius)
    ensures s.control == ControlAt(veh, radius, velocity, temps)
    ensures s.temps == UpdateTemperatures(veh, s.control.mode, temps, dt)
    ensures s.velocity >= 0.0
    ensures s.velocity == 0.0 || s.velocity == velocity + s.acceleration * dt
  {
    var c := ControlAt(veh, radius, velocity, temps);
    var acceleration := NetForce(veh, velocity, c, temps) / veh.mass;
    ThermalStep(c, acceleration, LateralG(veh, radius, velocity), NextSpeed(velocity, acceleration, dt),
                UpdateTemperatures(veh, c.mode, temps, dt))
  }

  /** For a physical car moving forward in time, braking and coasting never speed it up. */
  lemma ThermalStepBrakingSlows(veh: ThermalVehicle, radius: Radius, velocity: real, temps: Temps, dt: real)
    requires velocity >= 0.0 && veh.mass > 0.0 && veh.wheelbase != 0.0 && veh.g != 0.0
    requires ThermalScales(veh) && BaseLap.NonZeroRadius(radius) && dt >= 0.0
    requires veh.tireMuPeak >= 0.0 && veh.airDensity >= 0.0 && veh.frontalArea >= 0.0
    requires veh.cd >= 0.0 && veh.clFront >= 0.0 && veh.clRear >= 0.0
    ensures var s := ThermalStepAt(veh, radius, velocity, temps, dt);
      s.control.mode != Accelerating ==> s.velocity <= velocity
  {
    var s := ThermalStepAt(veh, radius, velocity, temps, dt);
    AeroForcesShape(veh, velocity);
    if s.control.mode != Accelerating {
      NetForceSigns(veh, velocity, s.control, temps);
      BaseLap.DivNonPositive(NetForce(veh, velocity, s.control, temps), veh.mass);
      MulNonneg(-s.acceleration, dt);
    }
  }

  // ---------------------------------------------------------------------
  // Telemetry and the loop

  const MaxIterations: nat := 100000
  const SampleStride: nat := 10

  /** One telemetry row: the fifteen columns of the source's DataFrame. */
  datatype ThermalRow = ThermalRow(
    time: real,
    distance: real,
    velocityKmh: real,
    acceleration: real,
    downforce: real,
    drag: real,
    throttle: real,
    brake: real,
    lateralG: real,
    longitudinalG: real,
    tireTempFront: real,
    tireTempRear: real,
    brakeTemp: real,
    tireGripMult: real,
    brakeEfficiency: real)

  /** The row after a step: km/h, g units, kN, the pedals, the new temperatures and their multipliers. */
  function Row(veh: ThermalVehicle, s: ThermalStep, time: real, distance: real): (row: ThermalRow)
    requires veh.g != 0.0 && ThermalScales(veh)
    ensures s.velocity >= 0.0 && TempsInRange(veh, s.temps) ==> SaneRow(row, veh)
    ensures row.time == time && row.distance == distance
  {
    var p := Pedals(s.control.mode);
    ThermalRow(time, distance, s.velocity * 3.6, s.acceleration / veh.g, s.control.aero.downforceTotal / 1000.0,
               s.control.aero.drag / 1000.0, p.0, p.1, s.lateralG, s.acceleration / veh.g,
               s.temps.tireFront, s.temps.tireRear, s.temps.brake,
               GripMultiplier(veh, s.temps.tireFront), BrakeEfficiency(veh, s.temps.brake))
  }

  /**
   * What every logged row satisfies: non-negative speed, pedals never both
   * pressed, temperatures in range and multipliers within their clamps.
   */
  predicate SaneRow(row: ThermalRow, veh: ThermalVehicle)
  {
    row.velocityKmh >= 0.0 && row.throttle * row.brake == 0.0 &&
    0.0 <= row.throttle <= 1.0 && 0.0 <= row.brake <= 1.0 &&
    row.acceleration == row.longitudinalG &&
    TempsInRange(veh, Temps(row.tireTempFront, row.tireTempRear, row.brakeTemp)) &&
    0.65 <= row.tireGripMult <= 1.0 && 0.70 <= row.brakeEfficiency <= 1.0
  }

  /** Row k is the sane sample of step (k + 1) * 10. */
  predicate SampledEvery(rows: seq<ThermalRow>, dt: real, veh: ThermalVehicle)
  {
    forall k :: 0 <= k < |rows| ==> SaneRow(rows[k], veh) && rows[k].time == Elapsed((k + 1) * SampleStride, dt)
  }

  predicate DistancesUpTo(rows: seq<ThermalRow>, d: real)
  {
    (forall j, k :: 0 <= j <= k < |rows| ==> rows[j].distance <= rows[k].distance) &&
    (forall k :: 0 <= k < |rows| ==> rows[k].distance <= d)
  }

  lemma LogRow(rows: seq<ThermalRow>, row: ThermalRow, n: nat, dt: real, veh: ThermalVehicle)
    requires SampledEvery(rows, dt, veh) && SaneRow(row, veh)
    requires n >= 1 && |rows| == (n - 1) / SampleStride
    requires n == (n / SampleStride) * SampleStride && n / SampleStride == (n - 1) / SampleStride + 1
    requires row.time == Elapsed(n, dt)
    ensures SampledEvery(rows + [row], dt, veh)
  {
    assert (|rows| + 1) * SampleStride == n;
  }

  /** The loop body after the lookup: one step, the distance it covers and its row. */
  method Advance(veh: ThermalVehicle, radius: Radius, velocity: real, temps: Temps, distance: real, time: real, dt: real)
    returns (velocity': real, temps': Temps, distance': real, row: ThermalRow)
    requires velocity >= 0.0 && veh.mass != 0.0 && veh.wheelbase != 0.0 && veh.g != 0.0
    requires ThermalScales(veh) && BaseLap.NonZeroRadius(radius)
    ensures velocity' == ThermalStepAt(veh, radius, velocity, temps, dt).velocity
    ensures temps' == ThermalStepAt(veh, radius, velocity, temps, dt).temps
    ensures velocity' >= 0.0 && TempsInRange(veh, temps') && distance' == distance + velocity' * dt
    ensures dt >= 0.0 ==> distance' >= distance
    ensures row == Row(veh, ThermalStepAt(veh, radius, velocity, temps, dt), time + dt, distance')
    ensures SaneRow(row, veh) && row.time == time + dt && row.distance == distance'
  {
    var s := ThermalStepAt(veh, radius, velocity, temps, dt);
    velocity' := s.velocity;
    temps' := s.temps;
    distance' := distance + velocity' * dt;
    if dt >= 0.0 {
      MulNonneg(velocity', dt);
    }
    row := Row(veh, s, time + dt, distance');
  }

  /** Log the row when step n is a multiple of 10; `previous` is the distance before the step. */
  method MaybeLog(rows: seq<ThermalRow>, row: ThermalRow, n: nat, dt: real, veh: ThermalVehicle, previous: real)
    returns (rows': seq<ThermalRow>)
    requires n >= 1 && |rows| == (n - 1) / SampleStride
    requires SampledEvery(rows, dt, veh) && SaneRow(row, veh) && row.time == Elapsed(n, dt)
    requires dt >= 0.0 ==> DistancesUpTo(rows, previous) && previous <= row.distance
    ensures |rows'| == n / SampleStride
    ensures rows' == if n % SampleStride == 0 then rows + [row] else rows
    ensures SampledEvery(rows', dt, veh)
    ensures dt >= 0.0 ==> DistancesUpTo(rows', row.distance)
  {
    SampleCountStep(n, SampleStride);
    if n % SampleStride == 0 {
      LogRow(rows, row, n, dt, veh);
      rows' := rows + [row];
    } else {
      rows' := rows;
    }
  }

  // ---------------------------------------------------------------------
  // The trajectory the loop follows: speed, distance and temperatures after n passes from rest.

  /** What the loop needs of car and track to take a step anywhere on the track. */
  predicate Drivable(veh: ThermalVehicle, segs: seq<Segment>)
  {
    veh.mass != 0.0 && veh.wheelbase != 0.0 && veh.g != 0.0 && ThermalScales(veh) &&
    BaseLap.NoZeroRadius(segs) && |segs| > 0
  }

  datatype Point = Point(velocity: real, distance: real, temps: Temps)

  /** The step taken at point p, on the segment the lookup finds under p. */
  function StepFrom(veh: ThermalVehicle, segs: seq<Segment>, p: Point, dt: real): ThermalStep
    requires Drivable(veh, segs) && p.velocity >= 0.0
  {
    ThermalStepAt(veh, SegmentAt(segs, p.distance).value.radius, p.velocity, p.temps, dt)
  }

  /** One pass of the loop: the step's speed and temperatures, and the distance that speed covers in dt. */
  function Next(veh: ThermalVehicle, segs: seq<Segment>, p: Point, dt: real): (q: Point)
    requires Drivable(veh, segs) && p.velocity >= 0.0
    ensures q.velocity >= 0.0 && TempsInRange(veh, q.temps)
    ensures dt >= 0.0 ==> q.distance >= p.distance
  {
    var s := StepFrom(veh, segs, p, dt);
    assert dt >= 0.0 ==> s.velocity * dt >= 0.0 by {
      if dt >= 0.0 {
        MulNonneg(s.velocity, dt);
      }
    }
    Point(s.velocity, p.distance + s.velocity * dt, s.temps)
  }

  /** The row the pass from p logs when its step number is a multiple of the stride. */
  function StepRow(veh: ThermalVehicle, segs: seq<Segment>, p: Point, time: real, dt: real): ThermalRow
    requires Drivable(veh, segs) && p.velocity >= 0.0
  {
    Row(veh, StepFrom(veh, segs, p, dt), time, Next(veh, segs, p, dt).distance)
  }

  /**
   * The points the loop passes through from rest: the first is (0, 0)
   * at the initial temperatures and
   * each is Next of the one before.
   */
  predicate IsRun(veh: ThermalVehicle, segs: seq<Segment>, dt: real,
                  path: seq<Point>)
    requires Drivable(veh, segs)
  {
    |path| > 0 && path[0] == Point(0.0, 0.0, InitialTemps(veh)) &&
    (forall i :: 0 <= i < |path| ==> path[i].velocity >= 0.0) &&
    (forall i {:trigger Next(veh, segs, path[i], dt)} :: 0 <= i < |path| - 1 ==>
       path[i + 1] == Next(veh, segs, path[i], dt))
  }

  /** The row logged by pass (k + 1) * 10 of the run. */
  function SampleRow(veh: ThermalVehicle, segs: seq<Segment>, dt: real, path: seq<Point>, k: nat): ThermalRow
    requires Drivable(veh, segs) && IsRun(veh, segs, dt, path) && k * SampleStride + SampleStride <= |path|
  {
    StepRow(veh, segs, path[k * SampleStride + SampleStride - 1], Elapsed(k * SampleStride + SampleStride, dt), dt)
  }

  /** Row k is the row logged by pass (k + 1) * 10 of the run. */
  predicate LoggedRun(veh: ThermalVehicle, segs: seq<Segment>, dt: real,
                      path: seq<Point>, rows: seq<ThermalRow>)
    requires Drivable(veh, segs) && IsRun(veh, segs, dt, path)
  {
    |rows| * SampleStride < |path| &&
    forall k: nat {:trigger SampleRow(veh, segs, dt, path, k)} :: k < |rows| ==>
      rows[k] == SampleRow(veh, segs, dt, path, k)
  }

  /**
   * The loop state after n passes: the path holds the run's first n + 1
   * points and ends at p, every earlier point was short of the lap length,
   * and the rows are the run's samples.
   */
  predicate OnRun(veh: ThermalVehicle, segs: seq<Segment>, dt: real,
                  total: real, n: nat, path: seq<Point>, p: Point, rows: seq<ThermalRow>)
    requires Drivable(veh, segs)
  {
    IsRun(veh, segs, dt, path) && |path| == n + 1 && path[n] == p &&
    (forall k :: 0 <= k < n ==> path[k].distance < total) &&
    LoggedRun(veh, segs, dt, path, rows)
  }

  /**
   * One more pass from a point short of the lap length stays on the run,
   * once the path and the rows have been extended (RunStep, LogStep).
   */
  lemma OnRunStep(veh: ThermalVehicle, segs: seq<Segment>, dt: real,
                  total: real, n: nat, path: seq<Point>, p: Point, rows: seq<ThermalRow>,
                  p': Point, rows': seq<ThermalRow>)
    requires Drivable(veh, segs) && OnRun(veh, segs, dt, total, n, path, p, rows) && p.distance < total
    requires IsRun(veh, segs, dt, path + [p']) && LoggedRun(veh, segs, dt, path + [p'], rows')
    ensures OnRun(veh, segs, dt, total, n + 1, path + [p'], p', rows')
  {
    assert forall k :: 0 <= k < n + 1 ==> (path + [p'])[k] == path[k];
  }

  /** The pass from the last point logs its row at multiples of the stride and otherwise nothing. */
  lemma LogStep(veh: ThermalVehicle, segs: seq<Segment>, dt: real,
                n: nat, path: seq<Point>, p: Point, p': Point, time: real, rows: seq<ThermalRow>, rows': seq<ThermalRow>)
    requires Drivable(veh, segs) && IsRun(veh, segs, dt, path) && IsRun(veh, segs, dt, path + [p'])
    requires LoggedRun(veh, segs, dt, path, rows) && |path| == n + 1 && path[n] == p && |rows| == n / SampleStride
    requires p.velocity >= 0.0 && time == Elapsed(n + 1, dt)
    requires rows' == if (n + 1) % SampleStride == 0
                      then rows + [StepRow(veh, segs, p, time, dt)]
                      else rows
    ensures LoggedRun(veh, segs, dt, path + [p'], rows')
  {
    SampleCountStep(n + 1, SampleStride);
    if (n + 1) % SampleStride == 0 {
      assert rows' == rows + [StepRow(veh, segs, path[|path| - 1], time, dt)];
      LoggedStep(veh, segs, dt, path, p', rows, time);
    } else {
      LoggedExtend(veh, segs, dt, path, p', rows);
    }
  }

  /** A run extended by Next of its last point is a run. */
  lemma RunStep(veh: ThermalVehicle, segs: seq<Segment>, dt: real,
                path: seq<Point>, p: Point, p': Point)
    requires Drivable(veh, segs) && IsRun(veh, segs, dt, path) && path[|path| - 1] == p
    requires p' == Next(veh, segs, p, dt)
    ensures IsRun(veh, segs, dt, path + [p'])
  {
    var path' := path + [p'];
    forall i | 0 <= i < |path'| - 1
      ensures path'[i + 1] == Next(veh, segs, path'[i], dt)
    {
      assert path'[i] == path[i];
    }
  }

  /** The samples of a run are still its samples once the run goes on. */
  lemma LoggedExtend(veh: ThermalVehicle, segs: seq<Segment>, dt: real,
                     path: seq<Point>, p': Point, rows: seq<ThermalRow>)
    requires Drivable(veh, segs) && IsRun(veh, segs, dt, path) && IsRun(veh, segs, dt, path + [p'])
    requires LoggedRun(veh, segs, dt, path, rows)
    ensures LoggedRun(veh, segs, dt, path + [p'], rows)
  {
    forall k: nat | k < |rows|
      ensures rows[k] == SampleRow(veh, segs, dt, path + [p'], k)
    {
      assert (path + [p'])[k * SampleStride + SampleStride - 1] == path[k * SampleStride + SampleStride - 1];
      assert rows[k] == SampleRow(veh, segs, dt, path, k);
    }
  }

  /** Logging the row of the pass from the last point adds the next sample. */
  lemma LoggedStep(veh: ThermalVehicle, segs: seq<Segment>, dt: real,
                   path: seq<Point>, p': Point, rows: seq<ThermalRow>, time: real)
    requires Drivable(veh, segs) && IsRun(veh, segs, dt, path) && IsRun(veh, segs, dt, path + [p'])
    requires LoggedRun(veh, segs, dt, path, rows)
    requires |rows| * SampleStride + SampleStride == |path| && time == Elapsed(|path|, dt)
    ensures LoggedRun(veh, segs, dt, path + [p'], rows + [StepRow(veh, segs, path[|path| - 1], time, dt)])
  {
    LoggedExtend(veh, segs, dt, path, p', rows);
    var rows' := rows + [StepRow(veh, segs, path[|path| - 1], time, dt)];
    forall k: nat | k < |rows'|
      ensures rows'[k] == SampleRow(veh, segs, dt, path + [p'], k)
    {
      if k < |rows| {
        assert rows'[k] == rows[k];
      } else {
        assert (path + [p'])[k * SampleStride + SampleStride - 1] == path[|path| - 1];
      }
    }
  }

  /**
   * One pass of the loop at step n: the new point is Next of the old one and
   * the step's row is logged at multiples of 10; the other clauses are
   * SimulateLapEnhanced's invariants.
   */
  method Tick(veh: ThermalVehicle, track: Track, n: nat, time: real, distance: real, velocity: real, temps: Temps,
              rows: seq<ThermalRow>, dt: real)
    returns (time': real, distance': real, velocity': real, temps': Temps, rows': seq<ThermalRow>)
    requires Drivable(veh, track.segments)
    requires n >= 1 && velocity >= 0.0 && time == Elapsed(n - 1, dt)
    requires |rows| == (n - 1) / SampleStride && SampledEvery(rows, dt, veh)
    requires dt >= 0.0 ==> DistancesUpTo(rows, distance)
    ensures Point(velocity', distance', temps') == Next(veh, track.segments, Point(velocity, distance, temps), dt)
    ensures rows' == if n % SampleStride == 0
                     then rows + [StepRow(veh, track.segments, Point(velocity, distance, temps), time', dt)]
                     else rows
    ensures velocity' >= 0.0 && TempsInRange(veh, temps') && time' == Elapsed(n, dt)
    ensures |rows'| == n / SampleStride && SampledEvery(rows', dt, veh)
    ensures dt >= 0.0 ==> distance' >= distance && DistancesUpTo(rows', distance')
  {
    var segment := BaseLap.Lookup(track, distance);
    var row;
    velocity', temps', distance', row := Advance(veh, segment.radius, velocity, temps, distance, time, dt);
    time' := time + dt;
    assert row == StepRow(veh, track.segments, Point(velocity, distance, temps), time', dt);
    rows' := MaybeLog(rows, row, n, dt, veh, distance);
  }

  /**
   * The loop body together with the run it follows: the Tick from the last
   * point of the run extends the run by the new point and its samples by
   * the logged row.
   */
  method Pass(veh: ThermalVehicle, track: Track, n: nat, time: real, distance: real, velocity: real, temps: Temps,
              rows: seq<ThermalRow>, dt: real, ghost path: seq<Point>)
    returns (time': real, distance': real, velocity': real, temps': Temps, rows': seq<ThermalRow>,
             ghost path': seq<Point>)
    requires Drivable(veh, track.segments) && distance < track.totalLength
    requires n >= 1 && velocity >= 0.0 && time == Elapsed(n - 1, dt)
    requires |rows| == (n - 1) / SampleStride && SampledEvery(rows, dt, veh)
    requires dt >= 0.0 ==> DistancesUpTo(rows, distance)
    requires OnRun(veh, track.segments, dt, track.totalLength, n - 1, path, Point(velocity, distance, temps), rows)
    ensures velocity' >= 0.0 && TempsInRange(veh, temps') && time' == Elapsed(n, dt)
    ensures |rows'| == n / SampleStride && SampledEvery(rows', dt, veh)
    ensures dt >= 0.0 ==> DistancesUpTo(rows', distance')
    ensures path' == path + [Point(velocity', distance', temps')]
    ensures OnRun(veh, track.segments, dt, track.totalLength, n, path', Point(velocity', distance', temps'), rows')
  {
    ghost var p := Point(velocity, distance, temps);
    time', distance', velocity', temps', rows' := Tick(veh, track, n, time, distance, velocity, temps, rows, dt);
    ghost var p' := Point(velocity', distance', temps');
    RunStep(veh, track.segments, dt, path, p, p');
    LogStep(veh, track.segments, dt, n - 1, path, p, p', time', rows, rows');
    OnRunStep(veh, track.segments, dt, track.totalLength, n - 1, path, p, rows, p', rows');
    path' := path + [p'];
  }

  /**
   * simulate_lap_enhanced. `steps`, `finalDistance` and `finalTemps` are
   * the source's local counters and temperatures at the end of the loop.
   */
  method SimulateLapEnhanced(veh: ThermalVehicle, track: Track, dt: real)
    returns (telemetry: seq<ThermalRow>, lapTime: real, ghost steps: nat, ghost finalDistance: real,
             ghost finalTemps: Temps, ghost path: seq<Point>)
    requires |track.segments| > 0 || track.totalLength <= 0.0
    requires veh.mass != 0.0 && veh.wheelbase != 0.0 && veh.g != 0.0 && ThermalScales(veh)
    requires BaseLap.NoZeroRadius(track.segments)
    ensures steps <= MaxIterations
    ensures steps == MaxIterations || finalDistance >= track.totalLength
    ensures track.totalLength <= 0.0 ==> steps == 0 && telemetry == [] && lapTime == 0.0
    ensures steps == 0 ==> finalTemps == InitialTemps(veh)
    ensures steps > 0 ==> TempsInRange(veh, finalTemps)
    ensures |track.segments| > 0 ==>
      |path| == steps + 1 && path[steps].distance == finalDistance && path[steps].temps == finalTemps &&
      OnRun(veh, track.segments, dt, track.totalLength, steps, path, path[steps], telemetry)
    ensures lapTime == Elapsed(steps, dt) && ReadsSteps(lapTime, steps, dt)
    ensures |telemetry| == steps / SampleStride
    ensures SampledEvery(telemetry, dt, veh)
    ensures dt >= 0.0 ==> DistancesUpTo(telemetry, finalDistance)
  {
    var time := 0.0;
    var distance := 0.0;
    var velocity := 0.0;
    var temps := InitialTemps(veh);
    telemetry := [];
    var iterations: nat := 0;
    path := [Point(0.0, 0.0, temps)];
    while distance < track.totalLength && iterations < MaxIterations
      invariant iterations <= MaxIterations && velocity >= 0.0
      invariant iterations == 0 ==> distance == 0.0 && velocity == 0.0 && temps == InitialTemps(veh)
      invariant iterations > 0 ==> track.totalLength > 0.0 && TempsInRange(veh, temps)
      invariant time == Elapsed(iterations, dt)
      invariant |telemetry| == iterations / SampleStride
      invariant SampledEvery(telemetry, dt, veh)
      invariant dt >= 0.0 ==> DistancesUpTo(telemetry, distance)
      invariant |track.segments| > 0 ==>
        OnRun(veh, track.segments, dt, track.totalLength, iterations, path, Point(velocity, distance, temps), telemetry)
      decreases MaxIterations - iterations
    {
      iterations := iterations + 1;
      time, distance, velocity, temps, telemetry, path :=
        Pass(veh, track, iterations, time, distance, velocity, temps, telemetry, dt, path);
    }
    lapTime := time;
    steps := iterations;
    finalDistance := distance;
    finalTemps := temps;
    ClockReadsSteps(lapTime, steps, dt);
  }
}
