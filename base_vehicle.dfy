// The point-mass car of src/f1_simulation.py: aerodynamic forces with the
// DRS switch, traction/brake/cornering limits, fuel-dependent mass, axle
// loads under longitudinal load transfer, and the tire friction circle.
// Every method of the source class only reads the car's fields, so the car
// is a value here.

module BaseVehicle {
  import opened Common

  datatype Vehicle = Vehicle(
    mass: real,
    wheelbase: real,
    trackWidth: real,
    cgHeight: real,
    weightDistFront: real,
    cd: real,
    clFront: real,
    clRear: real,
    frontalArea: real,
    airDensity: real,
    maxPower: real,
    tireMuPeak: real,
    g: real)

  /** F1Vehicle() as constructed (the Pacejka and gearbox fields are not used by the modelled operations). */
  const DefaultVehicle := Vehicle(798.0, 3.6, 1.8, 0.35, 0.45, 0.70, 1.8, 1.7, 1.5, 1.225, 746000.0, 1.8, 9.81)

  /** The aerodynamic coefficients and the air are physical, hence non-negative. */
  predicate PhysicalAero(veh: Vehicle)
  {
    veh.airDensity >= 0.0 && veh.frontalArea >= 0.0 && veh.cd >= 0.0 && veh.clFront >= 0.0 && veh.clRear >= 0.0
  }

  datatype Aero = Aero(drag: real, downforceTotal: real, downforceFront: real, downforceRear: real)

  /** Dynamic pressure times area, 0.5 * rho * A * v^2: each force is this times its coefficient. */
  function PressureArea(veh: Vehicle, velocity: real): real
  {
    0.5 * veh.airDensity * veh.frontalArea * (velocity * velocity)
  }

  function CalculateAeroForces(veh: Vehicle, velocity: real, drs: bool): Aero
  {
    var vSquared := velocity * velocity;
    var cdActive := if drs then veh.cd * 0.7 else veh.cd;
    var clRearActive := if drs then veh.clRear * 0.5 else veh.clRear;
    var drag := 0.5 * veh.airDensity * cdActive * veh.frontalArea * vSquared;
    var front := 0.5 * veh.airDensity * veh.clFront * veh.frontalArea * vSquared;
    var rear := 0.5 * veh.airDensity * clRearActive * veh.frontalArea * vSquared;
    Aero(drag, front + rear, front, rear)
  }

  /** Each force is its coefficient times 0.5 rho A v^2; with physical coefficients none is negative. */
  lemma AeroForcesShape(veh: Vehicle, velocity: real, drs: bool)
    ensures var a := CalculateAeroForces(veh, velocity, drs);
      var q := PressureArea(veh, velocity);
      a.drag == (if drs then veh.cd * 0.7 else veh.cd) * q &&
      a.downforceFront == veh.clFront * q &&
      a.downforceRear == (if drs then veh.clRear * 0.5 else veh.clRear) * q &&
      a.downforceTotal == a.downforceFront + a.downforceRear
    ensures PhysicalAero(veh) ==>
      var a := CalculateAeroForces(veh, velocity, drs);
      a.drag >= 0.0 && a.downforceFront >= 0.0 && a.downforceRear >= 0.0 &&
      a.downforceTotal >= a.downforceFront && a.downforceTotal >= a.downforceRear
  {
    var q := PressureArea(veh, velocity);
    var a := CalculateAeroForces(veh, velocity, drs);
    var v2 := velocity * velocity;
    var cdA := if drs then veh.cd * 0.7 else veh.cd;
    var clR := if drs then veh.clRear * 0.5 else veh.clRear;
    assert a.drag == cdA * q by {
      assert 0.5 * veh.airDensity * cdA * veh.frontalArea * v2 == cdA * (0.5 * veh.airDensity * veh.frontalArea * v2);
    }
    assert a.downforceFront == veh.clFront * q by {
      assert 0.5 * veh.airDensity * veh.clFront * veh.frontalArea * v2
          == veh.clFront * (0.5 * veh.airDensity * veh.frontalArea * v2);
    }
    assert a.downforceRear == clR * q by {
      assert 0.5 * veh.airDensity * clR * veh.frontalArea * v2 == clR * (0.5 * veh.airDensity * veh.frontalArea * v2);
    }
    if PhysicalAero(veh) {
      SquareNonneg(velocity);
      MulNonneg(veh.airDensity, veh.frontalArea);
      MulNonneg(veh.airDensity * veh.frontalArea, v2);
      assert q >= 0.0;
      MulNonneg(cdA, q);
      MulNonneg(veh.clFront, q);
      MulNonneg(clR, q);
    }
  }

  /**
   * DRS multiplies drag by 0.7 and rear downforce by 0.5 and leaves front
   * downforce alone; at any non-zero speed drag, rear and total downforce
   * all drop.
   */
  lemma AeroDrsEffect(veh: Vehicle, velocity: real)
    requires veh.airDensity > 0.0 && veh.frontalArea > 0.0 && veh.cd > 0.0 && veh.clRear > 0.0
    requires velocity != 0.0
    ensures var on := CalculateAeroForces(veh, velocity, true);
      var off := CalculateAeroForces(veh, velocity, false);
      on.drag == off.drag * 0.7 && on.drag < off.drag &&
      on.downforceRear == off.downforceRear * 0.5 && on.downforceRear < off.downforceRear &&
      on.downforceFront == off.downforceFront &&
      on.downforceTotal < off.downforceTotal
  {
    PressurePositive(veh, velocity);
    AeroForcesShape(veh, velocity, true);
    AeroForcesShape(veh, velocity, false);
    var q := PressureArea(veh, velocity);
    MulPos(veh.cd, q);
    MulPos(veh.clRear, q);
  }

  lemma PressurePositive(veh: Vehicle, velocity: real)
    requires veh.airDensity > 0.0 && veh.frontalArea > 0.0 && velocity != 0.0
    ensures PressureArea(veh, velocity) > 0.0
  {
    var c := 0.5 * veh.airDensity * veh.frontalArea;
    MulPos(0.5 * veh.airDensity, veh.frontalArea);
    if velocity > 0.0 {
      MulPos(c, velocity);
      MulPos(c * velocity, velocity);
      assert c * velocity * velocity == PressureArea(veh, velocity);
    } else {
      MulPos(c, -velocity);
      MulPos(c * -velocity, -velocity);
      assert c * -velocity * -velocity == PressureArea(veh, velocity);
    }
  }

  // ---------------------------------------------------------------------
  // Traction, braking and cornering limits

  /** The friction force the whole car can transmit: mu_peak (m g + downforce). */
  function TireLimit(veh: Vehicle, downforceTotal: real): real
  {
    veh.tireMuPeak * (veh.mass * veh.g + downforceTotal)
  }

  /** Power-limited above 5 m/s, tire-limited below, and never above 70 % of the tire limit. */
  function CalculateMaxAcceleration(veh: Vehicle, velocity: real, downforceTotal: real): (f: real)
    ensures f <= TireLimit(veh, downforceTotal) * 0.7
    ensures velocity > 5.0 ==> f <= veh.maxPower / velocity
    ensures veh.maxPower >= 0.0 && TireLimit(veh, downforceTotal) >= 0.0 ==> f >= 0.0
  {
    var maxTireForce := TireLimit(veh, downforceTotal);
    var engineForce := if velocity > 5.0 then veh.maxPower / velocity else maxTireForce;
    Min(engineForce, maxTireForce * 0.7)
  }

  function CalculateMaxBraking(veh: Vehicle, velocity: real, downforceTotal: real): (f: real)
    ensures TireLimit(veh, downforceTotal) >= 0.0 ==> 0.0 <= f <= TireLimit(veh, downforceTotal)
  {
    veh.tireMuPeak * (veh.mass * veh.g + downforceTotal) * 0.8
  }

  /** Whenever the tire limit is non-negative the car brakes at least as hard as it can accelerate. */
  lemma BrakingExceedsTraction(veh: Vehicle, velocity: real, downforceTotal: real)
    requires TireLimit(veh, downforceTotal) >= 0.0
    ensures CalculateMaxAcceleration(veh, velocity, downforceTotal) <= CalculateMaxBraking(veh, velocity, downforceTotal)
  {
  }

  /** The mass a corner-speed call uses: the argument, else the car's own mass. */
  function MassOrDefault(veh: Vehicle, mass: Option<real>): real
  {
    if mass.Some? then mass.value else veh.mass
  }

  /**
   * calculate_corner_speed, squared: inf for an infinite radius, otherwise
   * v^2 = mu_peak (m g + downforce) / m * |r|.
   */
  function CalculateCornerSpeed(veh: Vehicle, radius: Radius, downforceTotal: real, mass: Option<real>): (lim: SpeedLimit)
    requires radius.Corner? ==> MassOrDefault(veh, mass) != 0.0
    ensures lim.Unbounded? <==> radius.Straight?
  {
    match radius
    case Straight => Unbounded
    case Corner(r) => Bounded(LateralGripPerKg(veh, downforceTotal, MassOrDefault(veh, mass)) * Abs(r))
  }

  /**
   * A loaded car with non-negative friction has a real corner speed: the
   * square the source takes the root of is not negative.
   */
  lemma CornerSpeedReal(veh: Vehicle, r: real, downforceTotal: real, mass: Option<real>)
    requires veh.tireMuPeak >= 0.0 && MassOrDefault(veh, mass) > 0.0
    requires MassOrDefault(veh, mass) * veh.g + downforceTotal >= 0.0
    ensures CalculateCornerSpeed(veh, Corner(r), downforceTotal, mass).sq >= 0.0
  {
    var m := MassOrDefault(veh, mass);
    MulNonneg(veh.tireMuPeak, m * veh.g + downforceTotal);
    QuotientTimesNonneg(veh.tireMuPeak * (m * veh.g + downforceTotal), m, Abs(r));
  }

  /** The lateral acceleration the tires allow: mu_peak (m g + downforce) / m. */
  function LateralGripPerKg(veh: Vehicle, downforceTotal: real, m: real): real
    requires m != 0.0
  {
    veh.tireMuPeak * (m * veh.g + downforceTotal) / m
  }

  lemma CornerSpeedDefaultMass(veh: Vehicle, radius: Radius, downforceTotal: real)
    requires radius.Corner? ==> veh.mass != 0.0
    ensures CalculateCornerSpeed(veh, radius, downforceTotal, None) ==
            CalculateCornerSpeed(veh, radius, downforceTotal, Some(veh.mass))
  {
  }

  /** With positive lateral grip per kilogram, the corner speed strictly grows with |radius|. */
  lemma CornerSpeedIncreasesWithRadius(veh: Vehicle, r1: real, r2: real, downforceTotal: real, mass: Option<real>)
    requires MassOrDefault(veh, mass) != 0.0
    requires LateralGripPerKg(veh, downforceTotal, MassOrDefault(veh, mass)) > 0.0
    requires Abs(r1) < Abs(r2)
    ensures CalculateCornerSpeed(veh, Corner(r1), downforceTotal, mass).sq <
            CalculateCornerSpeed(veh, Corner(r2), downforceTotal, mass).sq
  {
    var k := LateralGripPerKg(veh, downforceTotal, MassOrDefault(veh, mass));
    MulLtRight(Abs(r1), Abs(r2), k);
    assert Abs(r1) * k == k * Abs(r1) && Abs(r2) * k == k * Abs(r2);
  }

  /** The default car is slower through a 30 m corner than through a 200 m one. */
  lemma SmallerRadiusIsSlower()
    ensures CalculateCornerSpeed(DefaultVehicle, Corner(30.0), 0.0, None).sq <
            CalculateCornerSpeed(DefaultVehicle, Corner(200.0), 0.0, None).sq
  {
    CornerSpeedIncreasesWithRadius(DefaultVehicle, 30.0, 200.0, 0.0, None);
  }

  /** Fuel burns at 1.5 kg/km down to the 798 kg minimum. */
  function GetCurrentMass(veh: Vehicle, distanceKm: real): (m: real)
    ensures m >= 798.0
    ensures m >= veh.mass - distanceKm * 1.5
  {
    Max(798.0, veh.mass - distanceKm * 1.5)
  }

  lemma CurrentMassNonIncreasing(veh: Vehicle, km1: real, km2: real)
    requires km1 <= km2
    ensures GetCurrentMass(veh, km2) <= GetCurrentMass(veh, km1)
  {
  }

  /** DRS on straights and fast corners, strictly above 100 km/h. */
  predicate CanUseDrs(segmentType: string, speedKmh: real)
  {
    segmentType in ["straight", "fast_corner"] && speedKmh > 100.0
  }

  lemma CanUseDrsExactly(segmentType: string, speedKmh: real)
    ensures CanUseDrs(segmentType, speedKmh) <==>
            (segmentType == "straight" || segmentType == "fast_corner") && speedKmh > 100.0
    ensures !CanUseDrs(segmentType, 100.0)
  {
  }

  // ---------------------------------------------------------------------
  // Axle loads

  /** Static axle weights before any transfer. */
  function StaticFront(veh: Vehicle): real { veh.mass * veh.g * veh.weightDistFront }
  function StaticRear(veh: Vehicle): real { veh.mass * veh.g * (1.0 - veh.weightDistFront) }

  /** get_axle_normal_loads: static split plus longitudinal transfer, each axle floored at 1 N. */
  function GetAxleNormalLoads(veh: Vehicle, longitudinalAcc: real, lateralAcc: real): (loads: (real, real))
    requires veh.wheelbase != 0.0 && veh.trackWidth != 0.0
    ensures loads.0 >= 1.0 && loads.1 >= 1.0
  {
    var weight := veh.mass * veh.g;
    var weightFront := weight * veh.weightDistFront;
    var weightRear := weight * (1.0 - veh.weightDistFront);
    var longTransfer := (longitudinalAcc * veh.mass * veh.cgHeight) / veh.wheelbase;
    // Computed by the source and then never used.
    var latTransfer := (lateralAcc * veh.mass * veh.cgHeight) / veh.trackWidth;
    (Max(1.0, weightFront - longTransfer), Max(1.0, weightRear + longTransfer))
  }

  /** At zero acceleration the axles carry the whole weight when neither static share is below 1 N. */
  lemma AxleLoadsStaticSum(veh: Vehicle, lateralAcc: real)
    requires veh.wheelbase != 0.0 && veh.trackWidth != 0.0
    requires StaticFront(veh) >= 1.0 && StaticRear(veh) >= 1.0
    ensures GetAxleNormalLoads(veh, 0.0, lateralAcc).0 + GetAxleNormalLoads(veh, 0.0, lateralAcc).1 == veh.mass * veh.g
  {
    var w := veh.mass * veh.g;
    assert w * veh.weightDistFront + w * (1.0 - veh.weightDistFront) == w;
    assert (0.0 * veh.mass * veh.cgHeight) / veh.wheelbase == 0.0;
  }

  /** Accelerating moves load from the front axle to the rear one. */
  lemma AxleLoadsTransferToRear(veh: Vehicle, acc: real, lateralAcc: real)
    requires veh.wheelbase > 0.0 && veh.trackWidth != 0.0 && veh.mass > 0.0 && veh.cgHeight > 0.0
    requires acc > 0.0
    requires StaticFront(veh) > 1.0 && StaticRear(veh) >= 1.0
    ensures GetAxleNormalLoads(veh, acc, lateralAcc).1 > GetAxleNormalLoads(veh, 0.0, lateralAcc).1
    ensures GetAxleNormalLoads(veh, acc, lateralAcc).0 < GetAxleNormalLoads(veh, 0.0, lateralAcc).0
  {
    MulPos(acc, veh.mass);
    MulPos(acc * veh.mass, veh.cgHeight);
    var t := (acc * veh.mass * veh.cgHeight) / veh.wheelbase;
    assert t > 0.0;
    assert (0.0 * veh.mass * veh.cgHeight) / veh.wheelbase == 0.0;
  }

  /** The lateral acceleration argument has no effect on the result. */
  lemma AxleLoadsIgnoreLateral(veh: Vehicle, acc: real, lat1: real, lat2: real)
    requires veh.wheelbase != 0.0 && veh.trackWidth != 0.0
    ensures GetAxleNormalLoads(veh, acc, lat1) == GetAxleNormalLoads(veh, acc, lat2)
  {
  }

  // ---------------------------------------------------------------------
  // Tire friction

  /**
   * _tire_mu_vs_normal. log10 is a parameter: only its use at loads of
   * 5000 N and above is modelled, and the clamp does not depend on it.
   */
  function TireMuVsNormal(veh: Vehicle, normalForce: real, log10: real -> real): (mu: real)
    ensures 0.8 <= mu <= Max(0.8, veh.tireMuPeak)
    ensures 2000.0 <= normalForce < 5000.0 ==> mu == Max(0.8, veh.tireMuPeak)
  {
    var baseMu := veh.tireMuPeak;
    var mu :=
      if normalForce < 2000.0 then LightLoadMu(baseMu, normalForce)
      else if normalForce < 5000.0 then baseMu
      else HeavyLoadMu(baseMu, log10(normalForce / 5000.0));
    Max(0.8, Min(baseMu, mu))
  }

  /** Below 2000 N the coefficient falls in proportion to the load, with a 0.9 factor. */
  function LightLoadMu(baseMu: real, normalForce: real): real
  {
    baseMu * (normalForce / 2000.0) * 0.9
  }

  /** Above 5000 N the coefficient loses 5% per decade of load. */
  function HeavyLoadMu(baseMu: real, decades: real): real
  {
    baseMu * (1.0 - 0.05 * decades)
  }

  /** The radius of the friction circle: mu times the normal load. */
  function MaxTireForce(veh: Vehicle, normalForce: real, log10: real -> real): (m: real)
    ensures normalForce >= 0.0 ==> m >= 0.0
  {
    var mu := TireMuVsNormal(veh, normalForce, log10);
    NonNegativeWhenLoaded(mu, normalForce);
    mu * normalForce
  }

  /**
   * The friction-circle step of calculate_combined_tire_force. fx and fy are
   * the Pacejka forces; `combined` is their Euclidean norm, which the source
   * takes with a square root.
   */
  function CalculateCombinedTireForce(veh: Vehicle, fx: real, fy: real, normalForce: real,
                                      log10: real -> real, combined: real): (f: (real, real))
    requires combined >= 0.0 && combined * combined == fx * fx + fy * fy
    ensures InsideCircle(f, MaxTireForce(veh, normalForce, log10))
    ensures combined <= MaxTireForce(veh, normalForce, log10) ==> f == (fx, fy)
    ensures f.0 * fy == f.1 * fx
    ensures normalForce >= 0.0 ==> f.0 * fx >= 0.0 && f.1 * fy >= 0.0
  {
    var maxForce := MaxTireForce(veh, normalForce, log10);
    if combined > maxForce then
      FrictionScaled(fx, fy, combined, maxForce)
    else
      SquareLe(combined, maxForce);
      (fx, fy)
  }

  /** The force (fx, fy) lies in the friction circle of radius r: fx^2 + fy^2 <= r^2. */
  predicate InsideCircle(f: (real, real), r: real)
  {
    f.0 * f.0 + f.1 * f.1 <= r * r
  }

  /** Scales (fx, fy) by maxForce / (combined + 1e-6), back inside the friction circle. */
  function FrictionScaled(fx: real, fy: real, combined: real, maxForce: real): (f: (real, real))
    requires combined >= 0.0 && combined * combined == fx * fx + fy * fy
    requires combined > maxForce
    ensures InsideCircle(f, maxForce)
    ensures f.0 * fy == f.1 * fx
    ensures maxForce >= 0.0 ==> f.0 * fx >= 0.0 && f.1 * fy >= 0.0
  {
    var scale := maxForce / (combined + 0.000001);
    FrictionScaleFacts(fx, fy, combined, maxForce, scale);
    (fx * scale, fy * scale)
  }

  lemma FrictionScaleFacts(fx: real, fy: real, combined: real, maxForce: real, scale: real)
    requires combined >= 0.0 && combined * combined == fx * fx + fy * fy
    requires combined > maxForce && scale == maxForce / (combined + 0.000001)
    ensures (fx * scale) * (fx * scale) + (fy * scale) * (fy * scale) <= maxForce * maxForce
    ensures (fx * scale) * fy == (fy * scale) * fx
    ensures maxForce >= 0.0 ==> (fx * scale) * fx >= 0.0 && (fy * scale) * fy >= 0.0
  {
    var d := combined + 0.000001;
    assert scale * d == maxForce;
    var sc := scale * combined;
    assert sc == maxForce - scale * 0.000001;
    if maxForce >= 0.0 {
      assert scale >= 0.0;
      MulNonneg(scale, fx * fx);
      MulNonneg(scale, fy * fy);
      assert (fx * scale) * fx == scale * (fx * fx);
      assert (fy * scale) * fy == scale * (fy * fy);
      MulNonneg(scale, combined);
      assert 0.0 <= sc <= maxForce;
      MulLeRight(sc, maxForce, sc);
      MulLeRight(sc, maxForce, maxForce);
    } else {
      assert scale < 0.0;
      assert sc <= 0.0 by { MulLeRight(scale, 0.0, combined); }
      assert maxForce <= sc;
      MulLeRight(maxForce, sc, -sc);
      MulLeRight(maxForce, sc, -maxForce);
    }
    assert sc * sc <= maxForce * maxForce;
    calc {
      (fx * scale) * (fx * scale) + (fy * scale) * (fy * scale);
      (scale * scale) * (fx * fx + fy * fy);
      (scale * scale) * (combined * combined);
      sc * sc;
    }
  }

  lemma NonNegativeWhenLoaded(mu: real, normalForce: real)
    requires mu >= 0.0
    ensures normalForce >= 0.0 ==> mu * normalForce >= 0.0
  {
    if normalForce >= 0.0 {
      MulNonneg(mu, normalForce);
    }
  }

  /** The combined force never exceeds mu_peak times a non-negative normal load (for mu_peak of at least 0.8). */
  lemma CombinedForceWithinPeak(veh: Vehicle, fx: real, fy: real, normalForce: real,
                                log10: real -> real, combined: real)
    requires combined >= 0.0 && combined * combined == fx * fx + fy * fy
    requires normalForce >= 0.0 && veh.tireMuPeak >= 0.8
    ensures InsideCircle(CalculateCombinedTireForce(veh, fx, fy, normalForce, log10, combined),
                         veh.tireMuPeak * normalForce)
  {
    var f := CalculateCombinedTireForce(veh, fx, fy, normalForce, log10, combined);
    MaxTireForceWithinPeak(veh, normalForce, log10);
    WithinLargerCircle(f, MaxTireForce(veh, normalForce, log10), veh.tireMuPeak * normalForce);
  }

  /** The friction circle's radius is at most mu_peak N on a loaded tire. */
  lemma MaxTireForceWithinPeak(veh: Vehicle, normalForce: real, log10: real -> real)
    requires normalForce >= 0.0 && veh.tireMuPeak >= 0.8
    ensures MaxTireForce(veh, normalForce, log10) <= veh.tireMuPeak * normalForce
  {
    MulLeRight(TireMuVsNormal(veh, normalForce, log10), veh.tireMuPeak, normalForce);
  }

  /** A force inside a circle is inside any larger one. */
  lemma WithinLargerCircle(f: (real, real), r1: real, r2: real)
    requires 0.0 <= r1 <= r2 && InsideCircle(f, r1)
    ensures InsideCircle(f, r2)
  {
    SquareLe(r1, r2);
  }
}
