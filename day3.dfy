// archive/f1_simulator_day3.py: the day-3 car, which burns fuel by the
// metre covered and opens DRS on any fast straight, and its lap
// integrator. Its Track class is the shared Tracks.Track.

module Day3 {
  import opened Common
  import opened Tracks
  import BaseLap

  datatype Day3Vehicle = Day3Vehicle(
    massEmpty: real,
    fuelLoad: real,
    fuelConsumptionRate: real,
    cd: real,
    cdDrs: real,
    clFront: real,
    clRear: real,
    clRearDrs: real,
    frontalArea: real,
    airDensity: real,
    drsMinSpeed: real,
    drsAvailable: bool,
    wheelbase: real,
    trackWidth: real,
    cgHeight: real,
    weightDistFront: real,
    maxPower: real,
    tireMuPeak: real,
    g: real)

  /** F1Vehicle(fuel_load) as constructed; the Pacejka and thermal fields are not used by this file. */
  function DefaultDay3Vehicle(fuelLoad: real): Day3Vehicle
  {
    Day3Vehicle(798.0, fuelLoad, 1.8, 0.70, 0.55, 1.8, 1.7, 1.4, 1.5, 1.225, 80.0, true,
                3.6, 1.8, 0.35, 0.45, 746000.0, 1.8, 9.81)
  }

  // ---------------------------------------------------------------------
  // Fuel

  /** The fuel burned over a distance in metres: distance / 1000 * kg per km. */
  function FuelBurned(veh: Day3Vehicle, distance: real): (b: real)
    ensures distance >= 0.0 && veh.fuelConsumptionRate >= 0.0 ==> b >= 0.0
  {
    var burned := (distance / 1000.0) * veh.fuelConsumptionRate;
    if distance >= 0.0 && veh.fuelConsumptionRate >= 0.0 then
      MulNonneg(distance / 1000.0, veh.fuelConsumptionRate);
      burned
    else burned
  }

  /** The fuel left, floored at zero: what get_current_mass adds and the fuel_mass column logs. */
  function FuelRemaining(veh: Day3Vehicle, distance: real): (f: real)
    ensures f >= 0.0
    ensures distance >= 0.0 && veh.fuelConsumptionRate >= 0.0 ==> f <= Max(0.0, veh.fuelLoad)
  {
    Max(0.0, veh.fuelLoad - FuelBurned(veh, distance))
  }

  /** More distance never leaves more fuel. */
  lemma FuelRemainingNonIncreasing(veh: Day3Vehicle, d1: real, d2: real)
    requires d1 <= d2 && veh.fuelConsumptionRate >= 0.0
    ensures FuelRemaining(veh, d2) <= FuelRemaining(veh, d1)
  {
    DivMonotone(d1, d2, 1000.0);
    MulLeRight(d1 / 1000.0, d2 / 1000.0, veh.fuelConsumptionRate);
  }

  /** get_current_mass: the empty car plus the fuel left after `distance` metres. */
  function GetCurrentMass(veh: Day3Vehicle, distance: real): (m: real)
    ensures m >= veh.massEmpty
    ensures distance >= 0.0 && veh.fuelConsumptionRate >= 0.0 && veh.fuelLoad >= 0.0 ==>
            m <= veh.massEmpty + veh.fuelLoad
  {
    veh.massEmpty + FuelRemaining(veh, distance)
  }

  lemma CurrentMassNonIncreasing(veh: Day3Vehicle, d1: real, d2: real)
    requires d1 <= d2 && veh.fuelConsumptionRate >= 0.0
    ensures GetCurrentMass(veh, d2) <= GetCurrentMass(veh, d1)
  {
    FuelRemainingNonIncreasing(veh, d1, d2);
  }

  /** At the start line the car carries its whole (non-negative) fuel load. */
  lemma CurrentMassAtStart(veh: Day3Vehicle)
    requires veh.fuelLoad >= 0.0
    ensures GetCurrentMass(veh, 0.0) == veh.massEmpty + veh.fuelLoad
  {
  }

  /**
   * The argument is in metres: after k kilometres the car has burned k
   * times the rate, as long as fuel is left.
   */
  lemma CurrentMassPerKilometre(veh: Day3Vehicle, km: real)
    requires veh.fuelLoad >= km * veh.fuelConsumptionRate
    ensures GetCurrentMass(veh, km * 1000.0) == veh.massEmpty + veh.fuelLoad - km * veh.fuelConsumptionRate
  {
    assert (km * 1000.0) / 1000.0 == km;
  }

  /** The default car with 110 kg of fuel weighs 906.2 kg after its first kilometre. */
  lemma DefaultCarAfterOneKilometre()
    ensures GetCurrentMass(DefaultDay3Vehicle(110.0), 1000.0) == 906.2
  {
    CurrentMassPerKilometre(DefaultDay3Vehicle(110.0), 1.0);
  }

  // ---------------------------------------------------------------------
  // DRS and aerodynamics

  /** can_use_drs: an infinite radius, at least the minimum speed, and DRS allowed on straights. */
  predicate CanUseDrs(veh: Day3Vehicle, radius: Radius, velocityKmh: real)
  {
    radius.Straight? && velocityKmh >= veh.drsMinSpeed && veh.drsAvailable
  }

  /** For the default car DRS opens exactly on straights at 80 km/h or more. */
  lemma DefaultDrsRule(fuelLoad: real, radius: Radius, velocityKmh: real)
    ensures CanUseDrs(DefaultDay3Vehicle(fuelLoad), radius, velocityKmh) <==> radius.Straight? && velocityKmh >= 80.0
    ensures radius.Corner? ==> !CanUseDrs(DefaultDay3Vehicle(fuelLoad), radius, velocityKmh)
  {
  }

  datatype Aero = Aero(drag: real, downforceTotal: real, downforceFront: real, downforceRear: real)

  /** 1/2 rho A v^2, the factor every aero force shares. */
  function PressureArea(veh: Day3Vehicle, velocity: real): real
  {
    0.5 * veh.airDensity * veh.frontalArea * (velocity * velocity)
  }

  /** calculate_aero_forces: DRS swaps Cd and Cl_rear for their DRS values. */
  function CalculateAeroForces(veh: Day3Vehicle, velocity: real, drsActive: bool): (a: Aero)
    ensures a.downforceTotal == a.downforceFront + a.downforceRear
  {
    var vSquared := velocity * velocity;
    var drag := 0.5 * veh.airDensity * (if drsActive then veh.cdDrs else veh.cd) * veh.frontalArea * vSquared;
    var rear := 0.5 * veh.airDensity * (if drsActive then veh.clRearDrs else veh.clRear) * veh.frontalArea * vSquared;
    var front := 0.5 * veh.airDensity * veh.clFront * veh.frontalArea * vSquared;
    Aero(drag, front + rear, front, rear)
  }

  /** Each force is its coefficient times 1/2 rho A v^2; the front downforce does not depend on DRS. */
  lemma AeroForcesShape(veh: Day3Vehicle, velocity: real, drsActive: bool)
    ensures var a := CalculateAeroForces(veh, velocity, drsActive);
      var q := PressureArea(veh, velocity);
      a.drag == (if drsActive then veh.cdDrs else veh.cd) * q &&
      a.downforceRear == (if drsActive then veh.clRearDrs else veh.clRear) * q &&
      a.downforceFront == veh.clFront * q
    ensures CalculateAeroForces(veh, velocity, true).downforceFront == CalculateAeroForces(veh, velocity, false).downforceFront
  {
    var v2 := velocity * velocity;
    var cd := if drsActive then veh.cdDrs else veh.cd;
    var cl := if drsActive then veh.clRearDrs else veh.clRear;
    assert 0.5 * veh.airDensity * cd * veh.frontalArea * v2 == cd * (0.5 * veh.airDensity * veh.frontalArea * v2);
    assert 0.5 * veh.airDensity * cl * veh.frontalArea * v2 == cl * (0.5 * veh.airDensity * veh.frontalArea * v2);
    assert 0.5 * veh.airDensity * veh.clFront * veh.frontalArea * v2
        == veh.clFront * (0.5 * veh.airDensity * veh.frontalArea * v2);
  }

  /** The shared factor is non-negative for non-negative density and area, and positive when moving. */
  lemma PressureAreaSign(veh: Day3Vehicle, velocity: real)
    requires veh.airDensity >= 0.0 && veh.frontalArea >= 0.0
    ensures PressureArea(veh, velocity) >= 0.0
    ensures veh.airDensity > 0.0 && veh.frontalArea > 0.0 && velocity != 0.0 ==> PressureArea(veh, velocity) > 0.0
  {
    var c := 0.5 * veh.airDensity * veh.frontalArea;
    MulNonneg(0.5 * veh.airDensity, veh.frontalArea);
    var u := if velocity >= 0.0 then velocity else -velocity;
    MulNonneg(c, u);
    MulNonneg(c * u, u);
    assert c * u * u == PressureArea(veh, velocity);
    if veh.airDensity > 0.0 && veh.frontalArea > 0.0 && velocity != 0.0 {
      MulPos(0.5 * veh.airDensity, veh.frontalArea);
      MulPos(c, u);
      MulPos(c * u, u);
    }
  }

  /** With the default coefficients (Cd 0.70 to 0.55, Cl_rear 1.7 to 1.4) DRS lowers drag and rear downforce when moving. */
  lemma DefaultDrsLowersDragAndRearDownforce(fuelLoad: real, velocity: real)
    requires velocity != 0.0
    ensures var veh := DefaultDay3Vehicle(fuelLoad);
      CalculateAeroForces(veh, velocity, true).drag < CalculateAeroForces(veh, velocity, false).drag &&
      CalculateAeroForces(veh, velocity, true).downforceRear < CalculateAeroForces(veh, velocity, false).downforceRear
  {
    var veh := DefaultDay3Vehicle(fuelLoad);
    PressureAreaSign(veh, velocity);
    AeroForcesShape(veh, velocity, true);
    AeroForcesShape(veh, velocity, false);
    var q := PressureArea(veh, velocity);
    MulLtRight(0.55, 0.70, q);
    MulLtRight(1.4, 1.7, q);
  }

  // ---------------------------------------------------------------------
  // Axle loads and force limits

  datatype AxleLoads = AxleLoads(front: real, rear: real)

  /** The load moved from the front axle to the rear one at the current mass, m a h / L. */
  function Transfer(veh: Day3Vehicle, acceleration: real, mass: real): real
    requires veh.wheelbase != 0.0
  {
    (mass * acceleration * veh.cgHeight) / veh.wheelbase
  }

  /** The axle weights before the floor at zero, for the current mass. */
  function UnflooredLoads(veh: Day3Vehicle, acceleration: real, downforceFront: real, downforceRear: real,
                          mass: real): AxleLoads
    requires veh.wheelbase != 0.0
  {
    AxleLoads(mass * veh.g * veh.weightDistFront - Transfer(veh, acceleration, mass) + downforceFront,
              mass * veh.g * (1.0 - veh.weightDistFront) + Transfer(veh, acceleration, mass) + downforceRear)
  }

  /** calculate_load_transfer: each axle's weight, floored at zero. */
  function CalculateLoadTransfer(veh: Day3Vehicle, acceleration: real, downforceFront: real, downforceRear: real,
                                 mass: real): (w: AxleLoads)
    requires veh.wheelbase != 0.0
    ensures w.front >= 0.0 && w.rear >= 0.0
    ensures var u := UnflooredLoads(veh, acceleration, downforceFront, downforceRear, mass);
      (u.front >= 0.0 ==> w.front == u.front) && (u.front < 0.0 ==> w.front == 0.0) &&
      (u.rear >= 0.0 ==> w.rear == u.rear) && (u.rear < 0.0 ==> w.rear == 0.0)
  {
    var u := UnflooredLoads(veh, acceleration, downforceFront, downforceRear, mass);
    AxleLoads(Max(0.0, u.front), Max(0.0, u.rear))
  }

  /** Before the floor the two axles carry m g plus the downforce, whatever the acceleration. */
  lemma LoadTransferConservesWeight(veh: Day3Vehicle, acceleration: real, downforceFront: real, downforceRear: real,
                                    mass: real)
    requires veh.wheelbase != 0.0
    ensures var u := UnflooredLoads(veh, acceleration, downforceFront, downforceRear, mass);
      u.front + u.rear == mass * veh.g + downforceFront + downforceRear
  {
    var mg := mass * veh.g;
    assert mg * veh.weightDistFront + mg * (1.0 - veh.weightDistFront) == mg;
  }

  /** Accelerating moves weight to the rear axle and braking to the front one. */
  lemma LoadTransferShiftsRearward(veh: Day3Vehicle, acceleration: real, downforceFront: real, downforceRear: real,
                                   mass: real)
    requires mass > 0.0 && veh.cgHeight > 0.0 && veh.wheelbase > 0.0
    ensures var u := UnflooredLoads(veh, acceleration, downforceFront, downforceRear, mass);
      var u0 := UnflooredLoads(veh, 0.0, downforceFront, downforceRear, mass);
      (acceleration > 0.0 ==> u.rear > u0.rear && u.front < u0.front) &&
      (acceleration < 0.0 ==> u.rear < u0.rear && u.front > u0.front)
  {
    SignOfQuotient(mass, acceleration, veh.cgHeight, veh.wheelbase);
    SignOfQuotient(mass, 0.0, veh.cgHeight, veh.wheelbase);
  }

  /** The engine force: max_power / v above 5 m/s, a flat 10000 N below. */
  function EngineForce(veh: Day3Vehicle, velocity: real): (f: real)
    ensures veh.maxPower >= 0.0 && velocity >= 0.0 ==> f >= 0.0
  {
    if velocity > 5.0 then
      if veh.maxPower >= 0.0 then DivAtLeast(veh.maxPower, velocity, 0.0); veh.maxPower / velocity
      else veh.maxPower / velocity
    else 10000.0
  }

  /**
   * calculate_max_acceleration: the smaller of the engine force and the
   * rear tires' grip mu_peak W_rear. The current mass is not used.
   */
  function CalculateMaxAcceleration(veh: Day3Vehicle, velocity: real, weightRear: real, currentMass: real): (f: real)
    ensures f <= veh.tireMuPeak * weightRear && f <= EngineForce(veh, velocity)
    ensures f == veh.tireMuPeak * weightRear || f == EngineForce(veh, velocity)
    ensures velocity <= 5.0 ==> f <= 10000.0
  {
    Min(EngineForce(veh, velocity), veh.tireMuPeak * weightRear)
  }

  /** With a loaded rear axle and non-negative power the driving force is never negative. */
  lemma MaxAccelerationNonNegative(veh: Day3Vehicle, velocity: real, weightRear: real, currentMass: real)
    requires veh.tireMuPeak >= 0.0 && weightRear >= 0.0 && veh.maxPower >= 0.0 && velocity >= 0.0
    ensures CalculateMaxAcceleration(veh, velocity, weightRear, currentMass) >= 0.0
  {
    MulNonneg(veh.tireMuPeak, weightRear);
  }

  /** calculate_max_braking: the front axle at 90 % of its grip plus the rear at 60 %. */
  function CalculateMaxBraking(veh: Day3Vehicle, weightFront: real, weightRear: real): real
  {
    veh.tireMuPeak * weightFront * 0.9 + veh.tireMuPeak * weightRear * 0.6
  }

  /**
   * The braking force is mu (0.9 W_f + 0.6 W_r), so on loaded axles it lies
   * between 60 % and 90 % of the grip of the whole car.
   */
  lemma MaxBrakingBounds(veh: Day3Vehicle, weightFront: real, weightRear: real)
    ensures CalculateMaxBraking(veh, weightFront, weightRear) == veh.tireMuPeak * (0.9 * weightFront + 0.6 * weightRear)
    ensures veh.tireMuPeak >= 0.0 && weightFront >= 0.0 && weightRear >= 0.0 ==>
      0.6 * (veh.tireMuPeak * (weightFront + weightRear)) <= CalculateMaxBraking(veh, weightFront, weightRear) &&
      CalculateMaxBraking(veh, weightFront, weightRear) <= 0.9 * (veh.tireMuPeak * (weightFront + weightRear))
  {
    BrakingSplit(veh.tireMuPeak, weightFront, weightRear);
  }

  lemma BrakingSplit(mu: real, wf: real, wr: real)
    ensures mu * wf * 0.9 + mu * wr * 0.6 == mu * (0.9 * wf + 0.6 * wr)
    ensures mu >= 0.0 && wf >= 0.0 && wr >= 0.0 ==>
      0.6 * (mu * (wf + wr)) <= mu * (0.9 * wf + 0.6 * wr) <= 0.9 * (mu * (wf + wr))
  {
    if mu >= 0.0 && wf >= 0.0 && wr >= 0.0 {
      MulLeRight(0.6 * (wf + wr), 0.9 * wf + 0.6 * wr, mu);
      MulLeRight(0.9 * wf + 0.6 * wr, 0.9 * (wf + wr), mu);
      assert mu * (0.9 * wf + 0.6 * wr) == (0.9 * wf + 0.6 * wr) * mu;
      assert 0.6 * (mu * (wf + wr)) == 0.6 * (wf + wr) * mu;
      assert 0.9 * (mu * (wf + wr)) == 0.9 * (wf + wr) * mu;
    }
  }

  /** The squared corner speed (mu_peak W / m) |r|. */
  function CornerLimitSq(mu: real, weightTotal: real, mass: real, absRadius: real): real
    requires mass != 0.0
  {
    ((mu * weightTotal) / mass) * absRadius
  }

  /**
   * calculate_corner_speed, squared: unbounded for an infinite radius,
   * otherwise mu_peak W_total / m |r|.
   */
  function CalculateCornerSpeed(veh: Day3Vehicle, radius: Radius, weightTotal: real, currentMass: real): (lim: SpeedLimit)
    requires radius.Corner? ==> currentMass != 0.0
    ensures lim.Unbounded? <==> radius.Straight?
  {
    match radius
    case Straight => Unbounded
    case Corner(r) => Bounded(CornerLimitSq(veh.tireMuPeak, weightTotal, currentMass, Abs(r)))
  }

  /** A heavier load on the tires (more downforce) raises the corner speed; a heavier car lowers it. */
  lemma CornerSpeedMonotone(veh: Day3Vehicle, r: real, w1: real, w2: real, m1: real, m2: real)
    requires veh.tireMuPeak >= 0.0 && 0.0 <= w1 <= w2 && 0.0 < m2 <= m1
    ensures CalculateCornerSpeed(veh, Corner(r), w1, m1).sq <= CalculateCornerSpeed(veh, Corner(r), w2, m2).sq
    ensures CalculateCornerSpeed(veh, Corner(r), w1, m1).sq >= 0.0
  {
    CornerLimitOrder(veh.tireMuPeak, w1, w2, m1, m2, Abs(r));
  }

  lemma CornerLimitOrder(mu: real, w1: real, w2: real, m1: real, m2: real, a: real)
    requires mu >= 0.0 && 0.0 <= w1 <= w2 && 0.0 < m2 <= m1 && a >= 0.0
    ensures 0.0 <= CornerLimitSq(mu, w1, m1, a) <= CornerLimitSq(mu, w2, m2, a)
  {
    MulNonneg(mu, w1);
    MulLeRight(w1, w2, mu);
    assert mu * w1 <= mu * w2;
    DivMonotone(mu * w1, mu * w2, m1);
    DivAtLeast(mu * w1, m1, 0.0);
    var q1 := (mu * w1) / m1;
    var q2 := (mu * w2) / m2;
    var p := (mu * w2) / m1;
    assert p * m1 == mu * w2;
    assert q2 * m2 == mu * w2;
    MulNonneg(mu, w2);
    DivAtLeast(mu * w2, m1, 0.0);
    MulLeRight(m2, m1, p);
    assert p * m2 <= q2 * m2;
    if p > q2 {
      MulLtRight(q2, p, m2);
      assert false;
    }
    MulNonneg(q1, a);
    MulLeRight(q1, q2, a);
  }

  // ---------------------------------------------------------------------
  // One step of simulate_lap

  /** Everything a step decides before any force is computed. */
  datatype Drive = Drive(mass: real, drs: bool, aero: Aero, loads: AxleLoads, limit: SpeedLimit, mode: Mode)

  /**
   * The mass at the distance covered, DRS, the aero forces, the axle loads at
   * zero acceleration, the corner limit for their sum and the mode.
   */
  function DriveAt(veh: Day3Vehicle, radius: Radius, distance: real, velocity: real): (d: Drive)
    requires velocity >= 0.0 && veh.massEmpty > 0.0 && veh.wheelbase != 0.0
    ensures d.mass == GetCurrentMass(veh, distance)
    ensures d.drs <==> CanUseDrs(veh, radius, velocity * 3.6)
    ensures d.loads.front >= 0.0 && d.loads.rear >= 0.0
    ensures d.limit.Unbounded? <==> radius.Straight?
    ensures d.mode == SelectMode(velocity, d.limit)
  {
    var mass := GetCurrentMass(veh, distance);
    var drs := CanUseDrs(veh, radius, velocity * 3.6);
    var aero := CalculateAeroForces(veh, velocity, drs);
    var loads := CalculateLoadTransfer(veh, 0.0, aero.downforceFront, aero.downforceRear, mass);
    var limit := CalculateCornerSpeed(veh, radius, loads.front + loads.rear, mass);
    Drive(mass, drs, aero, loads, limit, SelectMode(velocity, limit))
  }

  /** The net longitudinal force of each mode. */
  function NetForce(veh: Day3Vehicle, velocity: real, d: Drive): real
  {
    match d.mode
    case Braking => -(CalculateMaxBraking(veh, d.loads.front, d.loads.rear) + d.aero.drag)
    case Accelerating => CalculateMaxAcceleration(veh, velocity, d.loads.rear, d.mass) - d.aero.drag
    case Coasting => -d.aero.drag
  }

  /** With non-negative drag and loaded axles only the accelerating mode can push the car forward. */
  lemma NetForceSigns(veh: Day3Vehicle, velocity: real, d: Drive)
    requires veh.tireMuPeak >= 0.0 && d.aero.drag >= 0.0 && d.loads.front >= 0.0 && d.loads.rear >= 0.0
    ensures d.mode != Accelerating ==> NetForce(veh, velocity, d) <= -d.aero.drag
    ensures d.mode == Accelerating ==> NetForce(veh, velocity, d) <= veh.tireMuPeak * d.loads.rear - d.aero.drag
  {
    if d.mode == Braking {
      MaxBrakingBounds(veh, d.loads.front, d.loads.rear);
      MulNonneg(veh.tireMuPeak, d.loads.front + d.loads.rear);
    }
  }

  /** The lateral g-force: v^2 / (|r| g) in a corner, 0 on a straight. */
  function LateralG(veh: Day3Vehicle, radius: Radius, velocity: real): real
    requires veh.g != 0.0 && BaseLap.NonZeroRadius(radius)
  {
    match radius
    case Straight => 0.0
    case Corner(r) => (velocity * velocity) / (Abs(r) * veh.g)
  }

  /** What one pass of the loop computes. */
  datatype Step = Step(drive: Drive, acceleration: real, lateralG: real, velocity: real)

  /** One pass of the loop body at a distance on a segment of the given radius. */
  function StepAt(veh: Day3Vehicle, radius: Radius, distance: real, velocity: real, dt: real): (s: Step)
    requires velocity >= 0.0 && veh.massEmpty > 0.0 && veh.wheelbase != 0.0 && veh.g != 0.0 && BaseLap.NonZeroRadius(radius)
    ensures s.drive == DriveAt(veh, radius, distance, velocity)
    ensures s.velocity >= 0.0
    ensures s.velocity == 0.0 || s.velocity == velocity + s.acceleration * dt
  {
    var d := DriveAt(veh, radius, distance, velocity);
    var acceleration := NetForce(veh, velocity, d) / d.mass;
    Step(d, acceleration, LateralG(veh, radius, velocity), NextSpeed(velocity, acceleration, dt))
  }

  /** For a physical car moving forward in time, braking and coasting never speed it up. */
  lemma StepBrakingSlows(veh: Day3Vehicle, radius: Radius, distance: real, velocity: real, dt: real)
    requires veh.massEmpty > 0.0 && veh.wheelbase != 0.0 && veh.g != 0.0 && BaseLap.NonZeroRadius(radius)
    requires velocity >= 0.0 && dt >= 0.0 && veh.tireMuPeak >= 0.0 && veh.airDensity >= 0.0 && veh.frontalArea >= 0.0
    requires veh.cd >= 0.0 && veh.cdDrs >= 0.0
    ensures var s := StepAt(veh, radius, distance, velocity, dt);
      s.drive.mode != Accelerating ==> s.velocity <= velocity
  {
    var s := StepAt(veh, radius, distance, velocity, dt);
    if s.drive.mode != Accelerating {
      AeroForcesShape(veh, velocity, s.drive.drs);
      PressureAreaSign(veh, velocity);
      MulNonneg(if s.drive.drs then veh.cdDrs else veh.cd, PressureArea(veh, velocity));
      NetForceSigns(veh, velocity, s.drive);
      BaseLap.DivNonPositive(NetForce(veh, velocity, s.drive), s.drive.mass);
      MulNonneg(-s.acceleration, dt);
    }
  }

  // ---------------------------------------------------------------------
  // Telemetry and the loop

  const MaxIterations: nat := 100000
  const SampleStride: nat := 10

  /** One telemetry row: the thirteen columns of the source's DataFrame. */
  datatype Day3Row = Day3Row(
    time: real,
    distance: real,
    velocityKmh: real,
    acceleration: real,
    downforce: real,
    drag: real,
    throttle: real,
    brake: real,
    lateralG: real,
    longitudinalG: real,
    fuelMass: real,
    currentMass: real,
    drsActive: real)

  /**
   * The row after a step. The fuel column is taken at the distance after
   * the step, the mass column is the mass the step used.
   */
  function Row(veh: Day3Vehicle, s: Step, time: real, distance: real): (row: Day3Row)
    requires veh.g != 0.0
    ensures s.velocity >= 0.0 && s.drive.mass >= veh.massEmpty ==> SaneRow(row, veh)
    ensures row.time == time && row.distance == distance && row.currentMass == s.drive.mass
    ensures row.fuelMass == FuelRemaining(veh, distance)
    ensures row.drsActive == 1.0 <==> s.drive.drs
  {
    var p := Pedals(s.drive.mode);
    Day3Row(time, distance, s.velocity * 3.6, s.acceleration / veh.g, s.drive.aero.downforceTotal / 1000.0,
            s.drive.aero.drag / 1000.0, p.0, p.1, s.lateralG, s.acceleration / veh.g,
            FuelRemaining(veh, distance), s.drive.mass, if s.drive.drs then 1.0 else 0.0)
  }

  /**
   * What every logged row satisfies: non-negative speed and fuel, a mass
   * no lighter than the empty car, pedals never both pressed and a 0/1 DRS flag.
   */
  predicate SaneRow(row: Day3Row, veh: Day3Vehicle)
  {
    row.velocityKmh >= 0.0 && row.fuelMass >= 0.0 && row.currentMass >= veh.massEmpty &&
    row.throttle * row.brake == 0.0 && 0.0 <= row.throttle <= 1.0 && 0.0 <= row.brake <= 1.0 &&
    row.acceleration == row.longitudinalG && (row.drsActive == 0.0 || row.drsActive == 1.0)
  }

  /** Row k is the sane sample of step (k + 1) * 10. */
  predicate SampledEvery(rows: seq<Day3Row>, dt: real, veh: Day3Vehicle)
  {
    forall k :: 0 <= k < |rows| ==> SaneRow(rows[k], veh) && rows[k].time == Elapsed((k + 1) * SampleStride, dt)
  }

  predicate DistancesUpTo(rows: seq<Day3Row>, d: real)
  {
    (forall j, k :: 0 <= j <= k < |rows| ==> rows[j].distance <= rows[k].distance) &&
    (forall k :: 0 <= k < |rows| ==> rows[k].distance <= d)
  }

  lemma LogRow(rows: seq<Day3Row>, row: Day3Row, n: nat, dt: real, veh: Day3Vehicle)
    requires SampledEvery(rows, dt, veh) && SaneRow(row, veh)
    requires n >= 1 && |rows| == (n - 1) / SampleStride
    requires n == (n / SampleStride) * SampleStride && n / SampleStride == (n - 1) / SampleStride + 1
    requires row.time == Elapsed(n, dt)
    ensures SampledEvery(rows + [row], dt, veh)
  {
    assert (|rows| + 1) * SampleStride == n;
  }

  /**
   * The loop body after the lookup: one step, the distance it covers and
   * its row. Moving forward, the fuel logged is never more than the fuel
   * the step's mass carried.
   */
  method Advance(veh: Day3Vehicle, radius: Radius, velocity: real, distance: real, time: real, dt: real)
    returns (velocity': real, distance': real, row: Day3Row)
    requires velocity >= 0.0 && veh.massEmpty > 0.0 && veh.wheelbase != 0.0 && veh.g != 0.0 && BaseLap.NonZeroRadius(radius)
    ensures velocity' == StepAt(veh, radius, distance, velocity, dt).velocity
    ensures velocity' >= 0.0 && distance' == distance + velocity' * dt
    ensures dt >= 0.0 ==> distance' >= distance
    ensures row == Row(veh, StepAt(veh, radius, distance, velocity, dt), time + dt, distance')
    ensures SaneRow(row, veh) && row.time == time + dt && row.distance == distance'
    ensures dt >= 0.0 && veh.fuelConsumptionRate >= 0.0 ==> veh.massEmpty + row.fuelMass <= row.currentMass
  {
    var s := StepAt(veh, radius, distance, velocity, dt);
    velocity' := s.velocity;
    distance' := distance + velocity' * dt;
    if dt >= 0.0 {
      MulNonneg(velocity', dt);
      if veh.fuelConsumptionRate >= 0.0 {
        FuelRemainingNonIncreasing(veh, distance, distance');
      }
    }
    row := Row(veh, s, time + dt, distance');
  }

  /** Log the row when step n is a multiple of 10; `previous` is the distance before the step. */
  method MaybeLog(rows: seq<Day3Row>, row: Day3Row, n: nat, dt: real, veh: Day3Vehicle, previous: real)
    returns (rows': seq<Day3Row>)
    requires n >= 1 && |rows| == (n - 1) / SampleStride
    requires SampledEvery(rows, dt, veh) && SaneRow(row, veh) && row.time == Elapsed(n, dt)
    requires dt >= 0.0 ==> DistancesUpTo(rows, previous) && previous <= row.distance
    ensures |rows'| == n / SampleStride
    ensures rows' == if n % SampleStride == 0 then rows + [row] else rows
    ensures SampledEvery(rows', dt, veh)
    ensures dt >= 0.0 ==> DistancesUpTo(rows', row.distance)
  {
    SampleCountStep(n, SampleStride);
    if n % SampleStride == 0 {
      LogRow(rows, row, n, dt, veh);
      rows' := rows + [row];
    } else {
      rows' := rows;
    }
  }

  // ---------------------------------------------------------------------
  // The trajectory the loop follows: speed and distance after n passes from rest.

  /** What the loop needs of car and track to take a step anywhere on the track. */
  predicate Drivable(veh: Day3Vehicle, segs: seq<Segment>)
  {
    veh.massEmpty > 0.0 && veh.wheelbase != 0.0 && veh.g != 0.0 && BaseLap.NoZeroRadius(segs) && |segs| > 0
  }

  datatype Point = Point(velocity: real, distance: real)

  /** The step taken at point p, on the segment the lookup finds under p. */
  function StepFrom(veh: Day3Vehicle, segs: seq<Segment>, p: Point, dt: real): Step
    requires Drivable(veh, segs) && p.velocity >= 0.0
  {
    StepAt(veh, SegmentAt(segs, p.distance).value.radius, p.distance, p.velocity, dt)
  }

  /** One pass of the loop: the step's speed, and the distance that speed covers in dt. */
  function Next(veh: Day3Vehicle, segs: seq<Segment>, p: Point, dt: real): (q: Point)
    requires Drivable(veh, segs) && p.velocity >= 0.0
    ensures q.velocity >= 0.0
    ensures dt >= 0.0 ==> q.distance >= p.distance
  {
    var v := StepFrom(veh, segs, p, dt).velocity;
    assert dt >= 0.0 ==> v * dt >= 0.0 by {
      if dt >= 0.0 {
        MulNonneg(v, dt);
      }
    }
    Point(v, p.distance + v * dt)
  }

  /** The row the pass from p logs when its step number is a multiple of the stride. */
  function StepRow(veh: Day3Vehicle, segs: seq<Segment>, p: Point, time: real, dt: real): Day3Row
    requires Drivable(veh, segs) && p.velocity >= 0.0
  {
    Row(veh, StepFrom(veh, segs, p, dt), time, Next(veh, segs, p, dt).distance)
  }

  /**
   * The points the loop passes through from rest: the first is (0, 0) and
   * each is Next of the one before.
   */
  predicate IsRun(veh: Day3Vehicle, segs: seq<Segment>, dt: real,
                  path: seq<Point>)
    requires Drivable(veh, segs)
  {
    |path| > 0 && path[0] == Point(0.0, 0.0) &&
    (forall i :: 0 <= i < |path| ==> path[i].velocity >= 0.0) &&
    (forall i {:trigger Next(veh, segs, path[i], dt)} :: 0 <= i < |path| - 1 ==>
       path[i + 1] == Next(veh, segs, path[i], dt))
  }

  /** The row logged by the pass that closes sample k of the run. */
  function SampleRow(veh: Day3Vehicle, segs: seq<Segment>, dt: real, path: seq<Point>, k: nat): Day3Row
    requires Drivable(veh, segs) && IsRun(veh, segs, dt, path) && k * SampleStride + SampleStride <= |path|
  {
    StepRow(veh, segs, path[k * SampleStride + SampleStride - 1], Elapsed(k * SampleStride + SampleStride, dt), dt)
  }

  /** Row k is the row logged by pass (k + 1) * 10 of the run. */
  predicate LoggedRun(veh: Day3Vehicle, segs: seq<Segment>, dt: real,
                      path: seq<Point>, rows: seq<Day3Row>)
    requires Drivable(veh, segs) && IsRun(veh, segs, dt, path)
  {
    |rows| * SampleStride < |path| &&
    forall k: nat {:trigger SampleRow(veh, segs, dt, path, k)} :: k < |rows| ==>
      rows[k] == SampleRow(veh, segs, dt, path, k)
  }

  /**
   * The loop state after n passes: the path holds the run's first n + 1
   * points and ends at p, every earlier point was short of the lap length,
   * and the rows are the run's samples.
   */
  predicate OnRun(veh: Day3Vehicle, segs: seq<Segment>, dt: real,
                  total: real, n: nat, path: seq<Point>, p: Point, rows: seq<Day3Row>)
    requires Drivable(veh, segs)
  {
    IsRun(veh, segs, dt, path) && |path| == n + 1 && path[n] == p &&
    (forall k :: 0 <= k < n ==> path[k].distance < total) &&
    LoggedRun(veh, segs, dt, path, rows)
  }

  /**
   * One more pass from a point short of the lap length stays on the run,
   * once the path and the rows have been extended (RunStep, LogStep).
   */
  lemma OnRunStep(veh: Day3Vehicle, segs: seq<Segment>, dt: real,
                  total: real, n: nat, path: seq<Point>, p: Point, rows: seq<Day3Row>,
                  p': Point, rows': seq<Day3Row>)
    requires Drivable(veh, segs) && OnRun(veh, segs, dt, total, n, path, p, rows) && p.distance < total
    requires IsRun(veh, segs, dt, path + [p']) && LoggedRun(veh, segs, dt, path + [p'], rows')
    ensures OnRun(veh, segs, dt, total, n + 1, path + [p'], p', rows')
  {
    assert forall k :: 0 <= k < n + 1 ==> (path + [p'])[k] == path[k];
  }

  /** The pass from the last point logs its row at multiples of the stride and otherwise nothing. */
  lemma LogStep(veh: Day3Vehicle, segs: seq<Segment>, dt: real,
                n: nat, path: seq<Point>, p: Point, p': Point, time: real, rows: seq<Day3Row>, rows': seq<Day3Row>)
    requires Drivable(veh, segs) && IsRun(veh, segs, dt, path) && IsRun(veh, segs, dt, path + [p'])
    requires LoggedRun(veh, segs, dt, path, rows) && |path| == n + 1 && path[n] == p && |rows| == n / SampleStride
    requires p.velocity >= 0.0 && time == Elapsed(n + 1, dt)
    requires rows' == if (n + 1) % SampleStride == 0
                      then rows + [StepRow(veh, segs, p, time, dt)]
                      else rows
    ensures LoggedRun(veh, segs, dt, path + [p'], rows')
  {
    SampleCountStep(n + 1, SampleStride);
    if (n + 1) % SampleStride == 0 {
      assert rows' == rows + [StepRow(veh, segs, path[|path| - 1], time, dt)];
      LoggedStep(veh, segs, dt, path, p', rows, time);
    } else {
      LoggedExtend(veh, segs, dt, path, p', rows);
    }
  }

  /** A run extended by Next of its last point is a run. */
  lemma RunStep(veh: Day3Vehicle, segs: seq<Segment>, dt: real,
                path: seq<Point>, p: Point, p': Point)
    requires Drivable(veh, segs) && IsRun(veh, segs, dt, path) && path[|path| - 1] == p
    requires p' == Next(veh, segs, p, dt)
    ensures IsRun(veh, segs, dt, path + [p'])
  {
    var path' := path + [p'];
    forall i | 0 <= i < |path'| - 1
      ensures path'[i + 1] == Next(veh, segs, path'[i], dt)
    {
      assert path'[i] == path[i];
    }
  }

  /** The samples of a run are still its samples once the run goes on. */
  lemma LoggedExtend(veh: Day3Vehicle, segs: seq<Segment>, dt: real,
                     path: seq<Point>, p': Point, rows: seq<Day3Row>)
    requires Drivable(veh, segs) && IsRun(veh, segs, dt, path) && IsRun(veh, segs, dt, path + [p'])
    requires LoggedRun(veh, segs, dt, path, rows)
    ensures LoggedRun(veh, segs, dt, path + [p'], rows)
  {
    forall k: nat | k < |rows|
      ensures rows[k] == SampleRow(veh, segs, dt, path + [p'], k)
    {
      assert (path + [p'])[k * SampleStride + SampleStride - 1] == path[k * SampleStride + SampleStride - 1];
      assert rows[k] == SampleRow(veh, segs, dt, path, k);
    }
  }

  /** Logging the row of the pass from the last point adds the next sample. */
  lemma LoggedStep(veh: Day3Vehicle, segs: seq<Segment>, dt: real,
                   path: seq<Point>, p': Point, rows: seq<Day3Row>, time: real)
    requires Drivable(veh, segs) && IsRun(veh, segs, dt, path) && IsRun(veh, segs, dt, path + [p'])
    requires LoggedRun(veh, segs, dt, path, rows)
    requires |rows| * SampleStride + SampleStride == |path| && time == Elapsed(|path|, dt)
    ensures LoggedRun(veh, segs, dt, path + [p'], rows + [StepRow(veh, segs, path[|path| - 1], time, dt)])
  {
    LoggedExtend(veh, segs, dt, path, p', rows);
    var rows' := rows + [StepRow(veh, segs, path[|path| - 1], time, dt)];
    forall k: nat | k < |rows'|
      ensures rows'[k] == SampleRow(veh, segs, dt, path + [p'], k)
    {
      if k < |rows| {
        assert rows'[k] == rows[k];
      } else {
        assert (path + [p'])[k * SampleStride + SampleStride - 1] == path[|path| - 1];
      }
    }
  }

  /**
   * One pass of the loop at step n: the new point is Next of the old one and
   * the step's row is logged at multiples of 10; the other clauses are
   * SimulateLap's invariants.
   */
  method Tick(veh: Day3Vehicle, track: Track, n: nat, time: real, distance: real, velocity: real,
              rows: seq<Day3Row>, dt: real)
    returns (time': real, distance': real, velocity': real, rows': seq<Day3Row>)
    requires Drivable(veh, track.segments)
    requires n >= 1 && velocity >= 0.0 && time == Elapsed(n - 1, dt)
    requires |rows| == (n - 1) / SampleStride && SampledEvery(rows, dt, veh)
    requires dt >= 0.0 ==> DistancesUpTo(rows, distance)
    ensures Point(velocity', distance') == Next(veh, track.segments, Point(velocity, distance), dt)
    ensures rows' == if n % SampleStride == 0
                     then rows + [StepRow(veh, track.segments, Point(velocity, distance), time', dt)]
                     else rows
    ensures velocity' >= 0.0 && time' == Elapsed(n, dt)
    ensures |rows'| == n / SampleStride && SampledEvery(rows', dt, veh)
    ensures dt >= 0.0 ==> distance' >= distance && DistancesUpTo(rows', distance')
  {
    var segment := BaseLap.Lookup(track, distance);
    var row;
    velocity', distance', row := Advance(veh, segment.radius, velocity, distance, time, dt);
    time' := time + dt;
    assert row == StepRow(veh, track.segments, Point(velocity, distance), time', dt);
    rows' := MaybeLog(rows, row, n, dt, veh, distance);
  }

  /**
   * The loop body together with the run it follows: the Tick from the last
   * point of the run extends the run by the new point and its samples by
   * the logged row.
   */
  method Pass(veh: Day3Vehicle, track: Track, n: nat, time: real, distance: real, velocity: real,
              rows: seq<Day3Row>, dt: real, ghost path: seq<Point>)
    returns (time': real, distance': real, velocity': real, rows': seq<Day3Row>, ghost path': seq<Point>)
    requires Drivable(veh, track.segments) && distance < track.totalLength
    requires n >= 1 && velocity >= 0.0 && time == Elapsed(n - 1, dt)
    requires |rows| == (n - 1) / SampleStride && SampledEvery(rows, dt, veh)
    requires dt >= 0.0 ==> DistancesUpTo(rows, distance)
    requires OnRun(veh, track.segments, dt, track.totalLength, n - 1, path, Point(velocity, distance), rows)
    ensures velocity' >= 0.0 && time' == Elapsed(n, dt)
    ensures |rows'| == n / SampleStride && SampledEvery(rows', dt, veh)
    ensures dt >= 0.0 ==> DistancesUpTo(rows', distance')
    ensures path' == path + [Point(velocity', distance')]
    ensures OnRun(veh, track.segments, dt, track.totalLength, n, path', Point(velocity', distance'), rows')
  {
    ghost var p := Point(velocity, distance);
    time', distance', velocity', rows' := Tick(veh, track, n, time, distance, velocity, rows, dt);
    ghost var p' := Point(velocity', distance');
    RunStep(veh, track.segments, dt, path, p, p');
    LogStep(veh, track.segments, dt, n - 1, path, p, p', time', rows, rows');
    OnRunStep(veh, track.segments, dt, track.totalLength, n - 1, path, p, rows, p', rows');
    path' := path + [p'];
  }

  /**
   * simulate_lap with fuel and DRS. `steps` and `finalDistance` are the
   * source's local counter and distance at the end of the loop.
   */
  method SimulateLap(veh: Day3Vehicle, track: Track, dt: real)
    returns (telemetry: seq<Day3Row>, lapTime: real, ghost steps: nat, ghost finalDistance: real,
             ghost path: seq<Point>)
    requires |track.segments| > 0 || track.totalLength <= 0.0
    requires veh.massEmpty > 0.0 && veh.wheelbase != 0.0 && veh.g != 0.0
    requires BaseLap.NoZeroRadius(track.segments)
    ensures steps <= MaxIterations
    ensures steps == MaxIterations || finalDistance >= track.totalLength
    ensures track.totalLength <= 0.0 ==> steps == 0 && telemetry == [] && lapTime == 0.0
    ensures |track.segments| > 0 ==>
      |path| == steps + 1 && path[steps].distance == finalDistance &&
      OnRun(veh, track.segments, dt, track.totalLength, steps, path, path[steps], telemetry)
    ensures lapTime == Elapsed(steps, dt) && ReadsSteps(lapTime, steps, dt)
    ensures |telemetry| == steps / SampleStride
    ensures SampledEvery(telemetry, dt, veh)
    ensures dt >= 0.0 ==> DistancesUpTo(telemetry, finalDistance)
  {
    var time := 0.0;
    var distance := 0.0;
    var velocity := 0.0;
    telemetry := [];
    var iterations: nat := 0;
    path := [Point(0.0, 0.0)];
    while distance < track.totalLength && iterations < MaxIterations
      invariant iterations <= MaxIterations && velocity >= 0.0
      invariant iterations == 0 ==> distance == 0.0 && velocity == 0.0
      invariant iterations > 0 ==> track.totalLength > 0.0
      invariant time == Elapsed(iterations, dt)
      invariant |telemetry| == iterations / SampleStride
      invariant SampledEvery(telemetry, dt, veh)
      invariant dt >= 0.0 ==> DistancesUpTo(telemetry, distance)
      invariant |track.segments| > 0 ==>
        OnRun(veh, track.segments, dt, track.totalLength, iterations, path, Point(velocity, distance), telemetry)
      decreases MaxIterations - iterations
    {
      iterations := iterations + 1;
      time, distance, velocity, telemetry, path :=
        Pass(veh, track, iterations, time, distance, velocity, telemetry, dt, path);
    }
    lapTime := time;
    steps := iterations;
    finalDistance := distance;
    ClockReadsSteps(lapTime, steps, dt);
  }
}
