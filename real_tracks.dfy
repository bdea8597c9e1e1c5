// src/f1_real_tracks.py: the fuel-burning car with its own DRS
// coefficients, and the lap integrator with a speed-dependent friction
// coefficient, a DRS gate on long straights, an engine force capped at the
// low-speed torque force, and rolling resistance. The engine force comes
// from a get_engine_force method the car class does not define; the lap as
// written is modelled beside the lap with that force supplied.

module RealTracks {
  import opened Common
  import opened Tracks

  datatype RealVehicle = RealVehicle(
    massEmpty: real,
    fuelLoad: real,
    fuelConsumptionRate: real,
    cd: real,
    cdDrs: real,
    clFront: real,
    clRear: real,
    clRearDrs: real,
    frontalArea: real,
    airDensity: real,
    drsMinSpeed: real,
    drsAvailable: bool,
    wheelbase: real,
    trackWidth: real,
    cgHeight: real,
    weightDistFront: real,
    maxPower: real,
    tireMuPeak: real,
    cRr: real,
    drivetrainEfficiency: real,
    maxTorqueForce: real,
    g: real)

  /** F1Vehicle(fuel_load) as constructed; the gearbox and torque-curve fields are not used here. */
  function DefaultRealVehicle(fuelLoad: real): RealVehicle
  {
    RealVehicle(798.0, fuelLoad, 1.8, 0.70, 0.55, 1.8, 1.6, 1.4, 1.5, 1.225, 80.0, true,
                3.6, 1.8, 0.35, 0.45, 746000.0, 2.1, 0.015, 0.92, 90000.0, 9.81)
  }

  /** The empty car plus the fuel left after burning 1.8 kg per km, never below empty. */
  function GetCurrentMass(veh: RealVehicle, distanceKm: real): (m: real)
    ensures m >= veh.massEmpty
    ensures veh.fuelLoad >= 0.0 && distanceKm * veh.fuelConsumptionRate >= 0.0 ==> m <= veh.massEmpty + veh.fuelLoad
    ensures veh.fuelLoad >= 0.0 ==> m <= veh.massEmpty + veh.fuelLoad || distanceKm * veh.fuelConsumptionRate < 0.0
  {
    veh.massEmpty + Max(0.0, veh.fuelLoad - distanceKm * veh.fuelConsumptionRate)
  }

  /** Burning fuel never makes the car heavier. */
  lemma CurrentMassNonIncreasing(veh: RealVehicle, km1: real, km2: real)
    requires km1 <= km2 && veh.fuelConsumptionRate >= 0.0
    ensures GetCurrentMass(veh, km2) <= GetCurrentMass(veh, km1)
  {
    MulLeRight(km1, km2, veh.fuelConsumptionRate);
  }

  /** With no distance covered the car carries its whole (non-negative) fuel load. */
  lemma CurrentMassAtStart(veh: RealVehicle)
    requires veh.fuelLoad >= 0.0
    ensures GetCurrentMass(veh, 0.0) == veh.massEmpty + veh.fuelLoad
  {
  }

  /** DRS needs a straight, at least the minimum speed, and DRS being available. */
  predicate CanUseDrs(veh: RealVehicle, segmentType: string, velocityKmh: real)
  {
    segmentType == "straight" && velocityKmh >= veh.drsMinSpeed && veh.drsAvailable
  }

  /** The integrator's gate: DRS as the car allows it, and only on segments of at least 300 m. */
  predicate DrsGate(veh: RealVehicle, seg: Segment, velocityKmh: real)
  {
    CanUseDrs(veh, seg.kind, velocityKmh) && seg.length >= 300.0
  }

  lemma DrsGateExactly(veh: RealVehicle, seg: Segment, velocityKmh: real)
    ensures DrsGate(veh, seg, velocityKmh) <==>
            seg.kind == "straight" && velocityKmh >= veh.drsMinSpeed && veh.drsAvailable && seg.length >= 300.0
    ensures seg.length < 300.0 ==> !DrsGate(veh, seg, velocityKmh)
    ensures veh.drsMinSpeed == 80.0 && veh.drsAvailable && seg.kind == "straight" && seg.length >= 300.0 ==>
            DrsGate(veh, seg, 80.0)
  {
  }

  datatype Aero = Aero(drag: real, downforceTotal: real, downforceFront: real, downforceRear: real)

  function PressureArea(veh: RealVehicle, velocity: real): real
  {
    0.5 * veh.airDensity * veh.frontalArea * (velocity * velocity)
  }

  function CalculateAeroForces(veh: RealVehicle, velocity: real, drsActive: bool): Aero
  {
    var vSquared := velocity * velocity;
    var drag := 0.5 * veh.airDensity * (if drsActive then veh.cdDrs else veh.cd) * veh.frontalArea * vSquared;
    var rear := 0.5 * veh.airDensity * (if drsActive then veh.clRearDrs else veh.clRear) * veh.frontalArea * vSquared;
    var front := 0.5 * veh.airDensity * veh.clFront * veh.frontalArea * vSquared;
    Aero(drag, front + rear, front, rear)
  }

  /**
   * DRS swaps Cd for Cd_drs and Cl_rear for Cl_rear_drs; front downforce is
   * the same either way and the total is front plus rear.
   */
  lemma AeroForcesShape(veh: RealVehicle, velocity: real, drsActive: bool)
    ensures var a := CalculateAeroForces(veh, velocity, drsActive);
      var q := PressureArea(veh, velocity);
      a.drag == (if drsActive then veh.cdDrs else veh.cd) * q &&
      a.downforceRear == (if drsActive then veh.clRearDrs else veh.clRear) * q &&
      a.downforceFront == veh.clFront * q &&
      a.downforceTotal == a.downforceFront + a.downforceRear
    ensures CalculateAeroForces(veh, velocity, true).downforceFront == CalculateAeroForces(veh, velocity, false).downforceFront
  {
    var q := PressureArea(veh, velocity);
    var v2 := velocity * velocity;
    var cd := if drsActive then veh.cdDrs else veh.cd;
    var cl := if drsActive then veh.clRearDrs else veh.clRear;
    assert 0.5 * veh.airDensity * cd * veh.frontalArea * v2 == cd * (0.5 * veh.airDensity * veh.frontalArea * v2);
    assert 0.5 * veh.airDensity * cl * veh.frontalArea * v2 == cl * (0.5 * veh.airDensity * veh.frontalArea * v2);
    assert 0.5 * veh.airDensity * veh.clFront * veh.frontalArea * v2
        == veh.clFront * (0.5 * veh.airDensity * veh.frontalArea * v2);
  }

  lemma PressurePositive(veh: RealVehicle, velocity: real)
    requires veh.airDensity > 0.0 && veh.frontalArea > 0.0 && velocity != 0.0
    ensures PressureArea(veh, velocity) > 0.0
  {
    var c := 0.5 * veh.airDensity * veh.frontalArea;
    MulPos(0.5 * veh.airDensity, veh.frontalArea);
    if velocity > 0.0 {
      MulPos(c, velocity);
      MulPos(c * velocity, velocity);
      assert c * velocity * velocity == PressureArea(veh, velocity);
    } else {
      MulPos(c, -velocity);
      MulPos(c * -velocity, -velocity);
      assert c * -velocity * -velocity == PressureArea(veh, velocity);
    }
  }

  /** For the default car (Cd 0.70 to 0.55, Cl_rear 1.6 to 1.4) DRS lowers drag and rear downforce at any speed. */
  lemma DefaultDrsLowersDragAndRearDownforce(fuelLoad: real, velocity: real)
    requires velocity != 0.0
    ensures var veh := DefaultRealVehicle(fuelLoad);
      CalculateAeroForces(veh, velocity, true).drag < CalculateAeroForces(veh, velocity, false).drag &&
      CalculateAeroForces(veh, velocity, true).downforceRear < CalculateAeroForces(veh, velocity, false).downforceRear
  {
    var veh := DefaultRealVehicle(fuelLoad);
    PressurePositive(veh, velocity);
    AeroForcesShape(veh, velocity, true);
    AeroForcesShape(veh, velocity, false);
    var q := PressureArea(veh, velocity);
    MulLtRight(0.55, 0.70, q);
    MulLtRight(1.4, 1.6, q);
  }

  /**
   * The car's own corner speed, squared: unbounded for an infinite radius,
   * otherwise mu_peak (m g + downforce) / m * |r|.
   */
  function CalculateCornerSpeed(veh: RealVehicle, radius: Radius, downforceTotal: real, currentMass: real): (lim: SpeedLimit)
    requires radius.Corner? ==> currentMass != 0.0
    ensures lim.Unbounded? <==> radius.Straight?
  {
    match radius
    case Straight => Unbounded
    case Corner(r) => Bounded(veh.tireMuPeak * (currentMass * veh.g + downforceTotal) / currentMass * Abs(r))
  }

  /**
   * A loaded car with non-negative friction has a real corner speed, and a
   * tighter corner never a faster one.
   */
  lemma CornerSpeedReal(veh: RealVehicle, r1: real, r2: real, downforceTotal: real, currentMass: real)
    requires veh.tireMuPeak >= 0.0 && currentMass > 0.0 && currentMass * veh.g + downforceTotal >= 0.0
    requires Abs(r1) <= Abs(r2)
    ensures 0.0 <= CalculateCornerSpeed(veh, Corner(r1), downforceTotal, currentMass).sq <=
            CalculateCornerSpeed(veh, Corner(r2), downforceTotal, currentMass).sq
  {
    var k := veh.tireMuPeak * (currentMass * veh.g + downforceTotal) / currentMass;
    MulNonneg(veh.tireMuPeak, currentMass * veh.g + downforceTotal);
    DivAtLeast(veh.tireMuPeak * (currentMass * veh.g + downforceTotal), currentMass, 0.0);
    MulNonneg(k, Abs(r1));
    MulLeRight(Abs(r1), Abs(r2), k);
  }

  // ---------------------------------------------------------------------
  // The integrator

  const MaxIterations: nat := 150000
  const SampleStride: nat := 20

  /** The speed-dependent friction: mu_peak (1 - min(0.2, km/h / 2000)). */
  function MuEff(veh: RealVehicle, speedKmh: real): (mu: real)
    ensures veh.tireMuPeak >= 0.0 && speedKmh >= 0.0 ==> veh.tireMuPeak * 0.8 <= mu <= veh.tireMuPeak
  {
    var decay := SpeedDecay(speedKmh);
    MuEffBounds(veh.tireMuPeak, decay);
    veh.tireMuPeak * (1.0 - decay)
  }

  /** The share of grip lost at a speed: km/h / 2000, at most 0.2. */
  function SpeedDecay(speedKmh: real): (d: real)
    ensures d <= 0.2 && (speedKmh >= 0.0 ==> d >= 0.0)
  {
    Min(0.2, speedKmh / 2000.0)
  }

  lemma MuEffBounds(mu: real, decay: real)
    ensures mu >= 0.0 && 0.0 <= decay <= 0.2 ==> mu * 0.8 <= mu * (1.0 - decay) <= mu
  {
    if mu >= 0.0 && 0.0 <= decay <= 0.2 {
      MulLeRight(0.8, 1.0 - decay, mu);
      MulLeRight(1.0 - decay, 1.0, mu);
      assert mu * (1.0 - decay) == (1.0 - decay) * mu;
    }
  }

  /** Faster means less grip, down to the 20 % floor reached at 400 km/h. */
  lemma MuEffNonIncreasing(veh: RealVehicle, kmh1: real, kmh2: real)
    requires veh.tireMuPeak >= 0.0 && kmh1 <= kmh2
    ensures MuEff(veh, kmh2) <= MuEff(veh, kmh1)
  {
    var d1 := SpeedDecay(kmh1);
    var d2 := SpeedDecay(kmh2);
    MulLeRight(1.0 - d2, 1.0 - d1, veh.tireMuPeak);
    assert veh.tireMuPeak * (1.0 - d2) == (1.0 - d2) * veh.tireMuPeak;
    assert veh.tireMuPeak * (1.0 - d1) == (1.0 - d1) * veh.tireMuPeak;
  }

  /** The integrator's corner limit, squared: as the car's, with mu_eff in place of mu_peak. */
  function LoopCornerLimit(veh: RealVehicle, radius: Radius, downforceTotal: real, mass: real, muEff: real): (lim: SpeedLimit)
    requires mass != 0.0
    ensures lim.Unbounded? <==> radius.Straight?
    ensures muEff == veh.tireMuPeak && radius.Corner? ==>
            lim == CalculateCornerSpeed(veh, radius, downforceTotal, mass)
  {
    match radius
    case Straight => Unbounded
    case Corner(r) => Bounded(muEff * (mass * veh.g + downforceTotal) / mass * Abs(r))
  }

  /** The engine force after the cap at the low-speed torque force. */
  function CappedEngine(veh: RealVehicle, velocity: real, engineForce: real -> real): (f: real)
    ensures f <= veh.maxTorqueForce
  {
    Min(engineForce(Max(velocity, 0.1)), veh.maxTorqueForce)
  }

  function RollingResistance(veh: RealVehicle, mass: real): real
  {
    veh.cRr * mass * veh.g
  }

  /** The net force of a mode, rolling resistance included. */
  function NetForce(veh: RealVehicle, velocity: real, mass: real, aero: Aero, muEff: real, mode: Mode,
                    engineForce: real -> real): real
  {
    var propulsion :=
      match mode
      case Braking => -(veh.tireMuPeak * (mass * veh.g + aero.downforceTotal) * 0.85 + aero.drag)
      case Accelerating => Min(CappedEngine(veh, velocity, engineForce), muEff * (mass * veh.g * 0.55 + aero.downforceRear)) - aero.drag
      case Coasting => -aero.drag;
    propulsion - RollingResistance(veh, mass)
  }

  /**
   * The accelerating force is capped by the torque force and by the rear
   * tires at mu_eff; rolling resistance is subtracted in every mode.
   */
  lemma NetForceBounds(veh: RealVehicle, velocity: real, mass: real, aero: Aero, muEff: real, engineForce: real -> real)
    ensures var f := NetForce(veh, velocity, mass, aero, muEff, Accelerating, engineForce) + aero.drag + RollingResistance(veh, mass);
      f <= veh.maxTorqueForce && f <= muEff * (mass * veh.g * 0.55 + aero.downforceRear)
    ensures NetForce(veh, velocity, mass, aero, muEff, Coasting, engineForce) == -aero.drag - RollingResistance(veh, mass)
    ensures NetForce(veh, velocity, mass, aero, muEff, Braking, engineForce) ==
            -(veh.tireMuPeak * (mass * veh.g + aero.downforceTotal) * 0.85 + aero.drag) - RollingResistance(veh, mass)
  {
  }

  /** The part of a pass before any force is computed: mass, DRS, aero, mu_eff and the mode. */
  datatype RealDrive = RealDrive(mass: real, drs: bool, aero: Aero, muEff: real, mode: Mode)

  function RealDriveAt(veh: RealVehicle, seg: Segment, distance: real, velocity: real): (d: RealDrive)
    requires velocity >= 0.0 && veh.massEmpty > 0.0
    ensures d.mass >= veh.massEmpty
    ensures seg.radius.Straight? ==> d.mode == Accelerating
    ensures d.drs ==> seg.kind == "straight" && seg.length >= 300.0
    ensures veh.tireMuPeak >= 0.0 ==> veh.tireMuPeak * 0.8 <= d.muEff <= veh.tireMuPeak
  {
    var mass := GetCurrentMass(veh, distance / 1000.0);
    var drs := DrsGate(veh, seg, velocity * 3.6);
    var aero := CalculateAeroForces(veh, velocity, drs);
    var muEff := MuEff(veh, velocity * 3.6);
    RealDrive(mass, drs, aero, muEff, SelectMode(velocity, LoopCornerLimit(veh, seg.radius, aero.downforceTotal, mass, muEff)))
  }

  /** What one pass of the loop computes. */
  datatype RealStep = RealStep(drive: RealDrive, acceleration: real, velocity: real)

  /** One pass of the loop body with the engine force supplied. */
  function RealStepAt(veh: RealVehicle, seg: Segment, distance: real, velocity: real, dt: real,
                      engineForce: real -> real): (s: RealStep)
    requires velocity >= 0.0 && veh.massEmpty > 0.0
    ensures s.drive == RealDriveAt(veh, seg, distance, velocity)
    ensures s.velocity >= 0.0
    ensures s.velocity == 0.0 || s.velocity == velocity + s.acceleration * dt
  {
    var d := RealDriveAt(veh, seg, distance, velocity);
    var acceleration := NetForce(veh, velocity, d.mass, d.aero, d.muEff, d.mode, engineForce) / d.mass;
    RealStep(d, acceleration, NextSpeed(velocity, acceleration, dt))
  }

  /** Off the throttle the engine force is never consulted. */
  lemma NetForceOffThrottle(veh: RealVehicle, velocity: real, mass: real, aero: Aero, muEff: real, mode: Mode,
                            engine1: real -> real, engine2: real -> real)
    requires mode != Accelerating
    ensures NetForce(veh, velocity, mass, aero, muEff, mode, engine1) == NetForce(veh, velocity, mass, aero, muEff, mode, engine2)
  {
  }

  /**
   * The pass as written: the accelerating branch calls get_engine_force,
   * which the car does not have, so that branch raises AttributeError.
   * The other branches never reach the call.
   */
  function RealStepAsWritten(veh: RealVehicle, seg: Segment, distance: real, velocity: real, dt: real): (r: Result<RealStep, string>)
    requires velocity >= 0.0 && veh.massEmpty > 0.0
    ensures r.Failure? <==> RealDriveAt(veh, seg, distance, velocity).mode == Accelerating
  {
    if RealDriveAt(veh, seg, distance, velocity).mode == Accelerating then
      Failure("AttributeError: 'F1Vehicle' object has no attribute 'get_engine_force'")
    else
      Success(RealStepAt(veh, seg, distance, velocity, dt, _ => 0.0))
  }

  /** Where the pass as written succeeds, it is the pass with any engine force at all. */
  lemma AsWrittenAgreesOffThrottle(veh: RealVehicle, seg: Segment, distance: real, velocity: real, dt: real,
                                   engineForce: real -> real)
    requires velocity >= 0.0 && veh.massEmpty > 0.0
    ensures var r := RealStepAsWritten(veh, seg, distance, velocity, dt);
      r.Success? ==> r.value == RealStepAt(veh, seg, distance, velocity, dt, engineForce)
  {
    var d := RealDriveAt(veh, seg, distance, velocity);
    if d.mode != Accelerating {
      NetForceOffThrottle(veh, velocity, d.mass, d.aero, d.muEff, d.mode, _ => 0.0, engineForce);
    }
  }

  /** From rest the car always wants to accelerate, unless the corner has no grip. */
  lemma AtRestAccelerates(veh: RealVehicle, seg: Segment, distance: real)
    requires veh.massEmpty > 0.0 && veh.tireMuPeak > 0.0 && veh.g > 0.0 && seg.radius != Corner(0.0)
    ensures RealDriveAt(veh, seg, distance, 0.0).mode == Accelerating
  {
    var mass := GetCurrentMass(veh, distance / 1000.0);
    var aero := CalculateAeroForces(veh, 0.0, DrsGate(veh, seg, 0.0));
    assert aero.downforceTotal == 0.0;
    assert MuEff(veh, 0.0) == veh.tireMuPeak;
    if seg.radius.Corner? {
      var r := Abs(seg.radius.r);
      MulPos(mass, veh.g);
      MulPos(veh.tireMuPeak, mass * veh.g);
      var k := veh.tireMuPeak * (mass * veh.g + 0.0) / mass;
      assert k > 0.0;
      MulPos(k, r);
    }
  }

  /**
   * As written, the very first pass of simulate_real_track fails: the car
   * starts at rest, so it accelerates, and the accelerating branch raises.
   * This holds for every circuit whose first segment has grip, the three
   * built-in ones included.
   */
  lemma AsWrittenFirstStepFails(veh: RealVehicle, seg: Segment, dt: real)
    requires veh.massEmpty > 0.0 && veh.tireMuPeak > 0.0 && veh.g > 0.0 && seg.radius != Corner(0.0)
    ensures RealStepAsWritten(veh, seg, 0.0, 0.0, dt).Failure?
  {
    AtRestAccelerates(veh, seg, 0.0);
  }

  /** The concrete case: the default car on Silverstone's first corner (Abbey, radius 100 m). */
  lemma DefaultCarFailsAtAbbey(dt: real)
    ensures RealStepAsWritten(DefaultRealVehicle(15.0),
                              Segment("Abbey", 0.0, 250.0, 250.0, Corner(100.0), "fast_corner", None, 0.0, 0.0, false),
                              0.0, 0.0, dt).Failure?
  {
    AsWrittenFirstStepFails(DefaultRealVehicle(15.0),
                            Segment("Abbey", 0.0, 250.0, 250.0, Corner(100.0), "fast_corner", None, 0.0, 0.0, false), dt);
  }

  /** The five telemetry columns. */
  datatype RealRow = RealRow(time: real, distance: real, velocityKmh: real, segmentName: string, drsActive: int)

  predicate SaneRow(row: RealRow)
  {
    row.velocityKmh >= 0.0 && (row.drsActive == 0 || row.drsActive == 1)
  }

  predicate SampledEvery(rows: seq<RealRow>, dt: real)
  {
    forall k :: 0 <= k < |rows| ==> SaneRow(rows[k]) && rows[k].time == Elapsed((k + 1) * SampleStride, dt)
  }

  predicate DistancesUpTo(rows: seq<RealRow>, d: real)
  {
    (forall j, k :: 0 <= j <= k < |rows| ==> rows[j].distance <= rows[k].distance) &&
    (forall k :: 0 <= k < |rows| ==> rows[k].distance <= d)
  }

  lemma LogRow(rows: seq<RealRow>, row: RealRow, n: nat, dt: real)
    requires SampledEvery(rows, dt) && SaneRow(row)
    requires n >= 1 && |rows| == (n - 1) / SampleStride
    requires n == (n / SampleStride) * SampleStride && n / SampleStride == (n - 1) / SampleStride + 1
    requires row.time == Elapsed(n, dt)
    ensures SampledEvery(rows + [row], dt)
  {
    assert (|rows| + 1) * SampleStride == n;
  }

  /** The row of a step on segment `seg`: time, distance, km/h, the segment's name and the DRS flag. */
  function Row(s: RealStep, seg: Segment, time: real, distance: real): (row: RealRow)
    ensures row.time == time && row.distance == distance && row.segmentName == seg.name
    ensures s.velocity >= 0.0 ==> SaneRow(row)
  {
    RealRow(time, distance, s.velocity * 3.6, seg.name, if s.drive.drs then 1 else 0)
  }

  method Advance(veh: RealVehicle, seg: Segment, velocity: real, distance: real, time: real, dt: real,
                 engineForce: real -> real)
    returns (velocity': real, distance': real, row: RealRow)
    requires velocity >= 0.0 && veh.massEmpty > 0.0
    ensures velocity' == RealStepAt(veh, seg, distance, velocity, dt, engineForce).velocity
    ensures velocity' >= 0.0 && distance' == distance + velocity' * dt
    ensures dt >= 0.0 ==> distance' >= distance
    ensures row == Row(RealStepAt(veh, seg, distance, velocity, dt, engineForce), seg, time + dt, distance')
    ensures SaneRow(row) && row.time == time + dt && row.distance == distance' && row.segmentName == seg.name
  {
    var s := RealStepAt(veh, seg, distance, velocity, dt, engineForce);
    velocity' := s.velocity;
    distance' := distance + velocity' * dt;
    if dt >= 0.0 {
      MulNonneg(velocity', dt);
    }
    row := Row(s, seg, time + dt, distance');
  }

  method MaybeLog(rows: seq<RealRow>, row: RealRow, n: nat, dt: real, previous: real) returns (rows': seq<RealRow>)
    requires n >= 1 && |rows| == (n - 1) / SampleStride
    requires SampledEvery(rows, dt) && SaneRow(row) && row.time == Elapsed(n, dt)
    requires dt >= 0.0 ==> DistancesUpTo(rows, previous) && previous <= row.distance
    ensures |rows'| == n / SampleStride
    ensures rows' == if n % SampleStride == 0 then rows + [row] else rows
    ensures SampledEvery(rows', dt)
    ensures dt >= 0.0 ==> DistancesUpTo(rows', row.distance)
  {
    SampleCountStep(n, SampleStride);
    if n % SampleStride == 0 {
      LogRow(rows, row, n, dt);
      rows' := rows + [row];
    } else {
      rows' := rows;
    }
  }

  // ---------------------------------------------------------------------
  // The trajectory the loop follows: speed and distance after n passes from rest.

  /** What the loop needs of car and track to take a step anywhere on the track. */
  predicate Drivable(veh: RealVehicle, segs: seq<Segment>)
  {
    veh.massEmpty > 0.0 && |segs| > 0
  }

  datatype Point = Point(velocity: real, distance: real)

  /** The step taken at point p, on the segment the lookup finds under p. */
  function StepFrom(veh: RealVehicle, segs: seq<Segment>, p: Point, dt: real, engineForce: real -> real): RealStep
    requires Drivable(veh, segs) && p.velocity >= 0.0
  {
    RealStepAt(veh, SegmentAt(segs, p.distance).value, p.distance, p.velocity, dt, engineForce)
  }

  /** One pass of the loop: the step's speed, and the distance that speed covers in dt. */
  function Next(veh: RealVehicle, segs: seq<Segment>, p: Point, dt: real, engineForce: real -> real): (q: Point)
    requires Drivable(veh, segs) && p.velocity >= 0.0
    ensures q.velocity >= 0.0
    ensures dt >= 0.0 ==> q.distance >= p.distance
  {
    var v := StepFrom(veh, segs, p, dt, engineForce).velocity;
    assert dt >= 0.0 ==> v * dt >= 0.0 by {
      if dt >= 0.0 {
        MulNonneg(v, dt);
      }
    }
    Point(v, p.distance + v * dt)
  }

  /** The row the pass from p logs when its step number is a multiple of the stride. */
  function StepRow(veh: RealVehicle, segs: seq<Segment>, p: Point, time: real, dt: real,
                   engineForce: real -> real): RealRow
    requires Drivable(veh, segs) && p.velocity >= 0.0
  {
    Row(StepFrom(veh, segs, p, dt, engineForce), SegmentAt(segs, p.distance).value, time,
        Next(veh, segs, p, dt, engineForce).distance)
  }

  /**
   * The points the loop passes through from rest: the first is (0, 0) and
   * each is Next of the one before.
   */
  predicate IsRun(veh: RealVehicle, segs: seq<Segment>, dt: real, engineForce: real -> real,
                  path: seq<Point>)
    requires Drivable(veh, segs)
  {
    |path| > 0 && path[0] == Point(0.0, 0.0) &&
    (forall i :: 0 <= i < |path| ==> path[i].velocity >= 0.0) &&
    (forall i {:trigger Next(veh, segs, path[i], dt, engineForce)} :: 0 <= i < |path| - 1 ==>
       path[i + 1] == Next(veh, segs, path[i], dt, engineForce))
  }

  /** The row logged by the pass that closes sample k of the run. */
  function SampleRow(veh: RealVehicle, segs: seq<Segment>, dt: real, engineForce: real -> real, path: seq<Point>, k: nat): RealRow
    requires Drivable(veh, segs) && IsRun(veh, segs, dt, engineForce, path) && k * SampleStride + SampleStride <= |path|
  {
    StepRow(veh, segs, path[k * SampleStride + SampleStride - 1], Elapsed(k * SampleStride + SampleStride, dt), dt, engineForce)
  }

  /** Row k is the row logged by pass (k + 1) * 20 of the run. */
  predicate LoggedRun(veh: RealVehicle, segs: seq<Segment>, dt: real, engineForce: real -> real,
                      path: seq<Point>, rows: seq<RealRow>)
    requires Drivable(veh, segs) && IsRun(veh, segs, dt, engineForce, path)
  {
    |rows| * SampleStride < |path| &&
    forall k: nat {:trigger SampleRow(veh, segs, dt, engineForce, path, k)} :: k < |rows| ==>
      rows[k] == SampleRow(veh, segs, dt, engineForce, path, k)
  }

  /**
   * The loop state after n passes: the path holds the run's first n + 1
   * points and ends at p, every earlier point was short of the lap length,
   * and the rows are the run's samples.
   */
  predicate OnRun(veh: RealVehicle, segs: seq<Segment>, dt: real, engineForce: real -> real,
                  total: real, n: nat, path: seq<Point>, p: Point, rows: seq<RealRow>)
    requires Drivable(veh, segs)
  {
    IsRun(veh, segs, dt, engineForce, path) && |path| == n + 1 && path[n] == p &&
    (forall k :: 0 <= k < n ==> path[k].distance < total) &&
    LoggedRun(veh, segs, dt, engineForce, path, rows)
  }

  /**
   * One more pass from a point short of the lap length stays on the run,
   * once the path and the rows have been extended (RunStep, LogStep).
   */
  lemma OnRunStep(veh: RealVehicle, segs: seq<Segment>, dt: real, engineForce: real -> real,
                  total: real, n: nat, path: seq<Point>, p: Point, rows: seq<RealRow>,
                  p': Point, rows': seq<RealRow>)
    requires Drivable(veh, segs) && OnRun(veh, segs, dt, engineForce, total, n, path, p, rows) && p.distance < total
    requires IsRun(veh, segs, dt, engineForce, path + [p']) && LoggedRun(veh, segs, dt, engineForce, path + [p'], rows')
    ensures OnRun(veh, segs, dt, engineForce, total, n + 1, path + [p'], p', rows')
  {
    assert forall k :: 0 <= k < n + 1 ==> (path + [p'])[k] == path[k];
  }

  /** The pass from the last point logs its row at multiples of the stride and otherwise nothing. */
  lemma LogStep(veh: RealVehicle, segs: seq<Segment>, dt: real, engineForce: real -> real,
                n: nat, path: seq<Point>, p: Point, p': Point, time: real, rows: seq<RealRow>, rows': seq<RealRow>)
    requires Drivable(veh, segs) && IsRun(veh, segs, dt, engineForce, path) && IsRun(veh, segs, dt, engineForce, path + [p'])
    requires LoggedRun(veh, segs, dt, engineForce, path, rows) && |path| == n + 1 && path[n] == p && |rows| == n / SampleStride
    requires p.velocity >= 0.0 && time == Elapsed(n + 1, dt)
    requires rows' == if (n + 1) % SampleStride == 0
                      then rows + [StepRow(veh, segs, p, time, dt, engineForce)]
                      else rows
    ensures LoggedRun(veh, segs, dt, engineForce, path + [p'], rows')
  {
    SampleCountStep(n + 1, SampleStride);
    if (n + 1) % SampleStride == 0 {
      assert rows' == rows + [StepRow(veh, segs, path[|path| - 1], time, dt, engineForce)];
      LoggedStep(veh, segs, dt, engineForce, path, p', rows, time);
    } else {
      LoggedExtend(veh, segs, dt, engineForce, path, p', rows);
    }
  }

  /** A run extended by Next of its last point is a run. */
  lemma RunStep(veh: RealVehicle, segs: seq<Segment>, dt: real, engineForce: real -> real,
                path: seq<Point>, p: Point, p': Point)
    requires Drivable(veh, segs) && IsRun(veh, segs, dt, engineForce, path) && path[|path| - 1] == p
    requires p' == Next(veh, segs, p, dt, engineForce)
    ensures IsRun(veh, segs, dt, engineForce, path + [p'])
  {
    var path' := path + [p'];
    forall i | 0 <= i < |path'| - 1
      ensures path'[i + 1] == Next(veh, segs, path'[i], dt, engineForce)
    {
      assert path'[i] == path[i];
    }
  }

  /** The samples of a run are still its samples once the run goes on. */
  lemma LoggedExtend(veh: RealVehicle, segs: seq<Segment>, dt: real, engineForce: real -> real,
                     path: seq<Point>, p': Point, rows: seq<RealRow>)
    requires Drivable(veh, segs) && IsRun(veh, segs, dt, engineForce, path) && IsRun(veh, segs, dt, engineForce, path + [p'])
    requires LoggedRun(veh, segs, dt, engineForce, path, rows)
    ensures LoggedRun(veh, segs, dt, engineForce, path + [p'], rows)
  {
    forall k: nat | k < |rows|
      ensures rows[k] == SampleRow(veh, segs, dt, engineForce, path + [p'], k)
    {
      assert (path + [p'])[k * SampleStride + SampleStride - 1] == path[k * SampleStride + SampleStride - 1];
      assert rows[k] == SampleRow(veh, segs, dt, engineForce, path, k);
    }
  }

  /** Logging the row of the pass from the last point adds the next sample. */
  lemma LoggedStep(veh: RealVehicle, segs: seq<Segment>, dt: real, engineForce: real -> real,
                   path: seq<Point>, p': Point, rows: seq<RealRow>, time: real)
    requires Drivable(veh, segs) && IsRun(veh, segs, dt, engineForce, path) && IsRun(veh, segs, dt, engineForce, path + [p'])
    requires LoggedRun(veh, segs, dt, engineForce, path, rows)
    requires |rows| * SampleStride + SampleStride == |path| && time == Elapsed(|path|, dt)
    ensures LoggedRun(veh, segs, dt, engineForce, path + [p'], rows + [StepRow(veh, segs, path[|path| - 1], time, dt, engineForce)])
  {
    LoggedExtend(veh, segs, dt, engineForce, path, p', rows);
    var rows' := rows + [StepRow(veh, segs, path[|path| - 1], time, dt, engineForce)];
    forall k: nat | k < |rows'|
      ensures rows'[k] == SampleRow(veh, segs, dt, engineForce, path + [p'], k)
    {
      if k < |rows| {
        assert rows'[k] == rows[k];
      } else {
        assert (path + [p'])[k * SampleStride + SampleStride - 1] == path[|path| - 1];
      }
    }
  }

  /**
   * One pass of the loop at step n: the new point is Next of the old one and
   * the step's row is logged at multiples of 20; the other clauses are
   * SimulateRealTrack's invariants.
   */
  method Tick(veh: RealVehicle, track: Track, n: nat, time: real, distance: real, velocity: real,
              rows: seq<RealRow>, dt: real, engineForce: real -> real)
    returns (time': real, distance': real, velocity': real, rows': seq<RealRow>)
    requires Drivable(veh, track.segments)
    requires n >= 1 && velocity >= 0.0 && time == Elapsed(n - 1, dt)
    requires |rows| == (n - 1) / SampleStride && SampledEvery(rows, dt)
    requires dt >= 0.0 ==> DistancesUpTo(rows, distance)
    ensures Point(velocity', distance') == Next(veh, track.segments, Point(velocity, distance), dt, engineForce)
    ensures rows' == if n % SampleStride == 0
                     then rows + [StepRow(veh, track.segments, Point(velocity, distance), time', dt, engineForce)]
                     else rows
    ensures velocity' >= 0.0 && time' == Elapsed(n, dt)
    ensures |rows'| == n / SampleStride && SampledEvery(rows', dt)
    ensures dt >= 0.0 ==> distance' >= distance && DistancesUpTo(rows', distance')
  {
    var found := track.SegmentAtDistance(distance);
    var row;
    velocity', distance', row := Advance(veh, found.value, velocity, distance, time, dt, engineForce);
    time' := time + dt;
    rows' := MaybeLog(rows, row, n, dt, distance);
  }

  /**
   * The loop body together with the run it follows: the Tick from the last
   * point of the run extends the run by the new point and its samples by
   * the logged row.
   */
  method Pass(veh: RealVehicle, track: Track, n: nat, time: real, distance: real, velocity: real,
              rows: seq<RealRow>, dt: real, engineForce: real -> real, ghost path: seq<Point>)
    returns (time': real, distance': real, velocity': real, rows': seq<RealRow>, ghost path': seq<Point>)
    requires Drivable(veh, track.segments) && distance < track.totalLength
    requires n >= 1 && velocity >= 0.0 && time == Elapsed(n - 1, dt)
    requires |rows| == (n - 1) / SampleStride && SampledEvery(rows, dt)
    requires dt >= 0.0 ==> DistancesUpTo(rows, distance)
    requires OnRun(veh, track.segments, dt, engineForce, track.totalLength, n - 1, path, Point(velocity, distance), rows)
    ensures velocity' >= 0.0 && time' == Elapsed(n, dt)
    ensures |rows'| == n / SampleStride && SampledEvery(rows', dt)
    ensures dt >= 0.0 ==> DistancesUpTo(rows', distance')
    ensures path' == path + [Point(velocity', distance')]
    ensures OnRun(veh, track.segments, dt, engineForce, track.totalLength, n, path', Point(velocity', distance'), rows')
  {
    ghost var p := Point(velocity, distance);
    time', distance', velocity', rows' := Tick(veh, track, n, time, distance, velocity, rows, dt, engineForce);
    ghost var p' := Point(velocity', distance');
    RunStep(veh, track.segments, dt, engineForce, path, p, p');
    LogStep(veh, track.segments, dt, engineForce, n - 1, path, p, p', time', rows, rows');
    OnRunStep(veh, track.segments, dt, engineForce, track.totalLength, n - 1, path, p, rows, p', rows');
    path' := path + [p'];
  }

  /**
   * simulate_real_track with the engine force supplied as `engineForce`
   * (the force at a speed, before the torque cap).
   */
  method SimulateRealTrack(veh: RealVehicle, track: Track, dt: real, engineForce: real -> real)
    returns (telemetry: seq<RealRow>, lapTime: real, ghost steps: nat, ghost finalDistance: real,
             ghost path: seq<Point>)
    requires |track.segments| > 0 || track.totalLength <= 0.0
    requires veh.massEmpty > 0.0
    ensures steps <= MaxIterations
    ensures steps == MaxIterations || finalDistance >= track.totalLength
    ensures track.totalLength <= 0.0 ==> steps == 0 && telemetry == [] && lapTime == 0.0
    ensures |track.segments| > 0 ==>
      |path| == steps + 1 && path[steps].distance == finalDistance &&
      OnRun(veh, track.segments, dt, engineForce, track.totalLength, steps, path, path[steps], telemetry)
    ensures lapTime == Elapsed(steps, dt) && ReadsSteps(lapTime, steps, dt)
    ensures |telemetry| == steps / SampleStride
    ensures SampledEvery(telemetry, dt)
    ensures dt >= 0.0 ==> DistancesUpTo(telemetry, finalDistance)
  {
    var time := 0.0;
    var distance := 0.0;
    var velocity := 0.0;
    telemetry := [];
    var iterations: nat := 0;
    path := [Point(0.0, 0.0)];
    while distance < track.totalLength && iterations < MaxIterations
      invariant iterations <= MaxIterations && velocity >= 0.0
      invariant iterations == 0 ==> distance == 0.0 && velocity == 0.0
      invariant iterations > 0 ==> track.totalLength > 0.0
      invariant time == Elapsed(iterations, dt)
      invariant |telemetry| == iterations / SampleStride
      invariant SampledEvery(telemetry, dt)
      invariant dt >= 0.0 ==> DistancesUpTo(telemetry, distance)
      invariant |track.segments| > 0 ==>
        OnRun(veh, track.segments, dt, engineForce, track.totalLength, iterations, path, Point(velocity, distance),
              telemetry)
      decreases MaxIterations - iterations
    {
      iterations := iterations + 1;
      time, distance, velocity, telemetry, path :=
        Pass(veh, track, iterations, time, distance, velocity, telemetry, dt, engineForce, path);
    }
    lapTime := time;
    steps := iterations;
    finalDistance := distance;
    ClockReadsSteps(lapTime, steps, dt);
  }
}
