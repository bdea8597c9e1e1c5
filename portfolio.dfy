// archive/gptf1_track.py: the portfolio car (one lift coefficient split
// 45/55 between the axles, a load-sensitive friction coefficient) and the
// proportional driver controller of its lap loop. The loop as written
// raises on its first pass; the model keeps that loop beside a corrected
// one that logs each row once.

module Portfolio {
  import opened Common
  import opened Tracks

  datatype PortfolioVehicle = PortfolioVehicle(
    massEmpty: real,
    fuelLoad: real,
    fuelConsumptionRate: real,
    g: real,
    cd: real,
    cdDrs: real,
    clTotal: real,
    frontalArea: real,
    airDensity: real,
    aeroFrontFrac: real,
    maxPower: real,
    drsMinSpeed: real)

  /** F1Vehicle(fuel_load) as constructed (the default fuel load is 10 kg). */
  function DefaultPortfolioVehicle(fuelLoad: real): PortfolioVehicle
  {
    PortfolioVehicle(798.0, fuelLoad, 1.8, 9.81, 0.68, 0.52, 5.0, 1.5, 1.225, 0.45, 746000.0, 80.0)
  }

  // ---------------------------------------------------------------------
  // The car

  /** get_current_mass: the empty car plus the fuel left after `distanceKm` kilometres, floored at empty. */
  function GetCurrentMass(veh: PortfolioVehicle, distanceKm: real): (m: real)
    ensures m >= veh.massEmpty
    ensures distanceKm >= 0.0 && veh.fuelConsumptionRate >= 0.0 && veh.fuelLoad >= 0.0 ==>
            m <= veh.massEmpty + veh.fuelLoad
  {
    veh.massEmpty + Max(0.0, veh.fuelLoad - FuelBurned(veh, distanceKm))
  }

  /** The fuel burned over `distanceKm` kilometres at 1.8 kg per km. */
  function FuelBurned(veh: PortfolioVehicle, distanceKm: real): (b: real)
    ensures distanceKm >= 0.0 && veh.fuelConsumptionRate >= 0.0 ==> b >= 0.0
  {
    var burned := distanceKm * veh.fuelConsumptionRate;
    if distanceKm >= 0.0 && veh.fuelConsumptionRate >= 0.0 then
      MulNonneg(distanceKm, veh.fuelConsumptionRate);
      burned
    else burned
  }

  /** Burning fuel never makes the car heavier. */
  lemma CurrentMassNonIncreasing(veh: PortfolioVehicle, km1: real, km2: real)
    requires km1 <= km2 && veh.fuelConsumptionRate >= 0.0
    ensures GetCurrentMass(veh, km2) <= GetCurrentMass(veh, km1)
  {
    MulLeRight(km1, km2, veh.fuelConsumptionRate);
    assert FuelBurned(veh, km1) <= FuelBurned(veh, km2);
  }

  /** can_use_drs: a straight at the minimum DRS speed or faster; this car has no availability flag. */
  predicate CanUseDrs(veh: PortfolioVehicle, segmentType: string, speedKmh: real)
  {
    segmentType == "straight" && speedKmh >= veh.drsMinSpeed
  }

  datatype Aero = Aero(drag: real, downforce: real, downforceFront: real, downforceRear: real)

  /** aero_forces: drag with Cd or Cd_drs, one downforce split by the front fraction. */
  function AeroForces(veh: PortfolioVehicle, v: real, drs: bool): (a: Aero)
    ensures a.downforceFront + a.downforceRear == a.downforce
  {
    var cd := if drs then veh.cdDrs else veh.cd;
    var downforce := 0.5 * veh.airDensity * veh.clTotal * veh.frontalArea * (v * v);
    Aero(0.5 * veh.airDensity * cd * veh.frontalArea * (v * v), downforce,
         downforce * veh.aeroFrontFrac, downforce * (1.0 - veh.aeroFrontFrac))
  }

  /**
   * DRS changes the drag only; the default car puts 45 % of the downforce
   * on the front axle and 55 % on the rear.
   */
  lemma AeroSplit(veh: PortfolioVehicle, v: real)
    ensures AeroForces(veh, v, true).downforce == AeroForces(veh, v, false).downforce
    ensures AeroForces(veh, v, true).downforceFront == AeroForces(veh, v, false).downforceFront
    ensures AeroForces(veh, v, true).downforceRear == AeroForces(veh, v, false).downforceRear
    ensures veh.aeroFrontFrac == 0.45 ==>
      AeroForces(veh, v, false).downforceFront == 0.45 * AeroForces(veh, v, false).downforce &&
      AeroForces(veh, v, false).downforceRear == 0.55 * AeroForces(veh, v, false).downforce
  {
  }

  /** 1/2 rho A v^2, the factor drag and downforce share. */
  function PressureArea(veh: PortfolioVehicle, v: real): real
  {
    0.5 * veh.airDensity * veh.frontalArea * (v * v)
  }

  /** The drag is its coefficient times 1/2 rho A v^2. */
  lemma DragShape(veh: PortfolioVehicle, v: real, drs: bool)
    ensures AeroForces(veh, v, drs).drag == (if drs then veh.cdDrs else veh.cd) * PressureArea(veh, v)
  {
    var cd := if drs then veh.cdDrs else veh.cd;
    assert 0.5 * veh.airDensity * cd * veh.frontalArea * (v * v) == cd * (0.5 * veh.airDensity * veh.frontalArea * (v * v));
  }

  lemma PressurePositive(veh: PortfolioVehicle, v: real)
    requires veh.airDensity > 0.0 && veh.frontalArea > 0.0 && v != 0.0
    ensures PressureArea(veh, v) > 0.0
  {
    var c := 0.5 * veh.airDensity * veh.frontalArea;
    MulPos(0.5 * veh.airDensity, veh.frontalArea);
    var u := if v > 0.0 then v else -v;
    MulPos(c, u);
    MulPos(c * u, u);
    assert c * u * u == PressureArea(veh, v);
  }

  /** For the default car (Cd 0.68 to 0.52) DRS lowers the drag whenever the car moves. */
  lemma DefaultDrsLowersDrag(fuelLoad: real, v: real)
    requires v != 0.0
    ensures var veh := DefaultPortfolioVehicle(fuelLoad);
      AeroForces(veh, v, true).drag < AeroForces(veh, v, false).drag
  {
    var veh := DefaultPortfolioVehicle(fuelLoad);
    PressurePositive(veh, v);
    DragShape(veh, v, true);
    DragShape(veh, v, false);
    MulLtRight(0.52, 0.68, PressureArea(veh, v));
  }

  /** tire_mu: 2.0 falling by 0.00015 per kN of load, floored at 1.2. */
  function TireMu(fz: real): (mu: real)
    ensures mu >= 1.2
    ensures fz >= 0.0 ==> mu <= 2.0
  {
    Max(1.2, 2.0 - 0.00015 * (fz / 1000.0))
  }

  /** More load never means more grip per newton. */
  lemma TireMuNonIncreasing(fz1: real, fz2: real)
    requires fz1 <= fz2
    ensures TireMu(fz2) <= TireMu(fz1)
  {
  }

  /** The floor is reached at 16000/3 kN of load. */
  lemma TireMuFloor(fz: real)
    ensures TireMu(fz) == 1.2 <==> fz >= 16000000.0 / 3.0
  {
  }

  /** The grip force of a load: tire_mu(Fz) * Fz. */
  function TireLimit(fz: real): (f: real)
    ensures fz >= 0.0 ==> 1.2 * fz <= f && f >= 0.0
  {
    if fz >= 0.0 then
      MulLeRight(1.2, TireMu(fz), fz);
      TireMu(fz) * fz
    else TireMu(fz) * fz
  }

  /**
   * corner_speed, squared: unbounded for an infinite radius, otherwise
   * (mu Fz / m) r with Fz = m g + df. The radius is not made absolute: a
   * negative radius gives a negative square, NaN in the source.
   */
  function CornerSpeed(veh: PortfolioVehicle, radius: Radius, df: real, mass: real): (lim: SpeedLimit)
    requires mass != 0.0
    ensures lim.Unbounded? <==> radius.Straight?
  {
    match radius
    case Straight => Unbounded
    case Corner(r) => Bounded((TireLimit(mass * veh.g + df) / mass) * r)
  }

  /**
   * On a loaded car a corner of non-negative radius has a real speed; a
   * negative radius, which the source does not take the absolute value of,
   * gives a negative square, whose root is NaN.
   */
  lemma CornerSpeedReal(veh: PortfolioVehicle, r: real, df: real, mass: real)
    requires mass > 0.0 && mass * veh.g + df >= 0.0
    ensures r >= 0.0 ==> CornerSpeed(veh, Corner(r), df, mass).sq >= 0.0
    ensures r < 0.0 && mass * veh.g + df > 0.0 ==> CornerSpeed(veh, Corner(r), df, mass).sq < 0.0
  {
    var fz := mass * veh.g + df;
    if r >= 0.0 {
      QuotientTimesNonneg(TireLimit(fz), mass, r);
    } else if fz > 0.0 {
      MulPos(1.2, fz);
      DivAtLeast(TireLimit(fz), mass, 0.0);
      assert TireLimit(fz) / mass != 0.0 by { assert TireLimit(fz) / mass * mass == TireLimit(fz); }
      MulPos(TireLimit(fz) / mass, -r);
    }
  }

  // ---------------------------------------------------------------------
  // The controller

  /**
   * The target speed handed to the controller. Infinite covers np.inf and
   * NaN alike, since the controller tests np.isfinite.
   */
  datatype Target = Infinite | Finite(v: real)

  /**
   * v_target: infinite on aero-limited segments, otherwise the root of the
   * corner speed. `sqrt` is numpy's square root on non-negative arguments;
   * the root of a negative number is NaN, which is not finite.
   */
  function TargetSpeed(veh: PortfolioVehicle, seg: Segment, df: real, mass: real, sqrt: real -> real): (t: Target)
    requires mass != 0.0
    ensures seg.aeroLimited ==> t == Infinite
    ensures seg.radius.Straight? ==> t == Infinite
    ensures t.Finite? ==> t.v == sqrt(CornerSpeed(veh, seg.radius, df, mass).sq)
  {
    if seg.aeroLimited then Infinite
    else
      match CornerSpeed(veh, seg.radius, df, mass)
      case Unbounded => Infinite
      case Bounded(sq) => if sq < 0.0 then Infinite else Finite(sqrt(sq))
  }

  /** A finite target is exactly a non-aero-limited corner whose squared speed is non-negative. */
  lemma TargetFiniteExactly(veh: PortfolioVehicle, seg: Segment, df: real, mass: real, sqrt: real -> real)
    requires mass != 0.0
    ensures TargetSpeed(veh, seg, df, mass, sqrt).Finite? <==>
            !seg.aeroLimited && seg.radius.Corner? && CornerSpeed(veh, seg.radius, df, mass).sq >= 0.0
  {
  }

  /** The denominator of the proportional controller: the target, but at least 10 m/s. */
  function Denominator(vTarget: real): (d: real)
    ensures d >= 10.0 && d >= vTarget
  {
    Max(vTarget, 10.0)
  }

  /**
   * The driver: full throttle for an infinite target, otherwise throttle
   * and brake proportional to the speed error over the denominator, each
   * clipped to [0, 1].
   */
  function Controller(target: Target, v: real): (p: (real, real))
    ensures 0.0 <= p.0 <= 1.0 && 0.0 <= p.1 <= 1.0
    ensures target == Infinite ==> p == (1.0, 0.0)
  {
    match target
    case Infinite => (1.0, 0.0)
    case Finite(vt) =>
      var err := vt - v;
      var denom := Denominator(vt);
      (Clip(err / denom, 0.0, 1.0), Clip(-err / denom, 0.0, 1.0))
  }

  /**
   * Below a finite target the driver only accelerates, above it only
   * brakes, and at it does neither: throttle and brake are never both
   * pressed.
   */
  lemma ControllerFollowsError(vt: real, v: real)
    ensures var p := Controller(Finite(vt), v);
      (p.0 > 0.0 <==> v < vt) && (p.1 > 0.0 <==> v > vt) && p.0 * p.1 == 0.0
  {
    var denom := Denominator(vt);
    var err := vt - v;
    if err > 0.0 {
      DivAtLeast(err, denom, 0.0);
      assert err / denom != 0.0 by { assert err / denom * denom == err; }
      assert -err / denom == -(err / denom);
    } else if err < 0.0 {
      DivAtLeast(-err, denom, 0.0);
      assert -err / denom != 0.0 by { assert -err / denom * denom == -err; }
      assert err / denom == -(-err / denom);
    } else {
      assert err / denom == 0.0;
    }
  }

  // ---------------------------------------------------------------------
  // One step of simulate

  /** The engine force: max_power / max(v, 5), capped by the rear tires at their own load. */
  function EngineForce(veh: PortfolioVehicle, v: real, mass: real, dfRear: real): (f: real)
    ensures f <= veh.maxPower / Max(v, 5.0)
    ensures f <= TireLimit(mass * veh.g + dfRear)
  {
    Min(veh.maxPower / Max(v, 5.0), TireLimit(mass * veh.g + dfRear))
  }

  /** The braking force: the brake fraction of the whole car's grip. */
  function BrakeForce(veh: PortfolioVehicle, brake: real, mass: real, df: real): (f: real)
    ensures 0.0 <= brake <= 1.0 && mass * veh.g + df >= 0.0 ==>
            0.0 <= f <= TireLimit(mass * veh.g + df)
  {
    Fraction(brake, TireLimit(mass * veh.g + df))
  }

  /** b x, which for a fraction b of a non-negative x lies in [0, x]. */
  function Fraction(b: real, x: real): (r: real)
    ensures 0.0 <= b <= 1.0 && x >= 0.0 ==> 0.0 <= r <= x
  {
    if 0.0 <= b <= 1.0 && x >= 0.0 then
      MulNonneg(b, x);
      MulLeRight(b, 1.0, x);
      b * x
    else b * x
  }

  /** The car's state in the loop: time, distance and speed. */
  datatype State = State(t: real, d: real, v: real)

  /** What a pass decides before any force: mass, DRS, aero forces, target and pedals. */
  datatype Drive = Drive(mass: real, drs: bool, aero: Aero, target: Target, throttle: real, brake: real)

  function DriveAt(veh: PortfolioVehicle, seg: Segment, s: State, sqrt: real -> real): (dr: Drive)
    requires veh.massEmpty > 0.0
    ensures dr.mass == GetCurrentMass(veh, s.d / 1000.0)
    ensures dr.drs <==> CanUseDrs(veh, seg.kind, s.v * 3.6)
    ensures dr.aero == AeroForces(veh, s.v, dr.drs)
    ensures dr.target == TargetSpeed(veh, seg, dr.aero.downforce, dr.mass, sqrt)
    ensures (dr.throttle, dr.brake) == Controller(dr.target, s.v)
  {
    var mass := GetCurrentMass(veh, s.d / 1000.0);
    var drs := CanUseDrs(veh, seg.kind, s.v * 3.6);
    var aero := AeroForces(veh, s.v, drs);
    var target := TargetSpeed(veh, seg, aero.downforce, mass, sqrt);
    var p := Controller(target, s.v);
    Drive(mass, drs, aero, target, p.0, p.1)
  }

  /** Off the corners, on a straight or an aero-limited segment, the driver is flat out: full throttle, no brake. */
  lemma FullThrottleOffCorners(veh: PortfolioVehicle, seg: Segment, s: State, sqrt: real -> real)
    requires veh.massEmpty > 0.0 && (seg.aeroLimited || seg.radius.Straight?)
    ensures var dr := DriveAt(veh, seg, s, sqrt);
      dr.target == Infinite && dr.throttle == 1.0 && dr.brake == 0.0
  {
  }

  /** (throttle engine - brake force - drag) / m. */
  function Acceleration(veh: PortfolioVehicle, v: real, dr: Drive): real
    requires dr.mass != 0.0
  {
    (dr.throttle * EngineForce(veh, v, dr.mass, dr.aero.downforceRear)
      - BrakeForce(veh, dr.brake, dr.mass, dr.aero.downforce) - dr.aero.drag) / dr.mass
  }

  /**
   * The Euler update: v = max(0, v + a dt), then d += v dt and t += dt.
   * Time running forward never moves the car back, and a non-positive
   * acceleration never speeds it up.
   */
  function Move(s: State, a: real, dt: real): (n: State)
    ensures n.v >= 0.0 && (n.v == 0.0 || n.v == s.v + a * dt)
    ensures n.d == s.d + n.v * dt && n.t == s.t + dt
    ensures dt >= 0.0 ==> n.d >= s.d
    ensures dt >= 0.0 && a <= 0.0 && s.v >= 0.0 ==> n.v <= s.v
  {
    var v' := NextSpeed(s.v, a, dt);
    if dt >= 0.0 then
      MulNonneg(v', dt);
      if a <= 0.0 then MulNonneg(-a, dt); State(s.t + dt, s.d + v' * dt, v')
      else State(s.t + dt, s.d + v' * dt, v')
    else State(s.t + dt, s.d + v' * dt, v')
  }

  /** What one pass computes. */
  datatype Step = Step(drive: Drive, acceleration: real, next: State)

  /** One pass of the loop body on a segment: the controller, the forces and the Euler update. */
  function StepAt(veh: PortfolioVehicle, seg: Segment, s: State, dt: real, sqrt: real -> real): (st: Step)
    requires veh.massEmpty > 0.0
    ensures st.drive == DriveAt(veh, seg, s, sqrt) && st.drive.mass >= veh.massEmpty
    ensures st.next == Move(s, st.acceleration, dt)
  {
    var dr := DriveAt(veh, seg, s, sqrt);
    var a := Acceleration(veh, s.v, dr);
    Step(dr, a, Move(s, a, dt))
  }

  /** Off the throttle, with drag and a loaded car, the acceleration is never positive. */
  lemma AccelerationOffThrottle(veh: PortfolioVehicle, v: real, dr: Drive)
    requires dr.mass > 0.0 && dr.throttle == 0.0 && dr.aero.drag >= 0.0
    requires 0.0 <= dr.brake <= 1.0 && dr.mass * veh.g + dr.aero.downforce >= 0.0
    ensures Acceleration(veh, v, dr) <= 0.0
  {
    var force := 0.0 * EngineForce(veh, v, dr.mass, dr.aero.downforceRear)
      - BrakeForce(veh, dr.brake, dr.mass, dr.aero.downforce) - dr.aero.drag;
    NonPositiveOverPositive(force, dr.mass);
  }

  /**
   * Off the throttle a physical car (non-negative air density, area and
   * drag coefficients, a loaded car) never speeds up.
   */
  lemma OffThrottleSlows(veh: PortfolioVehicle, seg: Segment, s: State, dt: real, sqrt: real -> real)
    requires veh.massEmpty > 0.0 && veh.g >= 0.0 && dt >= 0.0 && s.v >= 0.0
    requires veh.airDensity >= 0.0 && veh.frontalArea >= 0.0 && veh.cd >= 0.0 && veh.cdDrs >= 0.0
    requires veh.clTotal >= 0.0
    ensures var st := StepAt(veh, seg, s, dt, sqrt);
      st.drive.throttle == 0.0 ==> st.next.v <= s.v
  {
    var st := StepAt(veh, seg, s, dt, sqrt);
    var dr := st.drive;
    if dr.throttle == 0.0 {
      AirForceNonNegative(veh.airDensity, if dr.drs then veh.cdDrs else veh.cd, veh.frontalArea, s.v);
      AirForceNonNegative(veh.airDensity, veh.clTotal, veh.frontalArea, s.v);
      MulNonneg(dr.mass, veh.g);
      AccelerationOffThrottle(veh, s.v, dr);
    }
  }

  lemma AirForceNonNegative(rho: real, c: real, area: real, v: real)
    requires rho >= 0.0 && c >= 0.0 && area >= 0.0
    ensures 0.5 * rho * c * area * (v * v) >= 0.0
  {
    MulNonneg(0.5 * rho, c);
    MulNonneg(0.5 * rho * c, area);
    SquareNonneg(v);
    MulNonneg(0.5 * rho * c * area, v * v);
  }

  lemma NonPositiveOverPositive(x: real, m: real)
    requires x <= 0.0 && m > 0.0
    ensures x / m <= 0.0
  {
    DivAtMost(x, m, 0.0);
  }

  // ---------------------------------------------------------------------
  // The loop

  /** One telemetry row: track, time, distance, speed in km/h and segment name. */
  datatype PortfolioRow = PortfolioRow(track: string, time: real, distance: real, speedKmh: real, segment: string)

  /** What the loop needs of car and track to take a step anywhere on the track. */
  predicate Drivable(veh: PortfolioVehicle, segs: seq<Segment>)
  {
    veh.massEmpty > 0.0 && |segs| > 0
  }

  /** One pass of the loop from state s, on the segment the lookup finds under s. */
  function Next(veh: PortfolioVehicle, segs: seq<Segment>, s: State, dt: real, sqrt: real -> real): (n: State)
    requires Drivable(veh, segs)
    ensures n.v >= 0.0 && n.t == s.t + dt
    ensures dt >= 0.0 ==> n.d >= s.d
  {
    StepAt(veh, SegmentAt(segs, s.d).value, s, dt, sqrt).next
  }

  /** The row the pass from s appends: the new time, distance and speed, and the segment's name. */
  function StepRow(name: string, veh: PortfolioVehicle, segs: seq<Segment>, s: State, dt: real,
                   sqrt: real -> real): (row: PortfolioRow)
    requires Drivable(veh, segs)
    ensures row.track == name && row.time == s.t + dt && row.speedKmh >= 0.0
  {
    var n := Next(veh, segs, s, dt, sqrt);
    MulNonneg(n.v, 3.6);
    PortfolioRow(name, n.t, n.d, n.v * 3.6, SegmentAt(segs, s.d).value.name)
  }

  /** The exception the loop as written raises, with the rows list as it stands when it does. */
  datatype Raised = TypeError(appended: seq<PortfolioRow>)

  /**
   * The loop as written: a track of zero length never enters the loop and
   * returns an empty table at time 0; otherwise the first pass steps the
   * car and appends its row, and line 184 then calls the None that
   * list.append returned.
   */
  function SimulateAsWritten(name: string, veh: PortfolioVehicle, segs: seq<Segment>, totalLength: real, dt: real,
                             sqrt: real -> real): (r: Result<(seq<PortfolioRow>, real), Raised>)
    requires |segs| > 0 || totalLength <= 0.0
    requires veh.massEmpty > 0.0
    ensures r.Failure? <==> totalLength > 0.0
    ensures r.Success? ==> r.value.0 == [] && r.value.1 == 0.0
    ensures r.Failure? ==> |r.error.appended| == 1 && r.error.appended[0].time == dt &&
                           r.error.appended[0].track == name && r.error.appended[0].speedKmh >= 0.0
    ensures r.Failure? ==> r.error.appended[0] == StepRow(name, veh, segs, State(0.0, 0.0, 0.0), dt, sqrt)
  {
    var start := State(0.0, 0.0, 0.0);
    if !(start.d < totalLength) then Success(([], start.t))
    else
      var rows := [] + [StepRow(name, veh, segs, start, dt, sqrt)];
      Failure(TypeError(rows))
  }

  /** Any track with at least one segment of positive length, the three built-in ones included, makes it fail. */
  lemma AsWrittenFailsOnEveryTrack(name: string, veh: PortfolioVehicle, segs: seq<Segment>, dt: real,
                                   sqrt: real -> real)
    requires |segs| > 0 && (forall i :: 0 <= i < |segs| ==> segs[i].length > 0.0)
    requires veh.massEmpty > 0.0
    ensures SimulateAsWritten(name, veh, segs, SumLengths(segs), dt, sqrt).Failure?
  {
    PositiveSum(segs);
  }

  lemma {:induction false} PositiveSum(segs: seq<Segment>)
    requires |segs| > 0 && (forall i :: 0 <= i < |segs| ==> segs[i].length > 0.0)
    ensures SumLengths(segs) > 0.0
    decreases |segs|
  {
    if |segs| > 1 {
      PositiveSum(segs[..|segs| - 1]);
    }
  }

  // ---------------------------------------------------------------------
  // The trajectory the corrected loop follows: the states after n passes from rest.

  /** The states the loop passes through from rest: the first is (0, 0, 0) and each is Next of the one before. */
  predicate IsRun(veh: PortfolioVehicle, segs: seq<Segment>, dt: real, sqrt: real -> real, path: seq<State>)
    requires Drivable(veh, segs)
  {
    |path| > 0 && path[0] == State(0.0, 0.0, 0.0) &&
    (forall i {:trigger Next(veh, segs, path[i], dt, sqrt)} :: 0 <= i < |path| - 1 ==>
       path[i + 1] == Next(veh, segs, path[i], dt, sqrt))
  }

  /** Row k is the row appended by the pass from state k of the run. */
  predicate LoggedRun(name: string, veh: PortfolioVehicle, segs: seq<Segment>, dt: real, sqrt: real -> real,
                      path: seq<State>, rows: seq<PortfolioRow>)
    requires Drivable(veh, segs)
  {
    |rows| < |path| &&
    forall k :: 0 <= k < |rows| ==> rows[k] == StepRow(name, veh, segs, path[k], dt, sqrt)
  }

  /**
   * The loop state after as many passes as rows: the path holds the run's
   * states up to s, every earlier state was short of the lap length, and
   * row k is the row of pass k + 1.
   */
  predicate OnRun(name: string, veh: PortfolioVehicle, segs: seq<Segment>, dt: real, sqrt: real -> real,
                  total: real, path: seq<State>, s: State, rows: seq<PortfolioRow>)
    requires Drivable(veh, segs)
  {
    IsRun(veh, segs, dt, sqrt, path) && |path| == |rows| + 1 && path[|rows|] == s &&
    (forall k :: 0 <= k < |rows| ==> path[k].d < total) &&
    LoggedRun(name, veh, segs, dt, sqrt, path, rows)
  }

  /** A run extended by Next of its last state is a run. */
  lemma RunStep(veh: PortfolioVehicle, segs: seq<Segment>, dt: real, sqrt: real -> real,
                path: seq<State>, s: State, s': State)
    requires Drivable(veh, segs) && IsRun(veh, segs, dt, sqrt, path) && path[|path| - 1] == s
    requires s' == Next(veh, segs, s, dt, sqrt)
    ensures IsRun(veh, segs, dt, sqrt, path + [s'])
  {
    var path' := path + [s'];
    forall i | 0 <= i < |path'| - 1
      ensures path'[i + 1] == Next(veh, segs, path'[i], dt, sqrt)
    {
      assert path'[i] == path[i];
    }
  }

  /** Appending the row of the pass from the last state keeps the rows the run's. */
  lemma LogStep(name: string, veh: PortfolioVehicle, segs: seq<Segment>, dt: real, sqrt: real -> real,
                path: seq<State>, s: State, s': State, rows: seq<PortfolioRow>)
    requires Drivable(veh, segs) && LoggedRun(name, veh, segs, dt, sqrt, path, rows)
    requires |path| == |rows| + 1 && path[|rows|] == s
    ensures LoggedRun(name, veh, segs, dt, sqrt, path + [s'], rows + [StepRow(name, veh, segs, s, dt, sqrt)])
  {
    forall k | 0 <= k < |rows|
      ensures (path + [s'])[k] == path[k]
    {
    }
  }

  /** One more pass from a state short of the lap length stays on the run, once path and rows are extended. */
  lemma OnRunStep(name: string, veh: PortfolioVehicle, segs: seq<Segment>, dt: real, sqrt: real -> real,
                  total: real, path: seq<State>, s: State, rows: seq<PortfolioRow>, s': State,
                  rows': seq<PortfolioRow>)
    requires Drivable(veh, segs) && OnRun(name, veh, segs, dt, sqrt, total, path, s, rows) && s.d < total
    requires IsRun(veh, segs, dt, sqrt, path + [s']) && LoggedRun(name, veh, segs, dt, sqrt, path + [s'], rows')
    requires |rows'| == |rows| + 1
    ensures OnRun(name, veh, segs, dt, sqrt, total, path + [s'], s', rows')
  {
    assert forall k :: 0 <= k < |rows| + 1 ==> (path + [s'])[k] == path[k];
  }

  // ---------------------------------------------------------------------
  // The corrected loop

  /** Row k is the row of step k + 1: its time is (k + 1) dt and its speed is not negative. */
  predicate RowsTimed(rows: seq<PortfolioRow>, dt: real)
  {
    forall k :: 0 <= k < |rows| ==> rows[k].time == Elapsed(k + 1, dt) && rows[k].speedKmh >= 0.0
  }

  predicate DistancesUpTo(rows: seq<PortfolioRow>, d: real)
  {
    (forall j, k :: 0 <= j <= k < |rows| ==> rows[j].distance <= rows[k].distance) &&
    (forall k :: 0 <= k < |rows| ==> rows[k].distance <= d)
  }

  /** One pass: look up the segment, step, and append the row once. */
  method Tick(veh: PortfolioVehicle, track: Track, s: State, rows: seq<PortfolioRow>, dt: real, sqrt: real -> real)
    returns (s': State, rows': seq<PortfolioRow>)
    requires Drivable(veh, track.segments)
    requires s.v >= 0.0 && s.t == Elapsed(|rows|, dt) && RowsTimed(rows, dt)
    requires dt >= 0.0 ==> DistancesUpTo(rows, s.d)
    ensures s' == Next(veh, track.segments, s, dt, sqrt)
    ensures rows' == rows + [StepRow(track.name, veh, track.segments, s, dt, sqrt)]
    ensures s'.v >= 0.0 && s'.t == Elapsed(|rows'|, dt) && RowsTimed(rows', dt)
    ensures |rows'| == |rows| + 1 && rows'[..|rows|] == rows
    ensures dt >= 0.0 ==> s'.d >= s.d && DistancesUpTo(rows', s'.d)
  {
    var found := track.SegmentAtDistance(s.d);
    var seg := found.value;
    var st := StepAt(veh, seg, s, dt, sqrt);
    s' := st.next;
    MulNonneg(s'.v, 3.6);
    rows' := rows + [PortfolioRow(track.name, s'.t, s'.d, s'.v * 3.6, seg.name)];
  }

  /**
   * simulate with the row appended once, as evidently intended. The source
   * loop has no iteration cap; `maxSteps` bounds it here.
   */
  method Simulate(veh: PortfolioVehicle, track: Track, dt: real, sqrt: real -> real, maxSteps: nat)
    returns (rows: seq<PortfolioRow>, lapTime: real, ghost finalDistance: real, ghost path: seq<State>)
    requires |track.segments| > 0 || track.totalLength <= 0.0
    requires veh.massEmpty > 0.0
    ensures |rows| <= maxSteps
    ensures |rows| == maxSteps || finalDistance >= track.totalLength
    ensures track.totalLength > 0.0 && maxSteps > 0 ==> |rows| >= 1
    ensures track.totalLength <= 0.0 ==> rows == [] && lapTime == 0.0
    ensures |track.segments| > 0 ==>
      |path| == |rows| + 1 && path[|rows|].d == finalDistance &&
      OnRun(track.name, veh, track.segments, dt, sqrt, track.totalLength, path, path[|rows|], rows)
    ensures track.totalLength > 0.0 && maxSteps > 0 ==>
      rows[0] == SimulateAsWritten(track.name, veh, track.segments, track.totalLength, dt, sqrt).error.appended[0]
    ensures lapTime == Elapsed(|rows|, dt) && ReadsSteps(lapTime, |rows|, dt)
    ensures RowsTimed(rows, dt)
    ensures dt >= 0.0 ==> DistancesUpTo(rows, finalDistance)
  {
    var s := State(0.0, 0.0, 0.0);
    rows := [];
    path := [s];
    while s.d < track.totalLength && |rows| < maxSteps
      invariant |rows| <= maxSteps && s.v >= 0.0
      invariant |rows| == 0 ==> s == State(0.0, 0.0, 0.0)
      invariant |rows| > 0 ==> track.totalLength > 0.0
      invariant s.t == Elapsed(|rows|, dt) && RowsTimed(rows, dt)
      invariant dt >= 0.0 ==> DistancesUpTo(rows, s.d)
      invariant |track.segments| > 0 ==>
        OnRun(track.name, veh, track.segments, dt, sqrt, track.totalLength, path, s, rows)
      decreases maxSteps - |rows|
    {
      ghost var before, logged := s, rows;
      s, rows := Tick(veh, track, s, rows, dt, sqrt);
      RunStep(veh, track.segments, dt, sqrt, path, before, s);
      LogStep(track.name, veh, track.segments, dt, sqrt, path, before, s, logged);
      OnRunStep(track.name, veh, track.segments, dt, sqrt, track.totalLength, path, before, logged, s, rows);
      path := path + [s];
    }
    lapTime := s.t;
    finalDistance := s.d;
    ClockReadsSteps(lapTime, |rows|, dt);
  }
}
