// simulate_real_track and validate_against_real_f1 of
// src/f1_realtrack_tiremodel.py: the lap around a real circuit with
// fuel-dependent mass, DRS on eligible segments, the rear-axle traction
// limit, axle loads and per-axle friction, logged every 20th step; and the
// comparison of a simulated time with the circuit's lap record.

module TireModelLap {
  import opened Common
  import opened Tracks
  import opened BaseVehicle

  const MaxIterations: nat := 150000
  const SampleStride: nat := 20

  /** One telemetry row: the eleven columns of the source's DataFrame. */
  datatype TrackRow = TrackRow(
    time: real,
    distance: real,
    velocityKmh: real,
    segmentName: string,
    drsActive: int,
    frontLoad: real,
    rearLoad: real,
    muFront: real,
    muRear: real,
    muEff: real,
    lateralAcc: real)

  /** The engine force below the rear tires' limit: 10000 N up to 5 m/s, max_power / v above. */
  function EngineForce(veh: Vehicle, velocity: real): real
  {
    if velocity > 5.0 then veh.maxPower / velocity else 10000.0
  }

  /** The traction the rear axle allows: mu_peak (0.55 m g + rear downforce). */
  function RearTraction(veh: Vehicle, mass: real, aero: Aero): real
  {
    veh.tireMuPeak * (mass * veh.g * 0.55 + aero.downforceRear)
  }

  /** The braking force: 85 % of mu_peak (m g + total downforce). */
  function BrakeForce(veh: Vehicle, mass: real, aero: Aero): real
  {
    veh.tireMuPeak * (mass * veh.g + aero.downforceTotal) * 0.85
  }

  function NetForce(veh: Vehicle, velocity: real, mass: real, aero: Aero, mode: Mode): real
  {
    match mode
    case Braking => -(BrakeForce(veh, mass, aero) + aero.drag)
    case Accelerating => Min(EngineForce(veh, velocity), RearTraction(veh, mass, aero)) - aero.drag
    case Coasting => -aero.drag
  }

  /**
   * The accelerating force never exceeds the rear traction nor the engine;
   * braking subtracts the brake force and drag; coasting only drag.
   */
  lemma NetForceBounds(veh: Vehicle, velocity: real, mass: real, aero: Aero)
    ensures NetForce(veh, velocity, mass, aero, Accelerating) + aero.drag <= RearTraction(veh, mass, aero)
    ensures NetForce(veh, velocity, mass, aero, Accelerating) + aero.drag <= EngineForce(veh, velocity)
    ensures NetForce(veh, velocity, mass, aero, Braking) + aero.drag == -BrakeForce(veh, mass, aero)
    ensures NetForce(veh, velocity, mass, aero, Coasting) == -aero.drag
    ensures velocity <= 5.0 ==> NetForce(veh, velocity, mass, aero, Accelerating) + aero.drag <= 10000.0
  {
  }

  /** v^2 / |r| in a corner; 0 on a straight and, as the source guards, for a zero radius. */
  function LateralAcc(radius: Radius, velocity: real): (a: real)
    ensures a >= 0.0
    ensures radius.Straight? || radius == Corner(0.0) ==> a == 0.0
  {
    match radius
    case Straight => 0.0
    case Corner(r) =>
      if r == 0.0 then 0.0
      else
        SquareNonneg(velocity);
        (velocity * velocity) / Abs(r)
  }

  /** The load-weighted friction coefficient; 0 when the axles carry nothing. */
  function EffectiveMu(muFront: real, frontLoad: real, muRear: real, rearLoad: real): real
  {
    var total := frontLoad + rearLoad;
    if total <= 0.0 then 0.0 else (muFront * frontLoad + muRear * rearLoad) / total
  }

  /** With both axles loaded, the weighted coefficient lies between the bounds of the per-axle ones. */
  lemma EffectiveMuBounds(muFront: real, frontLoad: real, muRear: real, rearLoad: real, lo: real, hi: real)
    requires frontLoad > 0.0 && rearLoad > 0.0 && lo <= muFront <= hi && lo <= muRear <= hi
    ensures lo <= EffectiveMu(muFront, frontLoad, muRear, rearLoad) <= hi
  {
    WeightedMeanBounds(muFront, muRear, frontLoad, rearLoad, lo, hi);
  }

  /** Everything one pass of the loop computes. */
  datatype TrackStep = TrackStep(
    mass: real,
    drs: bool,
    aero: Aero,
    mode: Mode,
    acceleration: real,
    lateralAcc: real,
    frontLoad: real,
    rearLoad: real,
    muFront: real,
    muRear: real,
    muEff: real,
    velocity: real)

  /** A car whose load-transfer formula can divide by its wheelbase and track width. */
  predicate HasGeometry(veh: Vehicle)
  {
    veh.wheelbase != 0.0 && veh.trackWidth != 0.0
  }

  /** The mode and acceleration half of a step: mass, DRS, aero, corner limit, mode, force over mass. */
  datatype Drive = Drive(mass: real, drs: bool, aero: Aero, mode: Mode, acceleration: real)

  function DriveAt(veh: Vehicle, seg: Segment, distance: real, velocity: real): (d: Drive)
    requires velocity >= 0.0
    ensures d.mass >= 798.0
    ensures seg.radius.Straight? ==> d.mode == Accelerating
  {
    var mass := GetCurrentMass(veh, distance / 1000.0);
    var drs := CanUseDrs(seg.kind, velocity * 3.6);
    var aero := CalculateAeroForces(veh, velocity, drs);
    var mode := SelectMode(velocity, CalculateCornerSpeed(veh, seg.radius, aero.downforceTotal, Some(mass)));
    Drive(mass, drs, aero, mode, NetForce(veh, velocity, mass, aero, mode) / mass)
  }

  /** The friction half of a step: axle loads, per-axle and load-weighted friction. */
  datatype Grip = Grip(frontLoad: real, rearLoad: real, muFront: real, muRear: real, muEff: real)

  function GripAt(veh: Vehicle, acceleration: real, lateral: real, log10: real -> real): (g: Grip)
    requires HasGeometry(veh)
    ensures g.frontLoad >= 1.0 && g.rearLoad >= 1.0
    ensures 0.8 <= g.muFront <= Max(0.8, veh.tireMuPeak) && 0.8 <= g.muRear <= Max(0.8, veh.tireMuPeak)
    ensures 0.8 <= g.muEff <= Max(0.8, veh.tireMuPeak)
  {
    var loads := GetAxleNormalLoads(veh, acceleration, lateral);
    var muFront := TireMuVsNormal(veh, loads.0 / 2.0, log10);
    var muRear := TireMuVsNormal(veh, loads.1 / 2.0, log10);
    EffectiveMuBounds(muFront, loads.0, muRear, loads.1, 0.8, Max(0.8, veh.tireMuPeak));
    Grip(loads.0, loads.1, muFront, muRear, EffectiveMu(muFront, loads.0, muRear, loads.1))
  }

  /**
   * One pass of the loop body on segment `seg` at `distance` metres and
   * speed `velocity`.
   */
  function TrackStepAt(veh: Vehicle, seg: Segment, distance: real, velocity: real, dt: real,
                       log10: real -> real): (s: TrackStep)
    requires velocity >= 0.0 && HasGeometry(veh)
    ensures s.mass >= 798.0 && s.velocity >= 0.0
    ensures s.velocity == 0.0 || s.velocity == velocity + s.acceleration * dt
    ensures s.velocity >= velocity + s.acceleration * dt
    ensures seg.radius.Straight? ==> s.mode == Accelerating
    ensures s.frontLoad >= 1.0 && s.rearLoad >= 1.0
    ensures 0.8 <= s.muFront <= Max(0.8, veh.tireMuPeak) && 0.8 <= s.muRear <= Max(0.8, veh.tireMuPeak)
    ensures 0.8 <= s.muEff <= Max(0.8, veh.tireMuPeak)
  {
    var d := DriveAt(veh, seg, distance, velocity);
    var lateral := LateralAcc(seg.radius, velocity);
    var g := GripAt(veh, d.acceleration, lateral, log10);
    TrackStep(d.mass, d.drs, d.aero, d.mode, d.acceleration, lateral, g.frontLoad, g.rearLoad,
              g.muFront, g.muRear, g.muEff, NextSpeed(velocity, d.acceleration, dt))
  }

  /**
   * In a corner whose limit at the current mass and downforce is `limit`
   * (the square root the source takes), the step brakes above 1.1 limit,
   * accelerates below 0.95 limit and coasts in between.
   */
  lemma TrackStepFollowsRule(veh: Vehicle, seg: Segment, distance: real, velocity: real, dt: real,
                             log10: real -> real, limit: real)
    requires velocity >= 0.0 && HasGeometry(veh) && seg.radius.Corner?
    requires limit >= 0.0
    requires var mass := GetCurrentMass(veh, distance / 1000.0);
      var aero := CalculateAeroForces(veh, velocity, CanUseDrs(seg.kind, velocity * 3.6));
      limit * limit == LateralGripPerKg(veh, aero.downforceTotal, mass) * Abs(seg.radius.r)
    ensures TrackStepAt(veh, seg, distance, velocity, dt, log10).mode ==
            if velocity > limit * 1.1 then Braking
            else if velocity < limit * 0.95 then Accelerating
            else Coasting
  {
    var mass := GetCurrentMass(veh, distance / 1000.0);
    var aero := CalculateAeroForces(veh, velocity, CanUseDrs(seg.kind, velocity * 3.6));
    assert CalculateCornerSpeed(veh, seg.radius, aero.downforceTotal, Some(mass)) == Bounded(limit * limit);
    SelectModeMatchesRule(velocity, limit);
  }

  /** DRS opens exactly on straights and fast corners above 100 km/h, and then lowers the drag. */
  lemma TrackStepDrs(veh: Vehicle, seg: Segment, distance: real, velocity: real, dt: real, log10: real -> real)
    requires velocity > 0.0 && HasGeometry(veh)
    requires veh.airDensity > 0.0 && veh.frontalArea > 0.0 && veh.cd > 0.0 && veh.clRear > 0.0
    ensures var s := TrackStepAt(veh, seg, distance, velocity, dt, log10);
      (s.drs <==> (seg.kind == "straight" || seg.kind == "fast_corner") && velocity * 3.6 > 100.0) &&
      (s.drs ==> s.aero.drag < CalculateAeroForces(veh, velocity, false).drag)
  {
    CanUseDrsExactly(seg.kind, velocity * 3.6);
    AeroDrsEffect(veh, velocity);
  }

  function Row(s: TrackStep, seg: Segment, time: real, distance: real): (row: TrackRow)
    ensures row.time == time && row.distance == distance
  {
    TrackRow(time, distance, s.velocity * 3.6, seg.name, if s.drs then 1 else 0,
             s.frontLoad, s.rearLoad, s.muFront, s.muRear, s.muEff, s.lateralAcc)
  }

  /** What every logged row satisfies for a car with peak friction mu_peak. */
  predicate SaneRow(row: TrackRow, muPeak: real)
  {
    row.velocityKmh >= 0.0 && (row.drsActive == 0 || row.drsActive == 1) &&
    row.frontLoad >= 1.0 && row.rearLoad >= 1.0 && row.lateralAcc >= 0.0 &&
    0.8 <= row.muFront <= Max(0.8, muPeak) && 0.8 <= row.muRear <= Max(0.8, muPeak) &&
    0.8 <= row.muEff <= Max(0.8, muPeak)
  }

  /** Row k is the sane sample of step (k + 1) * 20. */
  predicate SampledEvery(rows: seq<TrackRow>, dt: real, muPeak: real)
  {
    forall k :: 0 <= k < |rows| ==> SaneRow(rows[k], muPeak) && rows[k].time == Elapsed((k + 1) * SampleStride, dt)
  }

  predicate DistancesUpTo(rows: seq<TrackRow>, d: real)
  {
    (forall j, k :: 0 <= j <= k < |rows| ==> rows[j].distance <= rows[k].distance) &&
    (forall k :: 0 <= k < |rows| ==> rows[k].distance <= d)
  }

  lemma LogRow(rows: seq<TrackRow>, row: TrackRow, n: nat, dt: real, muPeak: real)
    requires SampledEvery(rows, dt, muPeak) && SaneRow(row, muPeak)
    requires n >= 1 && |rows| == (n - 1) / SampleStride
    requires n == (n / SampleStride) * SampleStride && n / SampleStride == (n - 1) / SampleStride + 1
    requires row.time == Elapsed(n, dt)
    ensures SampledEvery(rows + [row], dt, muPeak)
  {
    assert (|rows| + 1) * SampleStride == n;
  }

  /** The loop body after the lookup: one step, the distance it covers and its row. */
  method Advance(veh: Vehicle, seg: Segment, velocity: real, distance: real, time: real, dt: real,
                 log10: real -> real)
    returns (velocity': real, distance': real, row: TrackRow)
    requires velocity >= 0.0 && HasGeometry(veh)
    ensures velocity' == TrackStepAt(veh, seg, distance, velocity, dt, log10).velocity
    ensures velocity' >= 0.0 && distance' == distance + velocity' * dt
    ensures dt >= 0.0 ==> distance' >= distance
    ensures row == Row(TrackStepAt(veh, seg, distance, velocity, dt, log10), seg, time + dt, distance')
    ensures SaneRow(row, veh.tireMuPeak) && row.time == time + dt && row.distance == distance'
  {
    var s := TrackStepAt(veh, seg, distance, velocity, dt, log10);
    velocity' := s.velocity;
    distance' := distance + velocity' * dt;
    if dt >= 0.0 {
      MulNonneg(velocity', dt);
    }
    row := Row(s, seg, time + dt, distance');
  }

  /** Log the row when step n is a multiple of 20; `previous` is the distance before the step. */
  method MaybeLog(rows: seq<TrackRow>, row: TrackRow, n: nat, dt: real, muPeak: real, previous: real)
    returns (rows': seq<TrackRow>)
    requires n >= 1 && |rows| == (n - 1) / SampleStride
    requires SampledEvery(rows, dt, muPeak) && SaneRow(row, muPeak) && row.time == Elapsed(n, dt)
    requires dt >= 0.0 ==> DistancesUpTo(rows, previous) && previous <= row.distance
    ensures |rows'| == n / SampleStride
    ensures rows' == if n % SampleStride == 0 then rows + [row] else rows
    ensures SampledEvery(rows', dt, muPeak)
    ensures dt >= 0.0 ==> DistancesUpTo(rows', row.distance)
  {
    SampleCountStep(n, SampleStride);
    if n % SampleStride == 0 {
      LogRow(rows, row, n, dt, muPeak);
      rows' := rows + [row];
    } else {
      rows' := rows;
    }
  }

  // ---------------------------------------------------------------------
  // The trajectory the loop follows: speed and distance after n passes from rest.

  /** What the loop needs of car and track to take a step anywhere on the track. */
  predicate Drivable(veh: Vehicle, segs: seq<Segment>)
  {
    HasGeometry(veh) && |segs| > 0
  }

  datatype Point = Point(velocity: real, distance: real)

  /** The step taken at point p, on the segment the lookup finds under p. */
  function StepFrom(veh: Vehicle, segs: seq<Segment>, p: Point, dt: real, log10: real -> real): TrackStep
    requires Drivable(veh, segs) && p.velocity >= 0.0
  {
    TrackStepAt(veh, SegmentAt(segs, p.distance).value, p.distance, p.velocity, dt, log10)
  }

  /** One pass of the loop: the step's speed, and the distance that speed covers in dt. */
  function Next(veh: Vehicle, segs: seq<Segment>, p: Point, dt: real, log10: real -> real): (q: Point)
    requires Drivable(veh, segs) && p.velocity >= 0.0
    ensures q.velocity >= 0.0
    ensures dt >= 0.0 ==> q.distance >= p.distance
  {
    var v := StepFrom(veh, segs, p, dt, log10).velocity;
    assert dt >= 0.0 ==> v * dt >= 0.0 by {
      if dt >= 0.0 {
        MulNonneg(v, dt);
      }
    }
    Point(v, p.distance + v * dt)
  }

  /** The row the pass from p logs when its step number is a multiple of the stride. */
  function StepRow(veh: Vehicle, segs: seq<Segment>, p: Point, time: real, dt: real, log10: real -> real): TrackRow
    requires Drivable(veh, segs) && p.velocity >= 0.0
  {
    Row(StepFrom(veh, segs, p, dt, log10), SegmentAt(segs, p.distance).value, time,
        Next(veh, segs, p, dt, log10).distance)
  }

  /**
   * The points the loop passes through from rest: the first is (0, 0) and
   * each is Next of the one before.
   */
  predicate IsRun(veh: Vehicle, segs: seq<Segment>, dt: real, log10: real -> real,
                  path: seq<Point>)
    requires Drivable(veh, segs)
  {
    |path| > 0 && path[0] == Point(0.0, 0.0) &&
    (forall i :: 0 <= i < |path| ==> path[i].velocity >= 0.0) &&
    (forall i {:trigger Next(veh, segs, path[i], dt, log10)} :: 0 <= i < |path| - 1 ==>
       path[i + 1] == Next(veh, segs, path[i], dt, log10))
  }

  /** The row logged by the pass that closes sample k of the run. */
  function SampleRow(veh: Vehicle, segs: seq<Segment>, dt: real, log10: real -> real, path: seq<Point>, k: nat): TrackRow
    requires Drivable(veh, segs) && IsRun(veh, segs, dt, log10, path) && k * SampleStride + SampleStride <= |path|
  {
    StepRow(veh, segs, path[k * SampleStride + SampleStride - 1], Elapsed(k * SampleStride + SampleStride, dt), dt, log10)
  }

  /** Row k is the row logged by pass (k + 1) * 20 of the run. */
  predicate LoggedRun(veh: Vehicle, segs: seq<Segment>, dt: real, log10: real -> real,
                      path: seq<Point>, rows: seq<TrackRow>)
    requires Drivable(veh, segs) && IsRun(veh, segs, dt, log10, path)
  {
    |rows| * SampleStride < |path| &&
    forall k: nat {:trigger SampleRow(veh, segs, dt, log10, path, k)} :: k < |rows| ==>
      rows[k] == SampleRow(veh, segs, dt, log10, path, k)
  }

  /**
   * The loop state after n passes: the path holds the run's first n + 1
   * points and ends at p, every earlier point was short of the lap length,
   * and the rows are the run's samples.
   */
  predicate OnRun(veh: Vehicle, segs: seq<Segment>, dt: real, log10: real -> real,
                  total: real, n: nat, path: seq<Point>, p: Point, rows: seq<TrackRow>)
    requires Drivable(veh, segs)
  {
    IsRun(veh, segs, dt, log10, path) && |path| == n + 1 && path[n] == p &&
    (forall k :: 0 <= k < n ==> path[k].distance < total) &&
    LoggedRun(veh, segs, dt, log10, path, rows)
  }

  /**
   * One more pass from a point short of the lap length stays on the run,
   * once the path and the rows have been extended (RunStep, LogStep).
   */
  lemma OnRunStep(veh: Vehicle, segs: seq<Segment>, dt: real, log10: real -> real,
                  total: real, n: nat, path: seq<Point>, p: Point, rows: seq<TrackRow>,
                  p': Point, rows': seq<TrackRow>)
    requires Drivable(veh, segs) && OnRun(veh, segs, dt, log10, total, n, path, p, rows) && p.distance < total
    requires IsRun(veh, segs, dt, log10, path + [p']) && LoggedRun(veh, segs, dt, log10, path + [p'], rows')
    ensures OnRun(veh, segs, dt, log10, total, n + 1, path + [p'], p', rows')
  {
    assert forall k :: 0 <= k < n + 1 ==> (path + [p'])[k] == path[k];
  }

  /** The pass from the last point logs its row at multiples of the stride and otherwise nothing. */
  lemma LogStep(veh: Vehicle, segs: seq<Segment>, dt: real, log10: real -> real,
                n: nat, path: seq<Point>, p: Point, p': Point, time: real, rows: seq<TrackRow>, rows': seq<TrackRow>)
    requires Drivable(veh, segs) && IsRun(veh, segs, dt, log10, path) && IsRun(veh, segs, dt, log10, path + [p'])
    requires LoggedRun(veh, segs, dt, log10, path, rows) && |path| == n + 1 && path[n] == p && |rows| == n / SampleStride
    requires p.velocity >= 0.0 && time == Elapsed(n + 1, dt)
    requires rows' == if (n + 1) % SampleStride == 0
                      then rows + [StepRow(veh, segs, p, time, dt, log10)]
                      else rows
    ensures LoggedRun(veh, segs, dt, log10, path + [p'], rows')
  {
    SampleCountStep(n + 1, SampleStride);
    if (n + 1) % SampleStride == 0 {
      assert rows' == rows + [StepRow(veh, segs, path[|path| - 1], time, dt, log10)];
      LoggedStep(veh, segs, dt, log10, path, p', rows, time);
    } else {
      LoggedExtend(veh, segs, dt, log10, path, p', rows);
    }
  }

  /** A run extended by Next of its last point is a run. */
  lemma RunStep(veh: Vehicle, segs: seq<Segment>, dt: real, log10: real -> real,
                path: seq<Point>, p: Point, p': Point)
    requires Drivable(veh, segs) && IsRun(veh, segs, dt, log10, path) && path[|path| - 1] == p
    requires p' == Next(veh, segs, p, dt, log10)
    ensures IsRun(veh, segs, dt, log10, path + [p'])
  {
    var path' := path + [p'];
    forall i | 0 <= i < |path'| - 1
      ensures path'[i + 1] == Next(veh, segs, path'[i], dt, log10)
    {
      assert path'[i] == path[i];
    }
  }

  /** The samples of a run are still its samples once the run goes on. */
  lemma LoggedExtend(veh: Vehicle, segs: seq<Segment>, dt: real, log10: real -> real,
                     path: seq<Point>, p': Point, rows: seq<TrackRow>)
    requires Drivable(veh, segs) && IsRun(veh, segs, dt, log10, path) && IsRun(veh, segs, dt, log10, path + [p'])
    requires LoggedRun(veh, segs, dt, log10, path, rows)
    ensures LoggedRun(veh, segs, dt, log10, path + [p'], rows)
  {
    forall k: nat | k < |rows|
      ensures rows[k] == SampleRow(veh, segs, dt, log10, path + [p'], k)
    {
      assert (path + [p'])[k * SampleStride + SampleStride - 1] == path[k * SampleStride + SampleStride - 1];
      assert rows[k] == SampleRow(veh, segs, dt, log10, path, k);
    }
  }

  /** Logging the row of the pass from the last point adds the next sample. */
  lemma LoggedStep(veh: Vehicle, segs: seq<Segment>, dt: real, log10: real -> real,
                   path: seq<Point>, p': Point, rows: seq<TrackRow>, time: real)
    requires Drivable(veh, segs) && IsRun(veh, segs, dt, log10, path) && IsRun(veh, segs, dt, log10, path + [p'])
    requires LoggedRun(veh, segs, dt, log10, path, rows)
    requires |rows| * SampleStride + SampleStride == |path| && time == Elapsed(|path|, dt)
    ensures LoggedRun(veh, segs, dt, log10, path + [p'], rows + [StepRow(veh, segs, path[|path| - 1], time, dt, log10)])
  {
    LoggedExtend(veh, segs, dt, log10, path, p', rows);
    var rows' := rows + [StepRow(veh, segs, path[|path| - 1], time, dt, log10)];
    forall k: nat | k < |rows'|
      ensures rows'[k] == SampleRow(veh, segs, dt, log10, path + [p'], k)
    {
      if k < |rows| {
        assert rows'[k] == rows[k];
      } else {
        assert (path + [p'])[k * SampleStride + SampleStride - 1] == path[|path| - 1];
      }
    }
  }

  /**
   * One pass of the loop at step n: the new point is Next of the old one and
   * the step's row is logged at multiples of 20; the other clauses are
   * SimulateRealTrack's invariants.
   */
  method Tick(veh: Vehicle, track: Track, n: nat, time: real, distance: real, velocity: real,
              rows: seq<TrackRow>, dt: real, log10: real -> real)
    returns (time': real, distance': real, velocity': real, rows': seq<TrackRow>)
    requires Drivable(veh, track.segments)
    requires n >= 1 && velocity >= 0.0 && time == Elapsed(n - 1, dt)
    requires |rows| == (n - 1) / SampleStride && SampledEvery(rows, dt, veh.tireMuPeak)
    requires dt >= 0.0 ==> DistancesUpTo(rows, distance)
    ensures Point(velocity', distance') == Next(veh, track.segments, Point(velocity, distance), dt, log10)
    ensures rows' == if n % SampleStride == 0
                     then rows + [StepRow(veh, track.segments, Point(velocity, distance), time', dt, log10)]
                     else rows
    ensures velocity' >= 0.0 && time' == Elapsed(n, dt)
    ensures |rows'| == n / SampleStride && SampledEvery(rows', dt, veh.tireMuPeak)
    ensures dt >= 0.0 ==> distance' >= distance && DistancesUpTo(rows', distance')
  {
    var found := track.SegmentAtDistance(distance);
    var row;
    velocity', distance', row := Advance(veh, found.value, velocity, distance, time, dt, log10);
    time' := time + dt;
    rows' := MaybeLog(rows, row, n, dt, veh.tireMuPeak, distance);
  }

  /**
   * The loop body together with the run it follows: the Tick from the last
   * point of the run extends the run by the new point and its samples by
   * the logged row.
   */
  method Pass(veh: Vehicle, track: Track, n: nat, time: real, distance: real, velocity: real,
              rows: seq<TrackRow>, dt: real, log10: real -> real, ghost path: seq<Point>)
    returns (time': real, distance': real, velocity': real, rows': seq<TrackRow>, ghost path': seq<Point>)
    requires Drivable(veh, track.segments) && distance < track.totalLength
    requires n >= 1 && velocity >= 0.0 && time == Elapsed(n - 1, dt)
    requires |rows| == (n - 1) / SampleStride && SampledEvery(rows, dt, veh.tireMuPeak)
    requires dt >= 0.0 ==> DistancesUpTo(rows, distance)
    requires OnRun(veh, track.segments, dt, log10, track.totalLength, n - 1, path, Point(velocity, distance), rows)
    ensures velocity' >= 0.0 && time' == Elapsed(n, dt)
    ensures |rows'| == n / SampleStride && SampledEvery(rows', dt, veh.tireMuPeak)
    ensures dt >= 0.0 ==> DistancesUpTo(rows', distance')
    ensures path' == path + [Point(velocity', distance')]
    ensures OnRun(veh, track.segments, dt, log10, track.totalLength, n, path', Point(velocity', distance'), rows')
  {
    ghost var p := Point(velocity, distance);
    time', distance', velocity', rows' := Tick(veh, track, n, time, distance, velocity, rows, dt, log10);
    ghost var p' := Point(velocity', distance');
    RunStep(veh, track.segments, dt, log10, path, p, p');
    LogStep(veh, track.segments, dt, log10, n - 1, path, p, p', time', rows, rows');
    OnRunStep(veh, track.segments, dt, log10, track.totalLength, n - 1, path, p, rows, p', rows');
    path' := path + [p'];
  }

  /**
   * simulate_real_track. The loop runs until the segments' total length,
   * not the circuit's declared length; `steps` and `finalDistance` are the
   * source's local counters.
   */
  method SimulateRealTrack(veh: Vehicle, track: Track, dt: real, log10: real -> real)
    returns (telemetry: seq<TrackRow>, lapTime: real, ghost steps: nat, ghost finalDistance: real,
             ghost path: seq<Point>)
    requires |track.segments| > 0 || track.totalLength <= 0.0
    requires HasGeometry(veh)
    ensures steps <= MaxIterations
    ensures steps == MaxIterations || finalDistance >= track.totalLength
    ensures track.totalLength <= 0.0 ==> steps == 0 && telemetry == [] && lapTime == 0.0
    ensures |track.segments| > 0 ==>
      |path| == steps + 1 && path[steps].distance == finalDistance &&
      OnRun(veh, track.segments, dt, log10, track.totalLength, steps, path, path[steps], telemetry)
    ensures lapTime == Elapsed(steps, dt) && ReadsSteps(lapTime, steps, dt)
    ensures |telemetry| == steps / SampleStride
    ensures SampledEvery(telemetry, dt, veh.tireMuPeak)
    ensures dt >= 0.0 ==> DistancesUpTo(telemetry, finalDistance)
  {
    var time := 0.0;
    var distance := 0.0;
    var velocity := 0.0;
    telemetry := [];
    var iterations: nat := 0;
    path := [Point(0.0, 0.0)];
    while distance < track.totalLength && iterations < MaxIterations
      invariant iterations <= MaxIterations && velocity >= 0.0
      invariant iterations == 0 ==> distance == 0.0 && velocity == 0.0
      invariant iterations > 0 ==> track.totalLength > 0.0
      invariant time == Elapsed(iterations, dt)
      invariant |telemetry| == iterations / SampleStride
      invariant SampledEvery(telemetry, dt, veh.tireMuPeak)
      invariant dt >= 0.0 ==> DistancesUpTo(telemetry, distance)
      invariant |track.segments| > 0 ==>
        OnRun(veh, track.segments, dt, log10, track.totalLength, iterations, path, Point(velocity, distance), telemetry)
      decreases MaxIterations - iterations
    {
      iterations := iterations + 1;
      time, distance, velocity, telemetry, path :=
        Pass(veh, track, iterations, time, distance, velocity, telemetry, dt, log10, path);
    }
    lapTime := time;
    steps := iterations;
    finalDistance := distance;
    ClockReadsSteps(lapTime, steps, dt);
  }

  // ---------------------------------------------------------------------
  // Validation against the lap record

  datatype Validation = Validation(track: string, realTime: real, simTime: real, difference: real, errorPercent: real)

  /**
   * validate_against_real_f1: the difference and the percentage error of a
   * simulated time against the record. A zero record time is the source's
   * ZeroDivisionError.
   */
  function ValidateAgainstRealF1(simulatedTime: real, track: Track): (r: Result<Validation, string>)
    ensures r.Failure? <==> track.recordLapTime == 0.0
    ensures r.Success? ==> r.value.track == track.name && r.value.realTime == track.recordLapTime &&
                           r.value.simTime == simulatedTime
  {
    var realTime := track.recordLapTime;
    if realTime == 0.0 then Failure("division by zero")
    else
      var difference := simulatedTime - realTime;
      Success(Validation(track.name, realTime, simulatedTime, difference, (difference / realTime) * 100.0))
  }

  /**
   * The report is consistent: the simulated time is the record plus the
   * difference, the difference is the percentage of the record, and a
   * simulated time equal to the record gives exactly zero of both.
   */
  lemma ValidationConsistent(simulatedTime: real, track: Track)
    requires track.recordLapTime != 0.0
    ensures var v := ValidateAgainstRealF1(simulatedTime, track).value;
      v.simTime == v.realTime + v.difference &&
      v.errorPercent * v.realTime == v.difference * 100.0 &&
      (simulatedTime == track.recordLapTime <==> v.difference == 0.0 && v.errorPercent == 0.0)
  {
    var v := ValidateAgainstRealF1(simulatedTime, track).value;
    var q := v.difference / v.realTime;
    assert q * v.realTime == v.difference;
    assert v.errorPercent * v.realTime == (q * v.realTime) * 100.0;
  }

  /** Against a positive record, a slower simulation has a positive error and a faster one a negative error. */
  lemma ValidationSign(simulatedTime: real, track: Track)
    requires track.recordLapTime > 0.0
    ensures var v := ValidateAgainstRealF1(simulatedTime, track).value;
      (v.errorPercent > 0.0 <==> simulatedTime > track.recordLapTime) &&
      (v.errorPercent < 0.0 <==> simulatedTime < track.recordLapTime)
  {
    var v := ValidateAgainstRealF1(simulatedTime, track).value;
    ValidationConsistent(simulatedTime, track);
    if v.errorPercent > 0.0 {
      MulPos(v.errorPercent, v.realTime);
    } else if v.errorPercent < 0.0 {
      MulPos(-v.errorPercent, v.realTime);
    }
  }
}
