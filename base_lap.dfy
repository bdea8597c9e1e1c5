// simulate_lap of src/f1_simulation.py: a forward-Euler lap around a
// Track with the brake/accelerate/coast hysteresis, the velocity clamp at
// zero, the 100000-step safety cap and a telemetry row every tenth step.

module BaseLap {
  import opened Common
  import opened Tracks
  import opened BaseVehicle

  const MaxIterations: nat := 100000
  const SampleStride: nat := 10

  /** One telemetry row: the ten columns of the source's DataFrame. */
  datatype LapRow = LapRow(
    time: real,
    distance: real,
    velocityKmh: real,
    acceleration: real,
    downforce: real,
    drag: real,
    throttle: real,
    brake: real,
    lateralG: real,
    longitudinalG: real)

  /** The net longitudinal force in each control mode. */
  function NetForce(veh: Vehicle, velocity: real, aero: Aero, mode: Mode): real
  {
    match mode
    case Braking => -(CalculateMaxBraking(veh, velocity, aero.downforceTotal) + aero.drag)
    case Accelerating => CalculateMaxAcceleration(veh, velocity, aero.downforceTotal) - aero.drag
    case Coasting => -aero.drag
  }

  /** With a non-negative tire limit and drag, only the accelerating mode can push the car forward. */
  lemma NetForceSigns(veh: Vehicle, velocity: real, aero: Aero, mode: Mode)
    requires TireLimit(veh, aero.downforceTotal) >= 0.0 && aero.drag >= 0.0
    ensures mode != Accelerating ==> NetForce(veh, velocity, aero, mode) <= 0.0
    ensures mode == Braking ==> NetForce(veh, velocity, aero, mode) <= -aero.drag
    ensures NetForce(veh, velocity, aero, mode) <= TireLimit(veh, aero.downforceTotal) * 0.7 - aero.drag
  {
  }

  /** The state one step produces. */
  datatype Step = Step(mode: Mode, aero: Aero, acceleration: real, lateralG: real, velocity: real)

  /** A radius the lateral-g formula can divide by. */
  predicate NonZeroRadius(radius: Radius)
  {
    radius != Corner(0.0)
  }

  predicate NoZeroRadius(segs: seq<Segment>)
  {
    forall i :: 0 <= i < |segs| ==> NonZeroRadius(segs[i].radius)
  }

  /** The lateral g-force: v^2 / (|r| g) in a corner, 0 on a straight. */
  function LateralG(veh: Vehicle, radius: Radius, velocity: real): real
    requires veh.g != 0.0 && NonZeroRadius(radius)
  {
    match radius
    case Straight => 0.0
    case Corner(r) => (velocity * velocity) / (Abs(r) * veh.g)
  }

  /**
   * One pass of the loop body: aero without DRS, the corner limit at the
   * car's own mass, the mode, the acceleration and the clamped new speed.
   */
  function LapStep(veh: Vehicle, radius: Radius, velocity: real, dt: real): (s: Step)
    requires velocity >= 0.0 && veh.mass != 0.0 && veh.g != 0.0 && NonZeroRadius(radius)
    ensures s.velocity >= 0.0
    ensures s.velocity == 0.0 || s.velocity == velocity + s.acceleration * dt
    ensures s.velocity >= velocity + s.acceleration * dt
    ensures radius.Straight? ==> s.mode == Accelerating && s.lateralG == 0.0
  {
    var aero := CalculateAeroForces(veh, velocity, false);
    var limit := CalculateCornerSpeed(veh, radius, aero.downforceTotal, None);
    var mode := SelectMode(velocity, limit);
    var acceleration := NetForce(veh, velocity, aero, mode) / veh.mass;
    Step(mode, aero, acceleration, LateralG(veh, radius, velocity), NextSpeed(velocity, acceleration, dt))
  }

  /**
   * In a corner whose limit (the square root of the squared limit) is
   * `limit`, the step brakes above 1.1 limit, accelerates below 0.95 limit
   * and coasts in between.
   */
  lemma LapStepFollowsRule(veh: Vehicle, r: real, velocity: real, dt: real, limit: real)
    requires velocity >= 0.0 && veh.mass != 0.0 && veh.g != 0.0 && r != 0.0
    requires limit >= 0.0
    requires limit * limit ==
             LateralGripPerKg(veh, CalculateAeroForces(veh, velocity, false).downforceTotal, veh.mass) * Abs(r)
    ensures LapStep(veh, Corner(r), velocity, dt).mode ==
            if velocity > limit * 1.1 then Braking
            else if velocity < limit * 0.95 then Accelerating
            else Coasting
  {
    var aero := CalculateAeroForces(veh, velocity, false);
    assert CalculateCornerSpeed(veh, Corner(r), aero.downforceTotal, None) == Bounded(limit * limit);
    SelectModeMatchesRule(velocity, limit);
  }

  /** The logged pedals of a step: throttle only when accelerating, brake only when braking. */
  lemma LapStepPedals(veh: Vehicle, radius: Radius, velocity: real, dt: real)
    requires velocity >= 0.0 && veh.mass != 0.0 && veh.g != 0.0 && NonZeroRadius(radius)
    ensures var p := Pedals(LapStep(veh, radius, velocity, dt).mode);
      p.0 * p.1 == 0.0 && (p.0 == 1.0 || p.0 == 0.0) && (p.1 == 1.0 || p.1 == 0.0)
  {
  }

  lemma DivNonPositive(x: real, m: real)
    requires x <= 0.0 && m > 0.0
    ensures x / m <= 0.0
  {
    assert x / m * m == x;
  }

  /**
   * For a physical car moving forward in time, braking and coasting never
   * speed it up.
   */
  lemma LapStepBrakingSlows(veh: Vehicle, radius: Radius, velocity: real, dt: real)
    requires velocity >= 0.0 && veh.mass > 0.0 && veh.g != 0.0 && NonZeroRadius(radius) && dt >= 0.0
    requires PhysicalAero(veh)
    requires TireLimit(veh, CalculateAeroForces(veh, velocity, false).downforceTotal) >= 0.0
    ensures LapStep(veh, radius, velocity, dt).mode != Accelerating ==> LapStep(veh, radius, velocity, dt).velocity <= velocity
  {
    var s := LapStep(veh, radius, velocity, dt);
    AeroForcesShape(veh, velocity, false);
    if s.mode != Accelerating {
      NetForceSigns(veh, velocity, s.aero, s.mode);
      DivNonPositive(NetForce(veh, velocity, s.aero, s.mode), veh.mass);
      MulNonneg(-s.acceleration, dt);
    }
  }

  /** The row logged after a step: time, distance, km/h, g units, kN and pedals. */
  function Row(veh: Vehicle, s: Step, time: real, distance: real): (row: LapRow)
    requires veh.g != 0.0
    ensures s.velocity >= 0.0 ==> SaneRow(row)
    ensures row.time == time && row.distance == distance
  {
    var p := Pedals(s.mode);
    LapRow(time, distance, s.velocity * 3.6, s.acceleration / veh.g, s.aero.downforceTotal / 1000.0,
           s.aero.drag / 1000.0, p.0, p.1, s.lateralG, s.acceleration / veh.g)
  }

  /** Properties every logged row has: non-negative speed, pedals never both pressed. */
  predicate SaneRow(row: LapRow)
  {
    row.velocityKmh >= 0.0 && row.throttle * row.brake == 0.0 &&
    0.0 <= row.throttle <= 1.0 && 0.0 <= row.brake <= 1.0 &&
    row.acceleration == row.longitudinalG
  }

  /**
   * The rows are the sane samples taken at steps 10, 20, 30, ...: row k
   * carries the time after step (k + 1) * 10.
   */
  predicate SampledEvery(rows: seq<LapRow>, dt: real)
  {
    forall k :: 0 <= k < |rows| ==> SaneRow(rows[k]) && rows[k].time == Elapsed((k + 1) * SampleStride, dt)
  }

  /** Logged distances never decrease and none is beyond `d`. */
  predicate DistancesUpTo(rows: seq<LapRow>, d: real)
  {
    (forall j, k :: 0 <= j <= k < |rows| ==> rows[j].distance <= rows[k].distance) &&
    (forall k :: 0 <= k < |rows| ==> rows[k].distance <= d)
  }

  lemma DistancesGrow(rows: seq<LapRow>, d: real, d': real)
    requires DistancesUpTo(rows, d) && d <= d'
    ensures DistancesUpTo(rows, d')
  {
  }

  /** Logging the sane row of step n, a multiple of the stride, keeps the sampling pattern. */
  lemma LogRow(rows: seq<LapRow>, row: LapRow, n: nat, dt: real)
    requires SampledEvery(rows, dt) && SaneRow(row)
    requires n >= 1 && n % SampleStride == 0 && |rows| == (n - 1) / SampleStride
    requires n == (n / SampleStride) * SampleStride && n / SampleStride == (n - 1) / SampleStride + 1
    requires row.time == Elapsed(n, dt)
    ensures SampledEvery(rows + [row], dt)
  {
    assert (|rows| + 1) * SampleStride == n;
  }

  /**
   * The loop body after the segment lookup: one step from `velocity`, the
   * distance it covers and the row the step would log.
   */
  method Advance(veh: Vehicle, radius: Radius, velocity: real, distance: real, time: real, dt: real)
    returns (velocity': real, distance': real, row: LapRow)
    requires velocity >= 0.0 && veh.mass != 0.0 && veh.g != 0.0 && NonZeroRadius(radius)
    ensures velocity' == LapStep(veh, radius, velocity, dt).velocity
    ensures velocity' >= 0.0 && distance' == distance + velocity' * dt
    ensures dt >= 0.0 ==> distance' >= distance
    ensures row == Row(veh, LapStep(veh, radius, velocity, dt), time + dt, distance')
    ensures SaneRow(row) && row.time == time + dt && row.distance == distance'
  {
    var s := LapStep(veh, radius, velocity, dt);
    velocity' := s.velocity;
    distance' := distance + velocity' * dt;
    if dt >= 0.0 {
      MulNonneg(velocity', dt);
    }
    row := Row(veh, s, time + dt, distance');
  }

  /**
   * The sampling at the end of the loop body: log the row when step n is a
   * multiple of the stride. `previous` is the distance before the step.
   */
  method MaybeLog(rows: seq<LapRow>, row: LapRow, n: nat, dt: real, previous: real) returns (rows': seq<LapRow>)
    requires n >= 1 && |rows| == (n - 1) / SampleStride
    requires SampledEvery(rows, dt) && SaneRow(row) && row.time == Elapsed(n, dt)
    requires dt >= 0.0 ==> DistancesUpTo(rows, previous) && previous <= row.distance
    ensures |rows'| == n / SampleStride
    ensures rows' == if n % SampleStride == 0 then rows + [row] else rows
    ensures SampledEvery(rows', dt)
    ensures dt >= 0.0 ==> DistancesUpTo(rows', row.distance)
  {
    if dt >= 0.0 {
      DistancesGrow(rows, previous, row.distance);
    }
    SampleCountStep(n, SampleStride);
    if n % SampleStride == 0 {
      LogRow(rows, row, n, dt);
      rows' := rows + [row];
    } else {
      rows' := rows;
    }
  }

  /** The lookup on a non-empty track: a segment of the track, hence one with a usable radius. */
  method Lookup(track: Track, distance: real) returns (segment: Segment)
    requires NoZeroRadius(track.segments) && |track.segments| > 0
    ensures SegmentAt(track.segments, distance) == Some(segment)
    ensures NonZeroRadius(segment.radius)
  {
    var found := track.SegmentAtDistance(distance);
    segment := found.value;
  }

  // ---------------------------------------------------------------------
  // The trajectory the loop follows: speed and distance after n passes from rest.

  /** What the loop needs of car and track to take a step anywhere on the track. */
  predicate Drivable(veh: Vehicle, segs: seq<Segment>)
  {
    veh.mass != 0.0 && veh.g != 0.0 && NoZeroRadius(segs) && |segs| > 0
  }

  datatype Point = Point(velocity: real, distance: real)

  /** The step taken at point p, on the segment the lookup finds under p. */
  function StepFrom(veh: Vehicle, segs: seq<Segment>, p: Point, dt: real): Step
    requires Drivable(veh, segs) && p.velocity >= 0.0
  {
    var seg := SegmentAt(segs, p.distance).value;
    LapStep(veh, seg.radius, p.velocity, dt)
  }

  /** One pass of the loop: the step's speed, and the distance that speed covers in dt. */
  function Next(veh: Vehicle, segs: seq<Segment>, p: Point, dt: real): (q: Point)
    requires Drivable(veh, segs) && p.velocity >= 0.0
    ensures q.velocity >= 0.0
    ensures dt >= 0.0 ==> q.distance >= p.distance
  {
    var v := StepFrom(veh, segs, p, dt).velocity;
    assert dt >= 0.0 ==> v * dt >= 0.0 by {
      if dt >= 0.0 {
        MulNonneg(v, dt);
      }
    }
    Point(v, p.distance + v * dt)
  }

  /** The row the pass from p logs when its step number is a multiple of the stride. */
  function StepRow(veh: Vehicle, segs: seq<Segment>, p: Point, time: real, dt: real): LapRow
    requires Drivable(veh, segs) && p.velocity >= 0.0
  {
    Row(veh, StepFrom(veh, segs, p, dt), time, Next(veh, segs, p, dt).distance)
  }

  /**
   * The points the loop passes through from rest: the first is (0, 0) and
   * each is Next of the one before.
   */
  predicate IsRun(veh: Vehicle, segs: seq<Segment>, dt: real,
                  path: seq<Point>)
    requires Drivable(veh, segs)
  {
    |path| > 0 && path[0] == Point(0.0, 0.0) &&
    (forall i :: 0 <= i < |path| ==> path[i].velocity >= 0.0) &&
    (forall i {:trigger Next(veh, segs, path[i], dt)} :: 0 <= i < |path| - 1 ==>
       path[i + 1] == Next(veh, segs, path[i], dt))
  }

  /** The row logged by the pass that closes sample k of the run. */
  function SampleRow(veh: Vehicle, segs: seq<Segment>, dt: real, path: seq<Point>, k: nat): LapRow
    requires Drivable(veh, segs) && IsRun(veh, segs, dt, path) && k * SampleStride + SampleStride <= |path|
  {
    StepRow(veh, segs, path[k * SampleStride + SampleStride - 1], Elapsed(k * SampleStride + SampleStride, dt), dt)
  }

  /** Row k is the row logged by pass (k + 1) * 10 of the run. */
  predicate LoggedRun(veh: Vehicle, segs: seq<Segment>, dt: real,
                      path: seq<Point>, rows: seq<LapRow>)
    requires Drivable(veh, segs) && IsRun(veh, segs, dt, path)
  {
    |rows| * SampleStride < |path| &&
    forall k: nat {:trigger SampleRow(veh, segs, dt, path, k)} :: k < |rows| ==>
      rows[k] == SampleRow(veh, segs, dt, path, k)
  }

  /**
   * The loop state after n passes: the path holds the run's first n + 1
   * points and ends at p, every earlier point was short of the lap length,
   * and the rows are the run's samples.
   */
  predicate OnRun(veh: Vehicle, segs: seq<Segment>, dt: real,
                  total: real, n: nat, path: seq<Point>, p: Point, rows: seq<LapRow>)
    requires Drivable(veh, segs)
  {
    IsRun(veh, segs, dt, path) && |path| == n + 1 && path[n] == p &&
    (forall k :: 0 <= k < n ==> path[k].distance < total) &&
    LoggedRun(veh, segs, dt, path, rows)
  }

  /**
   * One more pass from a point short of the lap length stays on the run,
   * once the path and the rows have been extended (RunStep, LogStep).
   */
  lemma OnRunStep(veh: Vehicle, segs: seq<Segment>, dt: real,
                  total: real, n: nat, path: seq<Point>, p: Point, rows: seq<LapRow>,
                  p': Point, rows': seq<LapRow>)
    requires Drivable(veh, segs) && OnRun(veh, segs, dt, total, n, path, p, rows) && p.distance < total
    requires IsRun(veh, segs, dt, path + [p']) && LoggedRun(veh, segs, dt, path + [p'], rows')
    ensures OnRun(veh, segs, dt, total, n + 1, path + [p'], p', rows')
  {
    assert forall k :: 0 <= k < n + 1 ==> (path + [p'])[k] == path[k];
  }

  /** The pass from the last point logs its row at multiples of the stride and otherwise nothing. */
  lemma LogStep(veh: Vehicle, segs: seq<Segment>, dt: real,
                n: nat, path: seq<Point>, p: Point, p': Point, time: real, rows: seq<LapRow>, rows': seq<LapRow>)
    requires Drivable(veh, segs) && IsRun(veh, segs, dt, path) && IsRun(veh, segs, dt, path + [p'])
    requires LoggedRun(veh, segs, dt, path, rows) && |path| == n + 1 && path[n] == p && |rows| == n / SampleStride
    requires p.velocity >= 0.0 && time == Elapsed(n + 1, dt)
    requires rows' == if (n + 1) % SampleStride == 0
                      then rows + [StepRow(veh, segs, p, time, dt)]
                      else rows
    ensures LoggedRun(veh, segs, dt, path + [p'], rows')
  {
    SampleCountStep(n + 1, SampleStride);
    if (n + 1) % SampleStride == 0 {
      assert rows' == rows + [StepRow(veh, segs, path[|path| - 1], time, dt)];
      LoggedStep(veh, segs, dt, path, p', rows, time);
    } else {
      LoggedExtend(veh, segs, dt, path, p', rows);
    }
  }

  /** A run extended by Next of its last point is a run. */
  lemma RunStep(veh: Vehicle, segs: seq<Segment>, dt: real,
                path: seq<Point>, p: Point, p': Point)
    requires Drivable(veh, segs) && IsRun(veh, segs, dt, path) && path[|path| - 1] == p
    requires p' == Next(veh, segs, p, dt)
    ensures IsRun(veh, segs, dt, path + [p'])
  {
    var path' := path + [p'];
    forall i | 0 <= i < |path'| - 1
      ensures path'[i + 1] == Next(veh, segs, path'[i], dt)
    {
      assert path'[i] == path[i];
    }
  }

  /** The samples of a run are still its samples once the run goes on. */
  lemma LoggedExtend(veh: Vehicle, segs: seq<Segment>, dt: real,
                     path: seq<Point>, p': Point, rows: seq<LapRow>)
    requires Drivable(veh, segs) && IsRun(veh, segs, dt, path) && IsRun(veh, segs, dt, path + [p'])
    requires LoggedRun(veh, segs, dt, path, rows)
    ensures LoggedRun(veh, segs, dt, path + [p'], rows)
  {
    forall k: nat | k < |rows|
      ensures rows[k] == SampleRow(veh, segs, dt, path + [p'], k)
    {
      assert (path + [p'])[k * SampleStride + SampleStride - 1] == path[k * SampleStride + SampleStride - 1];
      assert rows[k] == SampleRow(veh, segs, dt, path, k);
    }
  }

  /** Logging the row of the pass from the last point adds the next sample. */
  lemma LoggedStep(veh: Vehicle, segs: seq<Segment>, dt: real,
                   path: seq<Point>, p': Point, rows: seq<LapRow>, time: real)
    requires Drivable(veh, segs) && IsRun(veh, segs, dt, path) && IsRun(veh, segs, dt, path + [p'])
    requires LoggedRun(veh, segs, dt, path, rows)
    requires |rows| * SampleStride + SampleStride == |path| && time == Elapsed(|path|, dt)
    ensures LoggedRun(veh, segs, dt, path + [p'], rows + [StepRow(veh, segs, path[|path| - 1], time, dt)])
  {
    LoggedExtend(veh, segs, dt, path, p', rows);
    var rows' := rows + [StepRow(veh, segs, path[|path| - 1], time, dt)];
    forall k: nat | k < |rows'|
      ensures rows'[k] == SampleRow(veh, segs, dt, path + [p'], k)
    {
      if k < |rows| {
        assert rows'[k] == rows[k];
      } else {
        assert (path + [p'])[k * SampleStride + SampleStride - 1] == path[|path| - 1];
      }
    }
  }

  /**
   * One pass of the loop at step n (already counted): look up the segment,
   * advance, tick the clock and maybe log. Requires and ensures are the
   * loop invariants of SimulateLap before and after the pass.
   */
  method Tick(veh: Vehicle, track: Track, n: nat, time: real, distance: real, velocity: real,
              rows: seq<LapRow>, dt: real)
    returns (time': real, distance': real, velocity': real, rows': seq<LapRow>)
    requires Drivable(veh, track.segments)
    requires n >= 1 && velocity >= 0.0 && time == Elapsed(n - 1, dt)
    requires |rows| == (n - 1) / SampleStride && SampledEvery(rows, dt)
    requires dt >= 0.0 ==> DistancesUpTo(rows, distance)
    ensures Point(velocity', distance') == Next(veh, track.segments, Point(velocity, distance), dt)
    ensures rows' == if n % SampleStride == 0
                     then rows + [StepRow(veh, track.segments, Point(velocity, distance), time', dt)]
                     else rows
    ensures velocity' >= 0.0 && time' == Elapsed(n, dt)
    ensures |rows'| == n / SampleStride && SampledEvery(rows', dt)
    ensures dt >= 0.0 ==> distance' >= distance && DistancesUpTo(rows', distance')
  {
    var segment := Lookup(track, distance);
    var row;
    velocity', distance', row := Advance(veh, segment.radius, velocity, distance, time, dt);
    time' := time + dt;
    rows' := MaybeLog(rows, row, n, dt, distance);
  }

  /**
   * The loop body together with the run it follows: the Tick from the last
   * point of the run extends the run by the new point and its samples by
   * the logged row.
   */
  method Pass(veh: Vehicle, track: Track, n: nat, time: real, distance: real, velocity: real,
              rows: seq<LapRow>, dt: real, ghost path: seq<Point>)
    returns (time': real, distance': real, velocity': real, rows': seq<LapRow>, ghost path': seq<Point>)
    requires Drivable(veh, track.segments) && distance < track.totalLength
    requires n >= 1 && velocity >= 0.0 && time == Elapsed(n - 1, dt)
    requires |rows| == (n - 1) / SampleStride && SampledEvery(rows, dt)
    requires dt >= 0.0 ==> DistancesUpTo(rows, distance)
    requires OnRun(veh, track.segments, dt, track.totalLength, n - 1, path, Point(velocity, distance), rows)
    ensures velocity' >= 0.0 && time' == Elapsed(n, dt)
    ensures |rows'| == n / SampleStride && SampledEvery(rows', dt)
    ensures dt >= 0.0 ==> DistancesUpTo(rows', distance')
    ensures path' == path + [Point(velocity', distance')]
    ensures OnRun(veh, track.segments, dt, track.totalLength, n, path', Point(velocity', distance'), rows')
  {
    ghost var p := Point(velocity, distance);
    time', distance', velocity', rows' := Tick(veh, track, n, time, distance, velocity, rows, dt);
    ghost var p' := Point(velocity', distance');
    RunStep(veh, track.segments, dt, path, p, p');
    LogStep(veh, track.segments, dt, n - 1, path, p, p', time', rows, rows');
    OnRunStep(veh, track.segments, dt, track.totalLength, n - 1, path, p, rows, p', rows');
    path' := path + [p'];
  }

  /**
   * simulate_lap. `steps` is the number of loop passes and `finalDistance`
   * the distance reached; the source keeps both local. A track with no
   * segments but a positive length would make the lookup fail.
   */
  method SimulateLap(veh: Vehicle, track: Track, dt: real)
    returns (telemetry: seq<LapRow>, lapTime: real, ghost steps: nat, ghost finalDistance: real,
             ghost path: seq<Point>)
    requires |track.segments| > 0 || track.totalLength <= 0.0
    requires veh.mass != 0.0 && veh.g != 0.0 && NoZeroRadius(track.segments)
    ensures steps <= MaxIterations
    ensures steps == MaxIterations || finalDistance >= track.totalLength
    ensures track.totalLength <= 0.0 ==> steps == 0 && telemetry == [] && lapTime == 0.0
    ensures |track.segments| > 0 ==>
      |path| == steps + 1 && path[steps].distance == finalDistance &&
      OnRun(veh, track.segments, dt, track.totalLength, steps, path, path[steps], telemetry)
    ensures lapTime == Elapsed(steps, dt) && ReadsSteps(lapTime, steps, dt)
    ensures |telemetry| == steps / SampleStride
    ensures SampledEvery(telemetry, dt)
    ensures dt >= 0.0 ==> DistancesUpTo(telemetry, finalDistance)
  {
    var time := 0.0;
    var distance := 0.0;
    var velocity := 0.0;
    telemetry := [];
    var iterations: nat := 0;
    path := [Point(0.0, 0.0)];
    while distance < track.totalLength && iterations < MaxIterations
      invariant iterations <= MaxIterations && velocity >= 0.0
      invariant iterations == 0 ==> distance == 0.0 && velocity == 0.0
      invariant iterations > 0 ==> track.totalLength > 0.0
      invariant time == Elapsed(iterations, dt)
      invariant |telemetry| == iterations / SampleStride
      invariant SampledEvery(telemetry, dt)
      invariant dt >= 0.0 ==> DistancesUpTo(telemetry, distance)
      invariant |track.segments| > 0 ==>
        OnRun(veh, track.segments, dt, track.totalLength, iterations, path, Point(velocity, distance), telemetry)
      decreases MaxIterations - iterations
    {
      iterations := iterations + 1;
      time, distance, velocity, telemetry, path :=
        Pass(veh, track, iterations, time, distance, velocity, telemetry, dt, path);
    }
    lapTime := time;
    steps := iterations;
    finalDistance := distance;
    ClockReadsSteps(lapTime, steps, dt);
  }
}
