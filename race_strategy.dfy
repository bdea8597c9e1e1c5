// Race strategy: a whole race run lap by lap on degrading tires, with pit
// stops that cost a fixed time and fit a new set; the comparison of
// strategies by total time; and the grid search for the best lap for a
// single stop. The race is specified by a pure step function (one pass of
// the source's while loop) and a method that runs the loop with the
// stateful tire model is proved to compute exactly what it specifies.

module RaceStrategy {
  import opened Common
  import opened TireDegradation

  datatype Strategy = Strategy(name: string, compounds: seq<string>, pitLaps: seq<int>)

  /** RaceStrategySimulator's settings. */
  datatype Simulator = Simulator(trackName: string, totalLaps: int, baseLapTime: real, pitLoss: real, fuelEffect: real)

  /** RaceStrategySimulator() with its default arguments. */
  const DefaultSimulator := Simulator("Silverstone", 52, 90.0, 22.0, 0.03)

  /** The average speed every race lap is run at. */
  const RaceLapSpeed := 200.0

  /** What simulate_strategy returns; the mean lap time is None where numpy's mean of no laps is NaN. */
  datatype RaceResult = RaceResult(
    strategy: Strategy,
    totalTime: real,
    lapTimes: seq<real>,
    cumulativeTimes: seq<real>,
    gripLevels: seq<real>,
    compoundsUsed: seq<string>,
    tireAges: seq<int>,
    avgLapTime: Option<real>,
    pitStops: int)

  const CountMismatch := "Number of compounds must be one more than pit stops"
  const IndexOutOfRange := "list index out of range"

  // ---------------------------------------------------------------------
  // Counting.

  /** How many of the laps 1..n are pit laps (a lap listed twice pits once: the loop tests membership). */
  function PitsUpTo(pitLaps: seq<int>, n: int): nat
    decreases n
  {
    if n <= 0 then 0 else PitsUpTo(pitLaps, n - 1) + (if n in pitLaps then 1 else 0)
  }

  /** The laps among 1..n that are pit laps. */
  function PittedLaps(pitLaps: seq<int>, n: int): set<int>
  {
    set l | l in pitLaps && 1 <= l <= n
  }

  lemma {:induction false} PitsUpToCounts(pitLaps: seq<int>, n: int)
    ensures PitsUpTo(pitLaps, n) == |PittedLaps(pitLaps, n)|
    decreases n
  {
    if n <= 0 {
      assert PittedLaps(pitLaps, n) == {};
    } else {
      PitsUpToCounts(pitLaps, n - 1);
      if n in pitLaps {
        assert PittedLaps(pitLaps, n) == PittedLaps(pitLaps, n - 1) + {n};
      } else {
        assert PittedLaps(pitLaps, n) == PittedLaps(pitLaps, n - 1);
      }
    }
  }

  lemma {:induction false} ElementsAtMost(s: seq<int>)
    ensures |(set x | x in s)| <= |s|
  {
    if |s| > 0 {
      ElementsAtMost(s[1..]);
      assert (set x | x in s) == {s[0]} + (set x | x in s[1..]);
    }
  }

  lemma SubsetCardinality(a: set<int>, b: set<int>)
    requires a <= b
    ensures |a| <= |b|
  {
    assert b == a + (b - a);
    assert a * (b - a) == {};
  }

  /** No more stops are made than there are pit laps listed, so the stint index never passes the last compound. */
  lemma PitsUpToAtMost(pitLaps: seq<int>, n: int)
    ensures PitsUpTo(pitLaps, n) <= |pitLaps|
  {
    PitsUpToCounts(pitLaps, n);
    ElementsAtMost(pitLaps);
    SubsetCardinality(PittedLaps(pitLaps, n), set x | x in pitLaps);
  }

  /** The pit loss paid over laps 1..n: once per pit lap. */
  function PitTime(sim: Simulator, pitLaps: seq<int>, n: int): real
    decreases n
  {
    if n <= 0 then 0.0 else PitTime(sim, pitLaps, n - 1) + (if n in pitLaps then sim.pitLoss else 0.0)
  }

  lemma {:induction false} PitTimeIsCount(sim: Simulator, pitLaps: seq<int>, n: int)
    ensures PitTime(sim, pitLaps, n) == sim.pitLoss * PitsUpTo(pitLaps, n) as real
    decreases n
  {
    if n > 0 {
      PitTimeIsCount(sim, pitLaps, n - 1);
    }
  }

  /** The count only grows with the lap. */
  lemma {:induction false} PitsUpToMonotone(pitLaps: seq<int>, m: int, n: int)
    requires m <= n
    ensures PitsUpTo(pitLaps, m) <= PitsUpTo(pitLaps, n)
    decreases n - m
  {
    if m < n {
      PitsUpToMonotone(pitLaps, m, n - 1);
    }
  }

  // ---------------------------------------------------------------------
  // One pass of the race loop.

  /** The five lists the loop fills, one entry per lap run. */
  datatype Laps = Laps(times: seq<real>, cumulative: seq<real>, grips: seq<real>, compounds: seq<string>, ages: seq<int>)

  function Record(l: Laps, time: real, cumulative: real, grip: real, code: string, age: int): (n: Laps)
  {
    Laps(l.times + [time], l.cumulative + [cumulative], l.grips + [grip], l.compounds + [code], l.ages + [age])
  }

  /**
   * The loop's variables after some laps: the lap about to be run, the
   * stint, the time so far, the current compound and the lists. The tire
   * model is not a variable here: a stint's tire after stintLap - 1 laps is
   * StintTire, which the method's invariant ties to the model object.
   */
  datatype RaceState = RaceState(
    lap: int,
    stintLap: int,
    stintIndex: nat,
    total: real,
    compound: string,
    spec: Compound,
    laps: Laps)

  /** Before the first lap: a new set of the first compound. */
  function Start(sim: Simulator, code: string, c: Compound): RaceState
  {
    RaceState(1, 1, 0, 0.0, code, c, Laps([], [], [], [], []))
  }

  /** A stint's tire on this track after the given number of race laps. */
  function StintTire(sim: Simulator, c: Compound, age: nat): TireState
  {
    Worn(c, Abrasiveness(sim.trackName), age, RaceLapSpeed)
  }

  /** What a lap needs: a compound from the table and a stint age of at least one lap. */
  predicate Runnable(r: RaceState)
  {
    WellFormed(r.spec) && r.stintLap >= 1
  }

  /** The pit-stop block: on a listed lap, pay the pit loss, move to the next compound and fit a new set of it. */
  function PitStop(sim: Simulator, strat: Strategy, r: RaceState): (p: Result<RaceState, string>)
    requires Runnable(r)
    ensures p.Success? ==> Runnable(p.value) && p.value.lap == r.lap && p.value.laps == r.laps
  {
    if r.lap !in strat.pitLaps then Success(r)
    else if r.stintIndex + 1 >= |strat.compounds| then Failure(IndexOutOfRange)
    else
      var code := strat.compounds[r.stintIndex + 1];
      match LookupCompound(code)
      case None => Failure(UnknownCompound(code))
      case Some(c) =>
        Success(r.(total := r.total + sim.pitLoss, stintIndex := r.stintIndex + 1, stintLap := 1,
          compound := code, spec := c))
  }

  /** The fuel benefit of a lap: fuel_effect per lap still to run after it. */
  function FuelBenefit(sim: Simulator, lap: int): real
  {
    (sim.totalLaps - lap) as real * sim.fuelEffect
  }

  /** The lap itself: the lap time from the tire's grip and the fuel load, the records, then a lap of wear. */
  function RunLap(sim: Simulator, r: RaceState): (n: RaceState)
    requires Runnable(r)
    ensures Runnable(n) && n.lap == r.lap + 1
  {
    var grip := Grip(StintTire(sim, r.spec, r.stintLap - 1));
    var lapTime := sim.baseLapTime + LapTimeDelta(grip, sim.baseLapTime) - FuelBenefit(sim, r.lap);
    var total := r.total + lapTime;
    RaceState(r.lap + 1, r.stintLap + 1, r.stintIndex, total, r.compound, r.spec,
      Record(r.laps, lapTime, total, grip, r.compound, r.stintLap))
  }

  /** One pass of the while loop. */
  function Lap(sim: Simulator, strat: Strategy, r: RaceState): (n: Result<RaceState, string>)
    requires Runnable(r)
    ensures n.Success? ==> Runnable(n.value) && n.value.lap == r.lap + 1
  {
    match PitStop(sim, strat, r)
    case Failure(e) => Failure(e)
    case Success(p) => Success(RunLap(sim, p))
  }

  /** The loop from a state to its end: while lap <= total_laps. */
  function RunFrom(sim: Simulator, strat: Strategy, r: RaceState): (n: Result<RaceState, string>)
    requires Runnable(r)
    ensures n.Success? ==> n.value.lap == (if r.lap > sim.totalLaps then r.lap else sim.totalLaps + 1)
    decreases sim.totalLaps + 1 - r.lap
  {
    if r.lap > sim.totalLaps then Success(r)
    else
      match Lap(sim, strat, r)
      case Failure(e) => Failure(e)
      case Success(n) => RunFrom(sim, strat, n)
  }

  function ResultOf(strat: Strategy, r: RaceState): RaceResult
  {
    RaceResult(strat, r.total, r.laps.times, r.laps.cumulative, r.laps.grips, r.laps.compounds, r.laps.ages,
      Mean(r.laps.times), |strat.pitLaps|)
  }

  /** simulate_strategy: the count check, the first set of tires, then the loop. */
  function Race(sim: Simulator, strat: Strategy): Result<RaceResult, string>
  {
    if |strat.compounds| != |strat.pitLaps| + 1 then Failure(CountMismatch)
    else
      match LookupCompound(strat.compounds[0])
      case None => Failure(UnknownCompound(strat.compounds[0]))
      case Some(c) =>
        match RunFrom(sim, strat, Start(sim, strat.compounds[0], c))
        case Failure(e) => Failure(e)
        case Success(r) => Success(ResultOf(strat, r))
  }

  // ---------------------------------------------------------------------
  // What the loop keeps true.

  /**
   * Lap i + 1 as recorded: the time so far including the stops of laps
   * 1..i+1; the lap time from the grip and the fuel still aboard; the
   * compound reached after those stops; the tire's age in its stint; and
   * the grip of that compound at that age.
   */
  predicate LapRecorded(sim: Simulator, strat: Strategy, l: Laps, i: nat)
  {
    i < |l.times| && i < |l.cumulative| && i < |l.grips| && i < |l.compounds| && i < |l.ages| &&
    l.cumulative[i] == Sum(l.times[..i + 1]) + PitTime(sim, strat.pitLaps, i + 1) &&
    l.times[i] == sim.baseLapTime + LapTimeDelta(l.grips[i], sim.baseLapTime) - FuelBenefit(sim, i + 1) &&
    PitsUpTo(strat.pitLaps, i + 1) < |strat.compounds| && l.compounds[i] == strat.compounds[PitsUpTo(strat.pitLaps, i + 1)] &&
    l.ages[i] >= 1 && l.ages[i] == (if i == 0 || i + 1 in strat.pitLaps then 1 else l.ages[i - 1] + 1) &&
    LookupCompound(l.compounds[i]).Some? &&
    l.grips[i] == Grip(StintTire(sim, LookupCompound(l.compounds[i]).value, l.ages[i] - 1))
  }

  /** The lists after k laps: one entry per lap, each what that lap recorded. */
  predicate Records(sim: Simulator, strat: Strategy, l: Laps, k: nat)
  {
    |l.times| == k && |l.cumulative| == k && |l.grips| == k && |l.compounds| == k && |l.ages| == k &&
    forall i: nat :: i < k ==> LapRecorded(sim, strat, l, i)
  }

  /**
   * The stint after the stops of laps 1..m: that many stops taken and paid
   * for, and the compound they lead to.
   */
  predicate OnStint(sim: Simulator, strat: Strategy, r: RaceState, m: int)
  {
    |strat.compounds| == |strat.pitLaps| + 1 &&
    r.stintIndex == PitsUpTo(strat.pitLaps, m) && r.stintIndex < |strat.compounds| &&
    r.compound == strat.compounds[r.stintIndex] && LookupCompound(r.compound).Some? && r.stintLap >= 1 &&
    r.spec == LookupCompound(r.compound).value &&
    r.total == Sum(r.laps.times) + PitTime(sim, strat.pitLaps, m)
  }

  /** Between passes: laps 1..lap-1 run and recorded, and the stint age is the last lap's age plus one. */
  predicate Accounted(sim: Simulator, strat: Strategy, r: RaceState)
  {
    r.lap >= 1 && Records(sim, strat, r.laps, r.lap - 1) && OnStint(sim, strat, r, r.lap - 1) &&
    r.stintLap == (if r.lap == 1 then 1 else r.laps.ages[r.lap - 2] + 1)
  }

  /** After the pit block of lap r.lap: its stop, if any, taken, and the stint age reset by it. */
  predicate Pitted(sim: Simulator, strat: Strategy, r: RaceState)
  {
    r.lap >= 1 && Records(sim, strat, r.laps, r.lap - 1) && OnStint(sim, strat, r, r.lap) &&
    r.stintLap == (if r.lap == 1 || r.lap in strat.pitLaps then 1 else r.laps.ages[r.lap - 2] + 1)
  }

  lemma StartAccounted(sim: Simulator, strat: Strategy, c: Compound)
    requires |strat.compounds| == |strat.pitLaps| + 1 && LookupCompound(strat.compounds[0]) == Some(c)
    ensures Accounted(sim, strat, Start(sim, strat.compounds[0], c))
  {
  }

  /** The pit block takes the stop that the lap calls for. */
  lemma PitStopPrepares(sim: Simulator, strat: Strategy, r: RaceState)
    requires Accounted(sim, strat, r) && PitStop(sim, strat, r).Success?
    ensures Pitted(sim, strat, PitStop(sim, strat, r).value)
  {
    var p := PitStop(sim, strat, r).value;
    PitsUpToAtMost(strat.pitLaps, r.lap);
  }

  /** Appending a lap leaves the earlier laps' records as they were. */
  lemma RecordKeeps(sim: Simulator, strat: Strategy, l: Laps, time: real, cumulative: real, grip: real, code: string, age: int, i: nat)
    requires LapRecorded(sim, strat, l, i)
    ensures LapRecorded(sim, strat, Record(l, time, cumulative, grip, code, age), i)
  {
    var n := Record(l, time, cumulative, grip, code, age);
    assert n.times[..i + 1] == l.times[..i + 1];
  }

  /** Running the lap adds its record to the lists. */
  lemma RunLapRecords(sim: Simulator, strat: Strategy, p: RaceState)
    requires Pitted(sim, strat, p)
    ensures Records(sim, strat, RunLap(sim, p).laps, p.lap)
  {
    var n := RunLap(sim, p).laps;
    var k := p.lap - 1;
    var l := p.laps;
    SumAppend(l.times, n.times[k]);
    assert n.times[..k + 1] == n.times;
    assert LapRecorded(sim, strat, n, k);
    forall i: nat | i < k
      ensures LapRecorded(sim, strat, n, i)
    {
      RecordKeeps(sim, strat, l, n.times[k], n.cumulative[k], n.grips[k], n.compounds[k], n.ages[k], i);
    }
  }

  /** Running the lap keeps the stint and adds the lap time to the total. */
  lemma RunLapStint(sim: Simulator, strat: Strategy, p: RaceState)
    requires Pitted(sim, strat, p)
    ensures OnStint(sim, strat, RunLap(sim, p), p.lap)
  {
    SumAppend(p.laps.times, RunLap(sim, p).laps.times[p.lap - 1]);
  }

  /** Running the lap records it. */
  lemma RunLapAccounts(sim: Simulator, strat: Strategy, p: RaceState)
    requires Pitted(sim, strat, p)
    ensures Accounted(sim, strat, RunLap(sim, p))
  {
    RunLapRecords(sim, strat, p);
    RunLapStint(sim, strat, p);
  }

  lemma LapAccounts(sim: Simulator, strat: Strategy, r: RaceState)
    requires Accounted(sim, strat, r) && Lap(sim, strat, r).Success?
    ensures Accounted(sim, strat, Lap(sim, strat, r).value)
  {
    PitStopPrepares(sim, strat, r);
    RunLapAccounts(sim, strat, PitStop(sim, strat, r).value);
  }

  lemma {:induction false} RunFromAccounts(sim: Simulator, strat: Strategy, r: RaceState)
    requires Accounted(sim, strat, r) && RunFrom(sim, strat, r).Success?
    ensures Accounted(sim, strat, RunFrom(sim, strat, r).value)
    decreases sim.totalLaps + 1 - r.lap
  {
    if r.lap <= sim.totalLaps {
      LapAccounts(sim, strat, r);
      RunFromAccounts(sim, strat, Lap(sim, strat, r).value);
    }
  }

  /** The compounds at list positions lo+1..hi are all in the table. */
  predicate CompoundsKnown(strat: Strategy, lo: int, hi: int)
  {
    forall j :: lo < j <= hi && 0 <= j < |strat.compounds| ==> IsCompoundCode(strat.compounds[j])
  }

  lemma KnownStep(strat: Strategy, lo: int, mid: int, hi: int)
    requires lo <= mid <= lo + 1 && mid <= hi && 0 <= mid < |strat.compounds|
    ensures CompoundsKnown(strat, lo, hi) <==>
      (mid == lo + 1 ==> IsCompoundCode(strat.compounds[mid])) && CompoundsKnown(strat, mid, hi)
  {
  }

  /** What decides whether the loop can go on: the stops taken so far and the list lengths. */
  predicate Stinted(strat: Strategy, r: RaceState)
  {
    |strat.compounds| == |strat.pitLaps| + 1 && r.lap >= 1 && r.stintIndex == PitsUpTo(strat.pitLaps, r.lap - 1) &&
    Runnable(r)
  }

  /** A pit stop fails only on an unknown compound: the compound index never passes the end of the list. */
  lemma PitStopOutcome(sim: Simulator, strat: Strategy, r: RaceState)
    requires Stinted(strat, r)
    ensures PitsUpTo(strat.pitLaps, r.lap) < |strat.compounds|
    ensures PitStop(sim, strat, r).Failure? <==>
      r.lap in strat.pitLaps && !IsCompoundCode(strat.compounds[PitsUpTo(strat.pitLaps, r.lap)])
    ensures PitStop(sim, strat, r).Success? ==> Stinted(strat, RunLap(sim, PitStop(sim, strat, r).value))
  {
    PitsUpToAtMost(strat.pitLaps, r.lap);
  }

  lemma {:induction false} RunFromOutcome(sim: Simulator, strat: Strategy, r: RaceState)
    requires Stinted(strat, r) && r.lap <= sim.totalLaps + 1
    ensures RunFrom(sim, strat, r).Success? <==>
      CompoundsKnown(strat, PitsUpTo(strat.pitLaps, r.lap - 1), PitsUpTo(strat.pitLaps, sim.totalLaps))
    decreases sim.totalLaps + 1 - r.lap
  {
    var pits := strat.pitLaps;
    if r.lap <= sim.totalLaps {
      var here := PitsUpTo(pits, r.lap);
      PitStopOutcome(sim, strat, r);
      PitsUpToMonotone(pits, r.lap, sim.totalLaps);
      KnownStep(strat, PitsUpTo(pits, r.lap - 1), here, PitsUpTo(pits, sim.totalLaps));
      if PitStop(sim, strat, r).Success? {
        RunFromOutcome(sim, strat, Lap(sim, strat, r).value);
      }
    }
  }

  // ---------------------------------------------------------------------
  // What a race result satisfies.

  /** The state the loop ends in when the race runs to the end: every lap recorded, every stop paid for. */
  lemma FinalState(sim: Simulator, strat: Strategy) returns (r: RaceState)
    requires Race(sim, strat).Success?
    ensures Race(sim, strat).value == ResultOf(strat, r)
    ensures var n := if sim.totalLaps > 0 then sim.totalLaps else 0;
      Records(sim, strat, r.laps, n) && r.total == Sum(r.laps.times) + PitTime(sim, strat.pitLaps, n)
  {
    var c := LookupCompound(strat.compounds[0]).value;
    var start := Start(sim, strat.compounds[0], c);
    StartAccounted(sim, strat, c);
    RunFromAccounts(sim, strat, start);
    r := RunFrom(sim, strat, start).value;
  }

  /**
   * The race fails exactly when the counts do not match or a compound it
   * reaches is not in the table: the first, or the one after any stop
   * taken within the race distance. Running out of compounds never happens.
   */
  lemma RaceOutcome(sim: Simulator, strat: Strategy)
    ensures Race(sim, strat).Success? <==>
      |strat.compounds| == |strat.pitLaps| + 1 && CompoundsKnown(strat, -1, PitsUpTo(strat.pitLaps, sim.totalLaps))
    ensures Race(sim, strat).Failure? ==> Race(sim, strat).error != IndexOutOfRange
  {
    var h := PitsUpTo(strat.pitLaps, sim.totalLaps);
    if |strat.compounds| == |strat.pitLaps| + 1 {
      KnownStep(strat, -1, 0, h);
      if IsCompoundCode(strat.compounds[0]) {
        var c := LookupCompound(strat.compounds[0]).value;
        if sim.totalLaps >= 0 {
          RunFromOutcome(sim, strat, Start(sim, strat.compounds[0], c));
          RunFromErrors(sim, strat, Start(sim, strat.compounds[0], c));
        }
      }
    }
  }

  /** A loop that keeps the stint index in step with the stops never fails for running out of compounds. */
  lemma {:induction false} RunFromErrors(sim: Simulator, strat: Strategy, r: RaceState)
    requires Stinted(strat, r)
    ensures RunFrom(sim, strat, r).Failure? ==> RunFrom(sim, strat, r).error != IndexOutOfRange
    decreases sim.totalLaps + 1 - r.lap
  {
    if r.lap <= sim.totalLaps {
      PitStopOutcome(sim, strat, r);
      if PitStop(sim, strat, r).Success? {
        RunFromErrors(sim, strat, Lap(sim, strat, r).value);
      } else {
        var code := strat.compounds[PitsUpTo(strat.pitLaps, r.lap)];
        assert PitStop(sim, strat, r).error == UnknownCompound(code);
        assert UnknownCompound(code)[0] != IndexOutOfRange[0];
      }
    }
  }

  lemma RecordsTimes(sim: Simulator, strat: Strategy, l: Laps, n: nat)
    requires Records(sim, strat, l, n)
    ensures forall i :: 0 <= i < n ==> l.cumulative[i] == Sum(l.times[..i + 1]) + PitTime(sim, strat.pitLaps, i + 1)
    ensures n > 0 ==> l.cumulative[n - 1] == Sum(l.times) + PitTime(sim, strat.pitLaps, n)
  {
    forall i | 0 <= i < n
      ensures l.cumulative[i] == Sum(l.times[..i + 1]) + PitTime(sim, strat.pitLaps, i + 1)
    {
      assert LapRecorded(sim, strat, l, i);
    }
    if n > 0 {
      assert LapRecorded(sim, strat, l, n - 1);
      assert l.times[..n] == l.times;
    }
  }

  /**
   * Every list has one entry per lap; the total is the lap times plus the
   * pit loss once per pit lap within the race (PitTime, which
   * PitTimeIsCount shows is pit_loss times the number of pit laps); each
   * cumulative time is the time up to the end of its lap, and the last one
   * is the total.
   */
  lemma RaceTotals(sim: Simulator, strat: Strategy, res: RaceResult)
    requires Race(sim, strat) == Success(res)
    ensures var n := if sim.totalLaps > 0 then sim.totalLaps else 0;
      |res.lapTimes| == n && |res.cumulativeTimes| == n && |res.gripLevels| == n &&
      |res.compoundsUsed| == n && |res.tireAges| == n && res.pitStops == |strat.pitLaps|
    ensures res.totalTime == Sum(res.lapTimes) + PitTime(sim, strat.pitLaps, sim.totalLaps)
    ensures forall i :: 0 <= i < |res.cumulativeTimes| ==>
      i < |res.lapTimes| && res.cumulativeTimes[i] == Sum(res.lapTimes[..i + 1]) + PitTime(sim, strat.pitLaps, i + 1)
    ensures sim.totalLaps > 0 ==> res.cumulativeTimes[sim.totalLaps - 1] == res.totalTime
  {
    var r := FinalState(sim, strat);
    var n := if sim.totalLaps > 0 then sim.totalLaps else 0;
    assert PitTime(sim, strat.pitLaps, n) == PitTime(sim, strat.pitLaps, sim.totalLaps);
    RecordsTimes(sim, strat, r.laps, n);
  }

  lemma RecordsStints(sim: Simulator, strat: Strategy, l: Laps, n: nat)
    requires Records(sim, strat, l, n)
    ensures forall lap :: 1 <= lap <= n ==> PitsUpTo(strat.pitLaps, lap) < |strat.compounds|
    ensures forall i :: 0 <= i < n ==> l.compounds[i] == strat.compounds[PitsUpTo(strat.pitLaps, i + 1)]
    ensures forall i :: 0 <= i < n ==>
      l.ages[i] == (if i == 0 || i + 1 in strat.pitLaps then 1 else l.ages[i - 1] + 1)
  {
    forall j | 1 <= j <= n
      ensures PitsUpTo(strat.pitLaps, j) < |strat.compounds|
    {
      assert LapRecorded(sim, strat, l, j - 1);
    }
    forall i | 0 <= i < n
      ensures l.compounds[i] == strat.compounds[PitsUpTo(strat.pitLaps, i + 1)]
    {
      assert LapRecorded(sim, strat, l, i);
    }
    forall i | 0 <= i < n
      ensures l.ages[i] == (if i == 0 || i + 1 in strat.pitLaps then 1 else l.ages[i - 1] + 1)
    {
      assert LapRecorded(sim, strat, l, i);
    }
  }

  /**
   * Lap i + 1 runs the compound reached after the stops of laps 1..i+1,
   * which always exists; a lap's tire age is 1 on the first lap and on a
   * pit lap, and one more than the previous lap's otherwise.
   */
  lemma RaceStints(sim: Simulator, strat: Strategy, res: RaceResult)
    requires Race(sim, strat) == Success(res)
    ensures |res.compoundsUsed| == |res.tireAges|
    ensures forall lap :: 1 <= lap <= |res.compoundsUsed| ==> PitsUpTo(strat.pitLaps, lap) < |strat.compounds|
    ensures forall i :: 0 <= i < |res.compoundsUsed| ==>
      res.compoundsUsed[i] == strat.compounds[PitsUpTo(strat.pitLaps, i + 1)]
    ensures forall i :: 0 <= i < |res.tireAges| ==>
      res.tireAges[i] == (if i == 0 || i + 1 in strat.pitLaps then 1 else res.tireAges[i - 1] + 1)
  {
    var r := FinalState(sim, strat);
    RecordsStints(sim, strat, r.laps, if sim.totalLaps > 0 then sim.totalLaps else 0);
  }

  lemma RecordsLapTimes(sim: Simulator, strat: Strategy, l: Laps, n: nat)
    requires Records(sim, strat, l, n)
    ensures forall i :: 0 <= i < n ==>
      l.times[i] == sim.baseLapTime + LapTimeDelta(l.grips[i], sim.baseLapTime) - (sim.totalLaps - (i + 1)) as real * sim.fuelEffect
    ensures forall i :: 0 <= i < n ==>
      l.ages[i] >= 1 && LookupCompound(l.compounds[i]).Some? &&
      l.grips[i] == Grip(Worn(LookupCompound(l.compounds[i]).value, Abrasiveness(sim.trackName), l.ages[i] - 1, RaceLapSpeed))
  {
    forall i | 0 <= i < n
      ensures l.times[i] == sim.baseLapTime + LapTimeDelta(l.grips[i], sim.baseLapTime) - (sim.totalLaps - (i + 1)) as real * sim.fuelEffect
      ensures l.ages[i] >= 1 && LookupCompound(l.compounds[i]).Some? &&
        l.grips[i] == Grip(Worn(LookupCompound(l.compounds[i]).value, Abrasiveness(sim.trackName), l.ages[i] - 1, RaceLapSpeed))
    {
      assert LapRecorded(sim, strat, l, i);
    }
  }

  /**
   * Each lap time is the base plus the tire's delta at the lap's grip,
   * minus fuel_effect per lap still to go; the grip is that of a new set
   * of the lap's compound after age - 1 race laps on this track.
   */
  lemma RaceLapTimes(sim: Simulator, strat: Strategy, res: RaceResult)
    requires Race(sim, strat) == Success(res)
    ensures |res.lapTimes| == |res.gripLevels| == |res.compoundsUsed| == |res.tireAges|
    ensures forall i :: 0 <= i < |res.lapTimes| ==>
      res.lapTimes[i] == sim.baseLapTime + LapTimeDelta(res.gripLevels[i], sim.baseLapTime) -
        (sim.totalLaps - (i + 1)) as real * sim.fuelEffect
    ensures forall i :: 0 <= i < |res.gripLevels| ==>
      res.tireAges[i] >= 1 && LookupCompound(res.compoundsUsed[i]).Some? &&
      res.gripLevels[i] ==
        Grip(Worn(LookupCompound(res.compoundsUsed[i]).value, Abrasiveness(sim.trackName), res.tireAges[i] - 1, RaceLapSpeed))
  {
    var r := FinalState(sim, strat);
    RecordsLapTimes(sim, strat, r.laps, if sim.totalLaps > 0 then sim.totalLaps else 0);
  }

  /** The final lap is run with no fuel benefit: its time is the base plus the tire delta. */
  lemma LastLapHasNoFuelBenefit(sim: Simulator, strat: Strategy, res: RaceResult)
    requires Race(sim, strat) == Success(res) && sim.totalLaps > 0
    ensures sim.totalLaps - 1 < |res.lapTimes| == |res.gripLevels|
    ensures res.lapTimes[sim.totalLaps - 1] == sim.baseLapTime + LapTimeDelta(res.gripLevels[sim.totalLaps - 1], sim.baseLapTime)
  {
    RaceTotals(sim, strat, res);
    RaceLapTimes(sim, strat, res);
  }

  /** A new set is a stint's tire at age 0, and each race lap ages it by one. */
  lemma StintTireAges(sim: Simulator, c: Compound, age: nat)
    ensures StintTire(sim, c, 0) == Fresh(c, Abrasiveness(sim.trackName))
    ensures StintTire(sim, c, age + 1) == AfterLap(StintTire(sim, c, age), RaceLapSpeed, 1.0, 0)
  {
  }

  // ---------------------------------------------------------------------
  // Comparing strategies: every race in turn, then a stable sort by total time.

  /** The race of every strategy on this simulator. */
  function Races(sim: Simulator): Strategy -> Result<RaceResult, string>
  {
    strat => Race(sim, strat)
  }

  /**
   * The races of compare_strategies' loop, in order, with run giving each
   * strategy's race; the first one to fail ends the loop with its error.
   */
  function RunAll(run: Strategy -> Result<RaceResult, string>, strategies: seq<Strategy>): (r: Result<seq<RaceResult>, string>)
    ensures r.Success? ==> |r.value| == |strategies|
    decreases |strategies|
  {
    if |strategies| == 0 then Success([])
    else
      match RunAll(run, strategies[..|strategies| - 1])
      case Failure(e) => Failure(e)
      case Success(rs) =>
        match run(strategies[|strategies| - 1])
        case Failure(e) => Failure(e)
        case Success(res) => Success(rs + [res])
  }

  /** Every race runs to the end, each giving its own result, exactly when RunAll succeeds. */
  lemma {:induction false} RunAllSucceeds(run: Strategy -> Result<RaceResult, string>, strategies: seq<Strategy>)
    ensures RunAll(run, strategies).Success? <==> forall i :: 0 <= i < |strategies| ==> run(strategies[i]).Success?
    ensures RunAll(run, strategies).Success? ==>
      forall i :: 0 <= i < |strategies| ==> RunAll(run, strategies).value[i] == run(strategies[i]).value
    decreases |strategies|
  {
    if |strategies| > 0 {
      var init := strategies[..|strategies| - 1];
      RunAllSucceeds(run, init);
      assert forall i :: 0 <= i < |init| ==> init[i] == strategies[i];
    }
  }

  /** A failure is the error of the first strategy whose race fails. */
  lemma {:induction false} RunAllFailsFirst(run: Strategy -> Result<RaceResult, string>, strategies: seq<Strategy>)
    requires RunAll(run, strategies).Failure?
    ensures exists i ::
      && 0 <= i < |strategies|
      && run(strategies[i]) == Failure(RunAll(run, strategies).error)
      && forall j :: 0 <= j < i ==> run(strategies[j]).Success?
    decreases |strategies|
  {
    var init := strategies[..|strategies| - 1];
    assert forall i :: 0 <= i < |init| ==> init[i] == strategies[i];
    if RunAll(run, init).Failure? {
      RunAllFailsFirst(run, init);
      var i :| 0 <= i < |init| && run(init[i]) == Failure(RunAll(run, init).error) &&
        forall j :: 0 <= j < i ==> run(init[j]).Success?;
      assert run(strategies[i]) == Failure(RunAll(run, strategies).error);
    } else {
      RunAllSucceeds(run, init);
      var i := |strategies| - 1;
      assert run(strategies[i]) == Failure(RunAll(run, strategies).error);
    }
  }

  /** Once a prefix of the strategies fails, the loop fails with the same error. */
  lemma {:induction false} RunAllStops(run: Strategy -> Result<RaceResult, string>, strategies: seq<Strategy>, i: nat)
    requires i <= |strategies| && RunAll(run, strategies[..i]).Failure?
    ensures RunAll(run, strategies) == RunAll(run, strategies[..i])
    decreases |strategies| - i
  {
    if i < |strategies| {
      assert strategies[..i + 1][..i] == strategies[..i];
      RunAllStops(run, strategies, i + 1);
    } else {
      assert strategies[..i] == strategies;
    }
  }

  predicate SortedByTime(s: seq<RaceResult>)
  {
    forall i, j :: 0 <= i < j < |s| ==> s[i].totalTime <= s[j].totalTime
  }

  /** Puts x after every entry of t that is not slower than it. */
  function InsertByTime(t: seq<RaceResult>, x: RaceResult): seq<RaceResult>
    decreases |t|
  {
    if |t| == 0 then [x]
    else if x.totalTime < t[0].totalTime then [x] + t
    else [t[0]] + InsertByTime(t[1..], x)
  }

  /** list.sort with the total time as key: an insertion sort, which is stable as Python's sort is. */
  function SortByTime(s: seq<RaceResult>): seq<RaceResult>
    decreases |s|
  {
    if |s| == 0 then [] else InsertByTime(SortByTime(s[..|s| - 1]), s[|s| - 1])
  }

  lemma {:induction false} InsertPermutes(t: seq<RaceResult>, x: RaceResult)
    ensures multiset(InsertByTime(t, x)) == multiset(t) + multiset{x}
    decreases |t|
  {
    if |t| > 0 && x.totalTime >= t[0].totalTime {
      InsertPermutes(t[1..], x);
      assert t == [t[0]] + t[1..];
    }
  }

  /** Inserting a result no faster than a bound into results no faster than it keeps them so. */
  lemma {:induction false} InsertAtLeast(t: seq<RaceResult>, x: RaceResult, bound: real)
    requires forall i :: 0 <= i < |t| ==> t[i].totalTime >= bound
    requires x.totalTime >= bound
    ensures forall i :: 0 <= i < |InsertByTime(t, x)| ==> InsertByTime(t, x)[i].totalTime >= bound
    decreases |t|
  {
    if |t| > 0 && x.totalTime >= t[0].totalTime {
      InsertAtLeast(t[1..], x, bound);
    }
  }

  lemma {:induction false} InsertSorted(t: seq<RaceResult>, x: RaceResult)
    requires SortedByTime(t)
    ensures SortedByTime(InsertByTime(t, x))
    decreases |t|
  {
    if |t| > 0 && x.totalTime >= t[0].totalTime {
      var rest := InsertByTime(t[1..], x);
      InsertSorted(t[1..], x);
      InsertAtLeast(t[1..], x, t[0].totalTime);
      assert InsertByTime(t, x) == [t[0]] + rest;
    }
  }

  /** The sort is a permutation of the results. */
  lemma {:induction false} SortPermutes(s: seq<RaceResult>)
    ensures multiset(SortByTime(s)) == multiset(s)
    decreases |s|
  {
    if |s| > 0 {
      SortPermutes(s[..|s| - 1]);
      InsertPermutes(SortByTime(s[..|s| - 1]), s[|s| - 1]);
      assert s == s[..|s| - 1] + [s[|s| - 1]];
    }
  }

  /** The sort puts the fastest first. */
  lemma {:induction false} SortSorts(s: seq<RaceResult>)
    ensures SortedByTime(SortByTime(s))
    decreases |s|
  {
    if |s| > 0 {
      SortSorts(s[..|s| - 1]);
      InsertSorted(SortByTime(s[..|s| - 1]), s[|s| - 1]);
    }
  }

  /** The results with a given total time, in their order. */
  function WithTime(s: seq<RaceResult>, time: real): (w: seq<RaceResult>)
    decreases |s|
  {
    if |s| == 0 then []
    else (if s[0].totalTime == time then [s[0]] else []) + WithTime(s[1..], time)
  }

  lemma {:induction false} WithTimeAppend(a: seq<RaceResult>, b: seq<RaceResult>, time: real)
    ensures WithTime(a + b, time) == WithTime(a, time) + WithTime(b, time)
    decreases |a|
  {
    if |a| > 0 {
      WithTimeAppend(a[1..], b, time);
      assert (a + b)[1..] == a[1..] + b;
    } else {
      assert a + b == b;
    }
  }

  lemma {:induction false} WithTimeNone(s: seq<RaceResult>, time: real)
    requires forall i :: 0 <= i < |s| ==> s[i].totalTime > time
    ensures WithTime(s, time) == []
    decreases |s|
  {
    if |s| > 0 {
      WithTimeNone(s[1..], time);
    }
  }

  lemma {:induction false} InsertStable(t: seq<RaceResult>, x: RaceResult, time: real)
    requires SortedByTime(t)
    ensures WithTime(InsertByTime(t, x), time) == WithTime(t, time) + WithTime([x], time)
    decreases |t|
  {
    if |t| > 0 {
      if x.totalTime < t[0].totalTime {
        WithTimeAppend([x], t, time);
        if x.totalTime == time {
          WithTimeNone(t, time);
        }
      } else {
        InsertStable(t[1..], x, time);
        WithTimeAppend([t[0]], InsertByTime(t[1..], x), time);
        WithTimeAppend([t[0]], t[1..], time);
        assert [t[0]] + t[1..] == t;
      }
    }
  }

  /** The sort is stable: results with equal total times keep the order they were run in. */
  lemma {:induction false} SortStable(s: seq<RaceResult>, time: real)
    ensures WithTime(SortByTime(s), time) == WithTime(s, time)
    decreases |s|
  {
    if |s| > 0 {
      var init := s[..|s| - 1];
      SortStable(init, time);
      SortSorts(init);
      InsertStable(SortByTime(init), s[|s| - 1], time);
      WithTimeAppend(init, [s[|s| - 1]], time);
      assert init + [s[|s| - 1]] == s;
    }
  }

  // ---------------------------------------------------------------------
  // The grid search for the best lap for a single stop.

  /** find_optimal_1stop's candidate for a pit lap. */
  function OneStop(first: string, second: string, pitLap: int): Strategy
  {
    Strategy("1-Stop L" + IntToString(pitLap), [first, second], [pitLap])
  }

  /** The search range when none is given: the middle third of the race, with floor division. */
  function SearchRange(sim: Simulator, range: Option<(int, int)>): (int, int)
  {
    match range
    case Some(r) => r
    case None => (sim.totalLaps / 3, 2 * sim.totalLaps / 3)
  }

  const NoBestResult := "'NoneType' object is not subscriptable"

  /** The race of every candidate, by pit lap. */
  function Trials(sim: Simulator, first: string, second: string): int -> Result<RaceResult, string>
  {
    pitLap => Race(sim, OneStop(first, second, pitLap))
  }

  /**
   * The best result after trying the pit laps lo..hi in turn, with trial
   * giving each lap's race: a lap's result replaces the best so far only
   * when strictly faster (the best time starts at infinity, which None
   * stands for here); a failing race ends the search.
   */
  function BestOf(trial: int -> Result<RaceResult, string>, lo: int, hi: int): Result<Option<RaceResult>, string>
    decreases hi - lo
  {
    if hi < lo then Success(None)
    else
      match BestOf(trial, lo, hi - 1)
      case Failure(e) => Failure(e)
      case Success(best) =>
        match trial(hi)
        case Failure(e) => Failure(e)
        case Success(res) =>
          if best.None? || res.totalTime < best.value.totalTime then Success(Some(res)) else Success(best)
  }

  /** The search ends with a result exactly when every race in the range runs, and has one exactly when the range is not empty. */
  lemma {:induction false} BestOfSucceeds(trial: int -> Result<RaceResult, string>, lo: int, hi: int)
    ensures BestOf(trial, lo, hi).Success? <==> forall l :: lo <= l <= hi ==> trial(l).Success?
    ensures BestOf(trial, lo, hi).Success? ==> (BestOf(trial, lo, hi).value.Some? <==> lo <= hi)
    decreases hi - lo
  {
    if lo <= hi {
      BestOfSucceeds(trial, lo, hi - 1);
    }
  }

  /**
   * best is the result of pit lap l of lo..hi, every lap before l is
   * strictly slower and no lap from l on is faster.
   */
  predicate FirstFastestAt(trial: int -> Result<RaceResult, string>, lo: int, hi: int, l: int, best: RaceResult)
  {
    && lo <= l <= hi
    && trial(l) == Success(best)
    && (forall m :: lo <= m < l ==> trial(m).Success? && best.totalTime < trial(m).value.totalTime)
    && (forall m :: l <= m <= hi ==> trial(m).Success? && best.totalTime <= trial(m).value.totalTime)
  }

  /** The best is the result of the first pit lap with the least total time. */
  lemma {:induction false} BestIsFirstFastest(trial: int -> Result<RaceResult, string>, lo: int, hi: int)
    requires BestOf(trial, lo, hi).Success? && lo <= hi
    ensures BestOf(trial, lo, hi).value.Some?
    ensures exists l :: FirstFastestAt(trial, lo, hi, l, BestOf(trial, lo, hi).value.value)
    decreases hi - lo
  {
    BestOfSucceeds(trial, lo, hi);
    var best := BestOf(trial, lo, hi).value.value;
    if lo == hi {
      assert FirstFastestAt(trial, lo, hi, lo, best);
    } else {
      BestIsFirstFastest(trial, lo, hi - 1);
      var prev := BestOf(trial, lo, hi - 1).value.value;
      var l :| FirstFastestAt(trial, lo, hi - 1, l, prev);
      if trial(hi).value.totalTime < prev.totalTime {
        assert FirstFastestAt(trial, lo, hi, hi, best);
      } else {
        assert FirstFastestAt(trial, lo, hi, l, best);
      }
    }
  }

  /** One more lap of the search: its result replaces the best so far only when strictly faster. */
  lemma BestOfStep(trial: int -> Result<RaceResult, string>, lo: int, hi: int, best: Option<RaceResult>, res: RaceResult)
    requires lo <= hi && BestOf(trial, lo, hi - 1) == Success(best) && trial(hi) == Success(res)
    ensures BestOf(trial, lo, hi) == Success(if best.None? || res.totalTime < best.value.totalTime then Some(res) else best)
  {
  }

  /** Once a prefix of the range fails, the search fails with the same error. */
  lemma {:induction false} BestOfStops(trial: int -> Result<RaceResult, string>, lo: int, mid: int, hi: int)
    requires mid <= hi && BestOf(trial, lo, mid).Failure?
    ensures BestOf(trial, lo, hi) == BestOf(trial, lo, mid)
    decreases hi - mid
  {
    if mid < hi {
      BestOfStops(trial, lo, mid, hi - 1);
    }
  }

  /** What the search returns: the best result's strategy and the result, or the error that ends it. */
  function SearchResult(trial: int -> Result<RaceResult, string>, lo: int, hi: int): Result<(Strategy, RaceResult), string>
  {
    match BestOf(trial, lo, hi)
    case Failure(e) => Failure(e)
    case Success(None) => Failure(NoBestResult)
    case Success(Some(best)) => Success((best.strategy, best))
  }

  /**
   * The search finds a strategy exactly when the range is not empty and
   * every race in it runs. An empty range fails with the error of
   * subscripting None; otherwise a failure is that of the first lap whose
   * race fails.
   */
  lemma SearchSucceeds(trial: int -> Result<RaceResult, string>, lo: int, hi: int)
    ensures SearchResult(trial, lo, hi).Success? <==> lo <= hi && forall l :: lo <= l <= hi ==> trial(l).Success?
    ensures hi < lo ==> SearchResult(trial, lo, hi) == Failure(NoBestResult)
  {
    BestOfSucceeds(trial, lo, hi);
  }

  /** A failing search over a range that is not empty fails as the first failing lap's race does. */
  lemma {:induction false} SearchFailsFirst(trial: int -> Result<RaceResult, string>, lo: int, hi: int)
    requires lo <= hi && SearchResult(trial, lo, hi).Failure?
    ensures exists l ::
      && lo <= l <= hi
      && trial(l) == Failure(SearchResult(trial, lo, hi).error)
      && forall m :: lo <= m < l ==> trial(m).Success?
    decreases hi - lo
  {
    BestOfSucceeds(trial, lo, hi);
    if BestOf(trial, lo, hi - 1).Failure? {
      SearchFailsFirst(trial, lo, hi - 1);
    } else {
      BestOfSucceeds(trial, lo, hi - 1);
      assert trial(hi) == Failure(SearchResult(trial, lo, hi).error);
    }
  }

  /**
   * What the search finds is the result of the first pit lap with the least
   * total time, and the strategy that result names.
   */
  lemma SearchFindsFirstFastest(trial: int -> Result<RaceResult, string>, lo: int, hi: int)
    requires SearchResult(trial, lo, hi).Success?
    ensures var best := SearchResult(trial, lo, hi).value;
      best.0 == best.1.strategy && exists l :: FirstFastestAt(trial, lo, hi, l, best.1)
  {
    BestOfSucceeds(trial, lo, hi);
    BestIsFirstFastest(trial, lo, hi);
  }

  /** A finished race's result names the strategy it ran, so the search returns the candidate of the lap it found. */
  lemma RaceNamesStrategy(sim: Simulator, strat: Strategy)
    requires Race(sim, strat).Success?
    ensures Race(sim, strat).value.strategy == strat
  {
  }

  // ---------------------------------------------------------------------
  // The simulator's methods.

  /**
   * One pass of the loop body of simulate_strategy, on the loop's variables r
   * and the stint's tire model: the pit-stop block, which may fit a new
   * model, then the lap on the model in use. It ends the race with the error
   * the block raises, and otherwise leaves what Lap describes, with the
   * model in use one lap older.
   */
  method RaceLap(sim: Simulator, strat: Strategy, r: RaceState, tires: TireDegradationModel)
    returns (next: Result<RaceState, string>, fitted: TireDegradationModel)
    requires Runnable(r) && tires.Valid() && tires.State() == StintTire(sim, r.spec, r.stintLap - 1)
    modifies tires
    ensures next == Lap(sim, strat, r)
    ensures fitted == tires || fresh(fitted)
    ensures next.Success? ==> fitted.Valid() && fitted.State() == StintTire(sim, next.value.spec, next.value.stintLap - 1)
  {
    var p := r;
    fitted := tires;
    if r.lap in strat.pitLaps {
      var index := r.stintIndex + 1;
      if index >= |strat.compounds| {
        return Failure(IndexOutOfRange), tires;
      }
      var code := strat.compounds[index];
      var created := TireDegradationModel.Create(code, sim.trackName);
      if created.Failure? {
        return Failure(created.error), tires;
      }
      fitted := created.value;
      p := r.(total := r.total + sim.pitLoss, stintIndex := index, stintLap := 1, compound := code,
        spec := LookupCompound(code).value);
      StintTireAges(sim, p.spec, 0);
    }
    var grip := fitted.GripMultiplier();
    var tireDelta := fitted.GetLapTimeDelta(sim.baseLapTime);
    var fuelBenefit := FuelBenefit(sim, p.lap);
    var lapTime := sim.baseLapTime + tireDelta - fuelBenefit;
    var total := p.total + lapTime;
    StintTireAges(sim, p.spec, p.stintLap - 1);
    fitted.SimulateLap(RaceLapSpeed, 1.0, 0);
    next := Success(RaceState(p.lap + 1, p.stintLap + 1, p.stintIndex, total, p.compound, p.spec,
      Record(p.laps, lapTime, total, grip, p.compound, p.stintLap)));
  }

  /**
   * simulate_strategy: the count check, the first tire model, then the while
   * loop over the loop's variables (held together as a RaceState) with a
   * stateful tire model, a new one per stint.
   */
  method SimulateStrategy(sim: Simulator, strat: Strategy) returns (r: Result<RaceResult, string>)
    ensures r == Race(sim, strat)
  {
    if |strat.compounds| != |strat.pitLaps| + 1 {
      return Failure(CountMismatch);
    }
    var compound := strat.compounds[0];
    var created := TireDegradationModel.Create(compound, sim.trackName);
    if created.Failure? {
      return Failure(created.error);
    }
    var tires := created.value;
    var state := Start(sim, compound, LookupCompound(compound).value);
    ghost var start := state;
    StintTireAges(sim, state.spec, 0);
    while state.lap <= sim.totalLaps
      invariant Runnable(state) && fresh(tires) && tires.Valid()
      invariant tires.State() == StintTire(sim, state.spec, state.stintLap - 1)
      invariant RunFrom(sim, strat, start) == RunFrom(sim, strat, state)
      decreases sim.totalLaps + 1 - state.lap
    {
      var next, fitted := RaceLap(sim, strat, state, tires);
      if next.Failure? {
        return Failure(next.error);
      }
      state, tires := next.value, fitted;
    }
    var laps := state.laps;
    return Success(RaceResult(strat, state.total, laps.times, laps.cumulative, laps.grips, laps.compounds, laps.ages,
      Mean(laps.times), |strat.pitLaps|));
  }

  /** What compare_strategies returns: the results sorted by total time, or the error that ends the loop. */
  function Ranking(run: Strategy -> Result<RaceResult, string>, strategies: seq<Strategy>): Result<seq<RaceResult>, string>
  {
    match RunAll(run, strategies)
    case Failure(e) => Failure(e)
    case Success(results) => Success(SortByTime(results))
  }

  /**
   * The ranking exists exactly when every race runs; it then holds each
   * strategy's result once, fastest first, with results of equal total time
   * in the order their strategies were given.
   */
  lemma RankingSorts(run: Strategy -> Result<RaceResult, string>, strategies: seq<Strategy>)
    ensures Ranking(run, strategies).Success? <==> forall i :: 0 <= i < |strategies| ==> run(strategies[i]).Success?
    ensures Ranking(run, strategies).Success? ==>
      var results := RunAll(run, strategies).value;
      var ranked := Ranking(run, strategies).value;
      && (forall i :: 0 <= i < |strategies| ==> results[i] == run(strategies[i]).value)
      && SortedByTime(ranked)
      && multiset(ranked) == multiset(results)
      && forall time :: WithTime(ranked, time) == WithTime(results, time)
  {
    RunAllSucceeds(run, strategies);
    if RunAll(run, strategies).Success? {
      var results := RunAll(run, strategies).value;
      SortSorts(results);
      SortPermutes(results);
      forall time
        ensures WithTime(SortByTime(results), time) == WithTime(results, time)
      {
        SortStable(results, time);
      }
    }
  }

  /**
   * compare_strategies: every strategy's race in turn, the first failure
   * ending the comparison, then the results sorted by total time, fastest
   * first.
   */
  method CompareStrategies(sim: Simulator, strategies: seq<Strategy>) returns (r: Result<seq<RaceResult>, string>)
    ensures r == Ranking(Races(sim), strategies)
  {
    var results: seq<RaceResult> := [];
    for i := 0 to |strategies|
      invariant RunAll(Races(sim), strategies[..i]) == Success(results)
    {
      var result := SimulateStrategy(sim, strategies[i]);
      assert strategies[..i + 1][..i] == strategies[..i] && strategies[..i + 1][i] == strategies[i];
      assert Races(sim)(strategies[i]) == result;
      if result.Failure? {
        RunAllStops(Races(sim), strategies, i + 1);
        return Failure(result.error);
      }
      results := results + [result.value];
    }
    assert strategies[..|strategies|] == strategies;
    return Success(SortByTime(results));
  }

  /** trial gives the race of the candidate of each pit lap, as Trials does. */
  ghost predicate IsTrials(sim: Simulator, first: string, second: string, trial: int -> Result<RaceResult, string>)
  {
    forall l {:trigger Race(sim, OneStop(first, second, l))} :: trial(l) == Race(sim, OneStop(first, second, l))
  }

  /**
   * The body of find_optimal_1stop's loop: the race of one candidate, whose
   * result replaces the best so far only when strictly faster; a failing
   * race ends the search.
   */
  method ConsiderLap(sim: Simulator, first: string, second: string, ghost trial: int -> Result<RaceResult, string>,
    ghost lo: int, pitLap: int, best: Option<RaceResult>)
    returns (next: Result<Option<RaceResult>, string>)
    requires IsTrials(sim, first, second, trial)
    requires lo <= pitLap && BestOf(trial, lo, pitLap - 1) == Success(best)
    ensures next == BestOf(trial, lo, pitLap)
  {
    var strategy := Strategy("1-Stop L" + IntToString(pitLap), [first, second], [pitLap]);
    var result := SimulateStrategy(sim, strategy);
    assert strategy == OneStop(first, second, pitLap);
    if result.Failure? {
      return Failure(result.error);
    }
    BestOfStep(trial, lo, pitLap, best, result.value);
    if best.None? || result.value.totalTime < best.value.totalTime {
      return Success(Some(result.value));
    }
    return Success(best);
  }

  /** find_optimal_1stop's loop over the pit laps lo..hi, with trial giving each lap's race. */
  method SearchLaps(sim: Simulator, first: string, second: string, ghost trial: int -> Result<RaceResult, string>, lo: int, hi: int)
    returns (found: Result<Option<RaceResult>, string>)
    requires IsTrials(sim, first, second, trial)
    ensures found == BestOf(trial, lo, hi)
  {
    var best: Option<RaceResult> := None;
    var pitLap := lo;
    while pitLap <= hi
      invariant lo <= pitLap && (lo <= hi ==> pitLap <= hi + 1) && (hi < lo ==> pitLap == lo)
      invariant BestOf(trial, lo, pitLap - 1) == Success(best)
      decreases hi + 1 - pitLap
    {
      var next := ConsiderLap(sim, first, second, trial, lo, pitLap, best);
      if next.Failure? {
        BestOfStops(trial, lo, pitLap, hi);
        return Failure(next.error);
      }
      best := next.value;
      pitLap := pitLap + 1;
    }
    return Success(best);
  }

  /**
   * find_optimal_1stop: the race of each pit lap of the range in turn, keeping
   * the first fastest; a failing race ends the search with its error, and an
   * empty range leaves no result to return.
   */
  method FindOptimal1Stop(sim: Simulator, first: string, second: string, range: Option<(int, int)>)
    returns (r: Result<(Strategy, RaceResult), string>)
    ensures var (lo, hi) := SearchRange(sim, range); r == SearchResult(Trials(sim, first, second), lo, hi)
  {
    var (lo, hi) := SearchRange(sim, range);
    var found := SearchLaps(sim, first, second, Trials(sim, first, second), lo, hi);
    if found.Failure? {
      return Failure(found.error);
    }
    if found.value.None? {
      return Failure(NoBestResult);
    }
    var best := found.value.value;
    return Success((best.strategy, best));
  }
}
