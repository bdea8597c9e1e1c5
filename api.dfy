// The helpers under the REST API of archive/api/main.py: scaling the car
// by the request's percentages, looking a circuit up by name (and what the
// handler makes of an unknown name), the per-segment summary of a lap's
// telemetry, and the stride that thins the telemetry for transfer.

module Api {
  import opened Common
  import opened BaseVehicle
  import opened Tracks
  import opened TireModelLap
  import Circuits

  // ---------------------------------------------------------------------
  // Vehicle parameters

  /** The vehicle_params of a /simulate request: horsepower, three percentages of the baseline, and kg. */
  datatype VehicleParams = VehicleParams(power: real, downforce: real, tire: real, mass: real, drag: real)

  /** The field defaults of the request model, which are also what /defaults reports. */
  const DefaultParams := VehicleParams(1000.0, 100.0, 100.0, 798.0, 100.0)

  /**
   * apply_params_to_vehicle: horsepower to watts at 746 W per hp, the mass
   * as given, and the lift, grip and drag coefficients as percentages of
   * the baseline car's. No other field of the car changes.
   */
  function ApplyParams(veh: Vehicle, p: VehicleParams): (v: Vehicle)
    ensures v.(maxPower := veh.maxPower, mass := veh.mass, clFront := veh.clFront, clRear := veh.clRear,
               tireMuPeak := veh.tireMuPeak, cd := veh.cd) == veh
  {
    var downforceScale := p.downforce / 100.0;
    veh.(maxPower := p.power * 746.0,
         mass := p.mass,
         clFront := 1.8 * downforceScale,
         clRear := 1.7 * downforceScale,
         tireMuPeak := 1.8 * (p.tire / 100.0),
         cd := 0.70 * (p.drag / 100.0))
  }

  /** The request's defaults reproduce the default car exactly. */
  lemma DefaultsGiveDefaultVehicle()
    ensures ApplyParams(DefaultVehicle, DefaultParams) == DefaultVehicle
  {
  }

  /**
   * Each scaled coefficient is the default car's coefficient times the
   * percentage over 100, so the front/rear lift balance never changes.
   */
  lemma ParamsArePercentages(veh: Vehicle, p: VehicleParams)
    ensures var v := ApplyParams(veh, p);
      v.clFront == DefaultVehicle.clFront * p.downforce / 100.0 &&
      v.clRear == DefaultVehicle.clRear * p.downforce / 100.0 &&
      v.tireMuPeak == DefaultVehicle.tireMuPeak * p.tire / 100.0 &&
      v.cd == DefaultVehicle.cd * p.drag / 100.0 &&
      v.maxPower == DefaultVehicle.maxPower * p.power / DefaultParams.power &&
      v.clFront * DefaultVehicle.clRear == v.clRear * DefaultVehicle.clFront
  {
  }

  /** The request alone decides the six fields: applying a second request overrides the first. */
  lemma LastParamsWin(veh: Vehicle, p: VehicleParams, q: VehicleParams)
    ensures ApplyParams(ApplyParams(veh, p), q) == ApplyParams(veh, q)
    ensures ApplyParams(ApplyParams(veh, p), p) == ApplyParams(veh, p)
  {
  }

  /** Scaling leaves the geometry alone, so a car that can run the lap still can. */
  lemma ParamsKeepGeometry(veh: Vehicle, p: VehicleParams)
    ensures HasGeometry(ApplyParams(veh, p)) == HasGeometry(veh)
  {
  }

  // ---------------------------------------------------------------------
  // Track lookup

  datatype HttpError = HttpError(status: int, detail: string)

  datatype Circuit = Silverstone | Monaco | Spa

  /** The key of each circuit in get_track's table (also its id in the /tracks listing). */
  function CircuitKey(c: Circuit): string
  {
    match c
    case Silverstone => "silverstone"
    case Monaco => "monaco"
    case Spa => "spa"
  }

  /** The name the created track carries. */
  function CircuitTitle(c: Circuit): string
  {
    match c
    case Silverstone => "Silverstone Circuit"
    case Monaco => "Circuit de Monaco"
    case Spa => "Spa-Francorchamps"
  }

  /** get_track's table: which circuit a lower-cased name selects. */
  function CircuitNamed(key: string): (r: Option<Circuit>)
    ensures r.Some? ==> CircuitKey(r.value) == key
  {
    if key == "silverstone" then Some(Silverstone)
    else if key == "monaco" then Some(Monaco)
    else if key == "spa" then Some(Spa)
    else None
  }

  /** The table and the keys are inverse: every circuit is found under its key and nothing else is found. */
  lemma CircuitKeysInverse(c: Circuit, key: string)
    ensures CircuitNamed(CircuitKey(c)) == Some(c)
    ensures CircuitNamed(key) == Some(c) <==> key == CircuitKey(c)
  {
  }

  /** str.lower on one character; only A to Z change (see README on other scripts). */
  function LowerChar(c: char): char
  {
    if 'A' <= c <= 'Z' then (c as int + 32) as char else c
  }

  predicate IsLower(c: char)
  {
    LowerChar(c) == c
  }

  function Lower(s: string): (t: string)
    ensures |t| == |s|
    ensures forall i :: 0 <= i < |s| ==> t[i] == LowerChar(s[i])
  {
    if |s| == 0 then [] else [LowerChar(s[0])] + Lower(s[1..])
  }

  /** Lower-casing twice is lower-casing once, and a name without capitals is its own lower case. */
  lemma LowerIdempotent(s: string)
    ensures Lower(Lower(s)) == Lower(s)
    ensures (forall i :: 0 <= i < |s| ==> IsLower(s[i])) ==> Lower(s) == s
  {
    var t := Lower(s);
    assert forall i :: 0 <= i < |t| ==> LowerChar(t[i]) == t[i];
  }

  /**
   * get_track's decision: the lower-cased name must be a key of the table;
   * anything else is HTTP 400 naming the request's own spelling.
   */
  function TrackId(name: string): (r: Result<Circuit, HttpError>)
    ensures r.Success? <==> Lower(name) == "silverstone" || Lower(name) == "monaco" || Lower(name) == "spa"
    ensures r.Success? ==> CircuitKey(r.value) == Lower(name)
    ensures r.Failure? ==> r.error == HttpError(400, "Unknown track: " + name)
  {
    match CircuitNamed(Lower(name))
    case Some(c) => Success(c)
    case None => Failure(HttpError(400, "Unknown track: " + name))
  }

  /**
   * A name selects a circuit exactly when it lower-cases to that circuit's
   * key, so the lookup ignores case and accepts each /tracks id as listed.
   */
  lemma TrackIdIgnoresCase(name: string, c: Circuit)
    ensures TrackId(name) == Success(c) <==> Lower(name) == CircuitKey(c)
    ensures TrackId(Lower(name)) == TrackId(name) || TrackId(name).Failure?
    ensures TrackId(CircuitKey(c)) == Success(c)
  {
    CircuitKeysInverse(c, Lower(name));
    LowerIdempotent(name);
    KeyIsLowerCase(c);
  }

  lemma KeyIsLowerCase(c: Circuit)
    ensures Lower(CircuitKey(c)) == CircuitKey(c)
  {
    var key := CircuitKey(c);
    forall i | 0 <= i < |key|
      ensures IsLower(key[i])
    {
      assert 'a' <= key[i] <= 'z';
    }
    LowerIdempotent(key);
  }

  /** get_track: build the selected circuit afresh, or fail with the 400. */
  method GetTrack(name: string) returns (r: Result<Track, HttpError>)
    ensures r.Success? <==> TrackId(name).Success?
    ensures r.Failure? ==> r.error == TrackId(name).error
    ensures r.Success? ==> fresh(r.value) && r.value.Valid() && r.value.name == CircuitTitle(TrackId(name).value)
    ensures r.Success? && TrackId(name).value == Silverstone ==>
            |r.value.segments| == 19 && r.value.totalLength == 5171.0
    ensures r.Success? && TrackId(name).value == Monaco ==>
            |r.value.segments| == 14 && r.value.totalLength == 2537.0
    ensures r.Success? && TrackId(name).value == Spa ==>
            |r.value.segments| == 15 && r.value.totalLength == 4124.0
  {
    match TrackId(name)
    case Failure(e) =>
      r := Failure(e);
    case Success(Silverstone) =>
      var t := Circuits.CreateSilverstone();
      r := Success(t);
    case Success(Monaco) =>
      var t := Circuits.CreateMonaco();
      r := Success(t);
    case Success(Spa) =>
      var t := Circuits.CreateSpa();
      r := Success(t);
  }

  /**
   * The /simulate handler's `except Exception`: whatever was raised comes
   * back as a 500 whose detail is str() of the exception, which for an
   * HTTPException is "<status>: <detail>".
   */
  function AsServerError(e: HttpError): (r: HttpError)
    ensures r.status == 500
    ensures e.status == 400 ==> r.detail == "400: " + e.detail
  {
    StatusText400();
    HttpError(500, IntToString(e.status) + ": " + e.detail)
  }

  /** The track step of /simulate: get_track runs inside the try, so its error is re-raised as a 500. */
  function SimulateTrackStep(name: string): (r: Result<Circuit, HttpError>)
    ensures r.Success? <==> TrackId(name).Success?
    ensures r.Success? ==> r.value == TrackId(name).value && CircuitKey(r.value) == Lower(name)
    ensures r.Failure? ==> r.error.status == 500
  {
    match TrackId(name)
    case Success(c) => Success(c)
    case Failure(e) => Failure(AsServerError(e))
  }

  /** An unknown track never reaches the client as a 400: it is a 500 whose text embeds the 400. */
  lemma UnknownTrackIsServerError(name: string)
    requires TrackId(name).Failure?
    ensures SimulateTrackStep(name) == Failure(HttpError(500, "400: Unknown track: " + name))
  {
    StatusText400();
    assert "400" + ": " + ("Unknown track: " + name) == "400: Unknown track: " + name;
  }

  lemma StatusText400()
    ensures IntToString(400) == "400"
  {
    assert NatToString(4) == "4";
    assert NatToString(40) == "40";
  }

  // ---------------------------------------------------------------------
  // Per-segment analysis of the telemetry

  datatype SegmentResult = SegmentResult(
    name: string,
    kind: string,
    length: real,
    simTime: real,
    avgSpeed: real,
    maxSpeed: real,
    minSpeed: real)

  /** The DataFrame mask start <= distance < end: the rows inside the segment, in telemetry order. */
  function Samples(rows: seq<TrackRow>, seg: Segment): (r: seq<TrackRow>)
    ensures |r| <= |rows|
  {
    if |rows| == 0 then []
    else
      var last := rows[|rows| - 1];
      Samples(rows[..|rows| - 1], seg) + (if Contains(seg, last.distance) then [last] else [])
  }

  /** The mask keeps exactly the rows inside the segment. */
  lemma {:induction false} SamplesMembers(rows: seq<TrackRow>, seg: Segment)
    ensures forall x :: x in Samples(rows, seg) <==> x in rows && Contains(seg, x.distance)
  {
    if |rows| > 0 {
      var n := |rows| - 1;
      SamplesMembers(rows[..n], seg);
      assert rows == rows[..n] + [rows[n]];
    }
  }

  /** The mask keeps order: the samples of a concatenation are the samples of each part, in turn. */
  lemma {:induction false} SamplesAppend(a: seq<TrackRow>, b: seq<TrackRow>, seg: Segment)
    ensures Samples(a + b, seg) == Samples(a, seg) + Samples(b, seg)
    decreases |b|
  {
    if |b| == 0 {
      assert a + b == a;
    } else {
      var n := |b| - 1;
      assert (a + b)[..|a + b| - 1] == a + b[..n];
      SamplesAppend(a, b[..n], seg);
    }
  }

  /** The velocity column, in km/h. */
  function Speeds(rows: seq<TrackRow>): (v: seq<real>)
    ensures |v| == |rows|
  {
    seq(|rows|, i requires 0 <= i < |rows| => rows[i].velocityKmh)
  }

  function SeqMax(s: seq<real>): (m: real)
    requires |s| > 0
    ensures m in s
    ensures forall i :: 0 <= i < |s| ==> s[i] <= m
  {
    if |s| == 1 then s[0] else Max(SeqMax(s[..|s| - 1]), s[|s| - 1])
  }

  function SeqMin(s: seq<real>): (m: real)
    requires |s| > 0
    ensures m in s
    ensures forall i :: 0 <= i < |s| ==> m <= s[i]
  {
    if |s| == 1 then s[0] else Min(SeqMin(s[..|s| - 1]), s[|s| - 1])
  }

  /** One SegmentResult: last time minus first over two or more samples, else 0.0; mean, max and min speed. */
  function Summary(seg: Segment, data: seq<TrackRow>): SegmentResult
    requires |data| > 0
  {
    var speeds := Speeds(data);
    SegmentResult(seg.name, seg.kind, seg.length,
                  if |data| > 1 then data[|data| - 1].time - data[0].time else 0.0,
                  Mean(speeds).value, SeqMax(speeds), SeqMin(speeds))
  }

  /** The loop of analyze_segments: a result for each segment, in track order, when it has samples. */
  function Analysis(rows: seq<TrackRow>, segs: seq<Segment>): (r: seq<SegmentResult>)
    ensures |r| <= |segs|
  {
    if |segs| == 0 then []
    else
      var seg := segs[|segs| - 1];
      var data := Samples(rows, seg);
      Analysis(rows, segs[..|segs| - 1]) + (if |data| > 0 then [Summary(seg, data)] else [])
  }

  /**
   * The analysis goes segment by segment: that of a concatenation is that
   * of each part in turn, and one segment gives its summary when it has
   * samples and nothing otherwise.
   */
  lemma {:induction false} AnalysisAppend(rows: seq<TrackRow>, a: seq<Segment>, b: seq<Segment>)
    ensures Analysis(rows, a + b) == Analysis(rows, a) + Analysis(rows, b)
    ensures |b| == 1 ==>
      Analysis(rows, b) == if |Samples(rows, b[0])| > 0 then [Summary(b[0], Samples(rows, b[0]))] else []
    decreases |b|
  {
    if |b| == 0 {
      assert a + b == a;
    } else {
      var n := |b| - 1;
      assert (a + b)[..|a + b| - 1] == a + b[..n];
      AnalysisAppend(rows, a, b[..n]);
      if |b| == 1 {
        assert b[..n] == [];
      }
    }
  }

  predicate TimeOrdered(rows: seq<TrackRow>)
  {
    forall j, k :: 0 <= j <= k < |rows| ==> rows[j].time <= rows[k].time
  }

  /** Masking keeps the rows' time order. */
  lemma {:induction false} SamplesTimeOrdered(rows: seq<TrackRow>, seg: Segment)
    requires TimeOrdered(rows)
    ensures TimeOrdered(Samples(rows, seg))
  {
    if |rows| > 0 {
      var n := |rows| - 1;
      var pre := Samples(rows[..n], seg);
      SamplesTimeOrdered(rows[..n], seg);
      SamplesMembers(rows[..n], seg);
      assert forall x :: x in pre ==> x.time <= rows[n].time by {
        forall x | x in pre
          ensures x.time <= rows[n].time
        {
          var j :| 0 <= j < n && rows[..n][j] == x;
          assert rows[j] == x;
        }
      }
      var r := Samples(rows, seg);
      assert r == pre + (if Contains(seg, rows[n].distance) then [rows[n]] else []);
      forall j, k | 0 <= j <= k < |r|
        ensures r[j].time <= r[k].time
      {
        if k >= |pre| {
          assert r[k] == rows[n];
          if j < |pre| {
            assert r[j] in pre;
          }
        }
      }
    }
  }

  /**
   * What each segment's summary promises: its speeds bracket every sample,
   * with min <= avg <= max; a single sample takes no time; and when the
   * telemetry is in time order no segment time is negative.
   */
  lemma SummarySane(rows: seq<TrackRow>, seg: Segment)
    requires |Samples(rows, seg)| > 0
    ensures var data := Samples(rows, seg);
      var r := Summary(seg, data);
      r.name == seg.name && r.kind == seg.kind && r.length == seg.length &&
      r.minSpeed <= r.avgSpeed <= r.maxSpeed &&
      (forall x :: x in data ==> r.minSpeed <= x.velocityKmh <= r.maxSpeed) &&
      (|data| == 1 ==> r.simTime == 0.0 && r.minSpeed == r.avgSpeed == r.maxSpeed) &&
      (TimeOrdered(rows) ==> r.simTime >= 0.0)
  {
    var data := Samples(rows, seg);
    var speeds := Speeds(data);
    MeanWithin(speeds, SeqMin(speeds), SeqMax(speeds));
    forall x | x in data
      ensures SeqMin(speeds) <= x.velocityKmh <= SeqMax(speeds)
    {
      var i :| 0 <= i < |data| && data[i] == x;
      assert speeds[i] == x.velocityKmh;
    }
    if TimeOrdered(rows) {
      SamplesTimeOrdered(rows, seg);
    }
  }

  /** Every result of the analysis is a sane summary of one of the track's segments. */
  lemma {:induction false} AnalysisSane(rows: seq<TrackRow>, segs: seq<Segment>)
    ensures forall r :: r in Analysis(rows, segs) ==>
      r.minSpeed <= r.avgSpeed <= r.maxSpeed &&
      (TimeOrdered(rows) ==> r.simTime >= 0.0) &&
      exists i :: 0 <= i < |segs| && r.name == segs[i].name && |Samples(rows, segs[i])| > 0
  {
    if |segs| > 0 {
      var n := |segs| - 1;
      AnalysisSane(rows, segs[..n]);
      var data := Samples(rows, segs[n]);
      if |data| > 0 {
        SummarySane(rows, segs[n]);
      }
      forall r | r in Analysis(rows, segs)
        ensures exists i :: 0 <= i < |segs| && r.name == segs[i].name && |Samples(rows, segs[i])| > 0
      {
        if r in Analysis(rows, segs[..n]) {
          var i :| 0 <= i < n && r.name == segs[..n][i].name && |Samples(rows, segs[..n][i])| > 0;
          assert segs[..n][i] == segs[i];
        } else {
          assert r.name == segs[n].name;
        }
      }
    }
  }

  /** The lap's telemetry is in time order: row k is logged at step 20 (k + 1) of a non-negative clock. */
  lemma TelemetryTimeOrdered(rows: seq<TrackRow>, dt: real, muPeak: real)
    requires SampledEvery(rows, dt, muPeak) && dt >= 0.0
    ensures TimeOrdered(rows)
  {
    forall j, k | 0 <= j <= k < |rows|
      ensures rows[j].time <= rows[k].time
    {
      ElapsedIsProduct((j + 1) * SampleStride, dt);
      ElapsedIsProduct((k + 1) * SampleStride, dt);
      MulLeRight(((j + 1) * SampleStride) as real, ((k + 1) * SampleStride) as real, dt);
    }
  }

  /** analyze_segments: the loop over the track's segments, appending a summary for each one with samples. */
  method AnalyzeSegments(telemetry: seq<TrackRow>, track: Track) returns (results: seq<SegmentResult>)
    ensures results == Analysis(telemetry, track.segments)
  {
    var segments := track.segments;
    results := [];
    for i := 0 to |segments|
      invariant results == Analysis(telemetry, segments[..i])
    {
      var segment := segments[i];
      var segmentData := Samples(telemetry, segment);
      AnalysisStep(telemetry, segments, i);
      if |segmentData| > 0 {
        var summary := Summarize(segment, segmentData);
        results := results + [summary];
      }
    }
    assert segments[..|segments|] == segments;
  }

  /** The body of the loop for a segment with samples: its time, then its speed statistics. */
  method Summarize(segment: Segment, segmentData: seq<TrackRow>) returns (summary: SegmentResult)
    requires |segmentData| > 0
    ensures summary == Summary(segment, segmentData)
  {
    var segTime := 0.0;
    if |segmentData| > 1 {
      segTime := segmentData[|segmentData| - 1].time - segmentData[0].time;
    }
    var speeds := Speeds(segmentData);
    summary := SegmentResult(segment.name, segment.kind, segment.length, segTime,
                             Mean(speeds).value, SeqMax(speeds), SeqMin(speeds));
  }

  lemma AnalysisStep(rows: seq<TrackRow>, segs: seq<Segment>, i: nat)
    requires i < |segs|
    ensures var data := Samples(rows, segs[i]);
      Analysis(rows, segs[..i + 1]) == Analysis(rows, segs[..i]) + if |data| > 0 then [Summary(segs[i], data)] else []
  {
    assert segs[..i + 1][..i] == segs[..i];
  }

  // ---------------------------------------------------------------------
  // Downsampling for transfer

  /** sample_rate = max(1, len(telemetry_df) // 200). */
  function SampleRate(n: nat): (s: nat)
    ensures s >= 1
  {
    if n / 200 >= 1 then n / 200 else 1
  }

  /** iloc[::s]: the first row, then every s-th row after it. */
  function EveryNth<T>(xs: seq<T>, s: nat): seq<T>
    requires s >= 1
    decreases |xs|
  {
    if |xs| == 0 then [] else [xs[0]] + EveryNth(xs[if s < |xs| then s else |xs|..], s)
  }

  /** One row is kept for every stride begun: the first row and every s-th after it. */
  lemma {:induction false} EveryNthLength<T>(xs: seq<T>, s: nat)
    requires s >= 1
    ensures |EveryNth(xs, s)| == (|xs| + s - 1) / s
    decreases |xs|
  {
    var n := |xs|;
    if n <= s {
      CeilingOfShort(n, s);
      if n > 0 {
        assert xs[n..] == [];
      }
    } else {
      EveryNthLength(xs[s..], s);
      DivPlusDivisor(n - 1, s);
    }
  }

  /** Up to one stride's worth of rows begins at most one stride. */
  lemma CeilingOfShort(n: int, s: int)
    requires 0 <= n <= s && s >= 1
    ensures (n + s - 1) / s == if n == 0 then 0 else 1
  {
    if n == 0 {
      DivModUnique(s - 1, s, 0, s - 1);
    } else {
      DivModUnique(n + s - 1, s, 1, n - 1);
    }
  }

  /** The k-th kept row is row k s. */
  lemma {:induction false} EveryNthIndex<T>(xs: seq<T>, s: nat)
    requires s >= 1
    ensures forall k :: 0 <= k < |EveryNth(xs, s)| ==> k * s < |xs| && EveryNth(xs, s)[k] == xs[k * s]
    decreases |xs|
  {
    var n := |xs|;
    if n > 0 {
      var rest := xs[if s < n then s else n..];
      EveryNthIndex(rest, s);
      var e := EveryNth(xs, s);
      assert e == [xs[0]] + EveryNth(rest, s);
      forall k | 0 <= k < |e|
        ensures k * s < n && e[k] == xs[k * s]
      {
        if k > 0 {
          MulPred(k, s);
        }
      }
    }
  }

  /** The kept rows are exactly those at indices 0, s, 2s, ... below the length. */
  lemma EveryNthKeeps<T>(xs: seq<T>, s: nat)
    requires s >= 1
    ensures |EveryNth(xs, s)| == (|xs| + s - 1) / s
    ensures forall k :: 0 <= k < |EveryNth(xs, s)| ==> k * s < |xs| && EveryNth(xs, s)[k] == xs[k * s]
  {
    EveryNthLength(xs, s);
    EveryNthIndex(xs, s);
  }

  /** x < b q implies x / q < b. */
  lemma DivBelow(x: int, q: int, b: int)
    requires q >= 1 && 0 <= x < b * q
    ensures x / q < b
  {
  }

  /**
   * What the stride buys: under 400 rows every row is sent, and whatever
   * the lap's length fewer than 400 rows are sent.
   */
  lemma DownsampledSize<T>(rows: seq<T>)
    ensures var sampled := EveryNth(rows, SampleRate(|rows|));
      |sampled| < 400 && (|rows| < 400 ==> sampled == rows)
  {
    var n, s := |rows|, SampleRate(|rows|);
    EveryNthKeeps(rows, s);
    if n < 400 {
      assert s == 1;
      assert (n + s - 1) / s == n;
    } else {
      var q := n / 200;
      assert q >= 2 && 200 * q <= n < 200 * q + 200;
      assert n + q - 1 < 400 * q;
      DivBelow(n + q - 1, q, 400);
    }
  }
}
