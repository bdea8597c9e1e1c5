# F1 lap-time simulator — a verified model

This project models the core of a point-mass Formula 1 lap-time simulator:

- **Tracks.** A track is a list of segments laid end to end, each a half-open interval `[start, end)` of distance. A segment is found by distance.
- **Cars.** Each variant of the simulator has its own car. Each car has:
  - aerodynamic drag and downforce, with a DRS switch;
  - a mass that falls as fuel burns;
  - load transfer between the axles;
  - traction, braking and cornering limits;
  - tire friction that depends on load, speed or temperature.
- **Lap integrators.** Each lap integrator is a forward-Euler loop. On each step it brakes, accelerates or coasts against the corner speed limit, keeps the speed non-negative, and logs a telemetry row at a fixed stride. It stops at the end of the lap or at an iteration cap.
- **Tire degradation.** Tire wear, temperature, thermal damage and flat spots are updated lap by lap.
- **Race strategy.** A race is run lap by lap with pit stops. Strategies are compared by total time, and a grid search finds the best single-stop lap.
- **Web API helpers.** The web API scales the car's parameters, looks up a circuit by name, summarises the telemetry per segment and downsamples it.

Modules follow the program's files:

| module | file | models |
|---|---|---|
| `Common` | common.dfy | options and results; radii (`Straight` for the source's `np.inf`); the brake/accelerate/coast rule; the Euler speed clamp; the step clock; the sampling stride arithmetic; sums and means |
| `Tracks` | tracks.dfy | the `Track` class (`add_segment`, `get_segment_at_distance`) shared by every variant, and its layout lemmas |
| `Circuits` | circuits.dfy | the built-in Silverstone, Monaco and Spa tables |
| `BaseVehicle`, `BaseLap` | base_vehicle.dfy, base_lap.dfy | the car and `simulate_lap` of src/f1_simulation.py |
| `TireModelLap` | tiremodel_lap.dfy | `simulate_real_track` and `validate_against_real_f1` of src/f1_realtrack_tiremodel.py |
| `RealTracks` | real_tracks.dfy | the car and lap of src/f1_real_tracks.py |
| `ThermalLap` | thermal_lap.dfy | the thermal car and `simulate_lap_enhanced` of src/f1_simulation_advance.py |
| `Day3` | day3.dfy | the car and lap of archive/f1_simulator_day3.py |
| `Portfolio` | portfolio.dfy | the car, the driver controller and the lap of archive/gptf1_track.py |
| `TireDegradation` | tire_degradation.dfy | `TireCompound`, the compound and abrasiveness tables, `TireDegradationModel`, `DegradingF1Vehicle` |
| `RaceStrategy` | race_strategy.dfy | `simulate_strategy`, `compare_strategies`, `find_optimal_1stop` |
| `Api` | api.dfy | `apply_params_to_vehicle`, `get_track`, `analyze_segments`, and the downsampling and error handling of `run_simulation` |

How the source is represented:

- **Car methods and formulas.** The car methods only read the car's fields, so each car is a datatype and its methods are functions.
- **Square roots.** Corner speed limits are carried squared (`SpeedLimit.Bounded(sq)`), so no square root is taken. A negative square stands for the NaN that `np.sqrt` returns, against which both comparisons of the mode rule are false.
- **Tracks.** `Track` is a class whose `AddSegment` method appends to a `seq` field.
- **Lap loops.** Each lap loop is a method with a `while` loop. The per-step physics is a function proved about separately. Each loop also returns, as a ghost value, the states it passed through. Its contract says those states are the run from rest under the step function `Next`, and each telemetry row is the row of one pass of that run.
- **Tire model.** The tire model is a class whose methods update its fields in place. They are proved against pure functions on a `TireState` value.
- **Race simulation.** `simulate_strategy` is a loop proved to compute a recursive specification, `Race`, and the race's properties are lemmas about `Race`.

## Model

| member | source | states |
|---|---|---|
| Common.SelectModeMatchesRule | src/f1_simulation.py:380-397 | the mode chosen from the squared limit is brake when v > 1.1 L, accelerate when v < 0.95 L, coast otherwise, as the source compares against L itself |
| Common.Pedals | src/f1_simulation.py:380-397 | throttle is 1 exactly when accelerating, brake is 1 exactly when braking; never both pressed |
| Common.NextSpeed | src/f1_simulation.py:409 | max(0, v + a dt) is non-negative, at least the Euler value, and equal to it or 0 |
| Common.ElapsedIsProduct | src/f1_simulation.py:411 | n additions of `time += dt` from 0 give exactly n dt |
| Common.SampleCountStep | src/f1_simulation.py:414 | after step n the number of multiples of the stride grows by one exactly when n % stride == 0 |
| Common.Trunc | src/tire_degradation.py:310-313 | Python int() of a float: truncation toward zero, within one of the value and with its sign |
| Common.Mean | archive/api/main.py:155 | a mean exists exactly for a non-empty list, and mean times count is the sum |
| Common.MeanWithin | archive/api/main.py:155-157 | the mean of values within [lo, hi] lies within [lo, hi] |
| Tracks.Track.constructor | src/f1_realtrack_tiremodel.py:79-86 | a new track keeps its metadata, has no segments and total length 0 |
| Tracks.Track.AddSegment | src/f1_realtrack_tiremodel.py:88-107 | the new segment starts at the old total and ends one length later, the total grows by the length, and the segments stay laid end to end |
| Tracks.Track.SegmentAtDistance | src/f1_realtrack_tiremodel.py:109-121 | the scan returns the first segment whose [start, end) holds the distance, else the last segment, and nothing on an empty track |
| Tracks.FirstContaining | src/f1_realtrack_tiremodel.py:118-120 | the index found contains d and no earlier segment does |
| Tracks.SegmentAt | src/f1_realtrack_tiremodel.py:109-121 | a segment is returned exactly when the track has one, and it is a segment of the track |
| Tracks.AppendKeepsLayout | src/f1_simulation.py:279-296 | appending at the running total keeps segments laid end to end and adds the length to the total |
| Tracks.PrefixLaidEndToEnd | src/f1_realtrack_tiremodel.py:98-107 | every prefix of a laid-out track is laid out |
| Tracks.LayoutIsContiguous | src/f1_realtrack_tiremodel.py:98-107 | the first segment starts at 0, each starts where the previous one ends, the last ends at the total length |
| Tracks.PrefixSumMonotone | src/f1_realtrack_tiremodel.py:98-107 | with non-negative lengths, longer prefixes have larger length sums |
| Tracks.SegmentWithinTrack | src/f1_realtrack_tiremodel.py:98-107 | with non-negative lengths every segment lies within [0, total length] |
| Tracks.EndsBeforeLaterStarts | src/f1_realtrack_tiremodel.py:98-107 | a segment ends no later than any later segment starts |
| Tracks.SomeSegmentContains | src/f1_realtrack_tiremodel.py:109-121 | every distance in [0, total) lies in some segment |
| Tracks.LookupFindsTheContainingSegment | src/f1_realtrack_tiremodel.py:109-121 | for d in [0, total) the lookup returns the one segment containing d |
| Tracks.LookupOffTrackGivesLast | src/f1_realtrack_tiremodel.py:121 | before 0 or at or past the total the lookup returns the last segment |
| Circuits.CreateSilverstone | src/f1_realtrack_tiremodel.py:29-64 | Silverstone: 19 segments laid end to end summing to 5171 m, while its declared length is 5891 m; record 87.097 s |
| Circuits.CreateMonaco | src/f1_realtrack_tiremodel.py:124-150 | Monaco: 14 segments laid end to end summing to 2537 m, while its declared length is 3337 m; record 70.166 s |
| Circuits.CreateSpa | src/f1_realtrack_tiremodel.py:152-179 | Spa: 15 segments laid end to end summing to 4124 m, while its declared length is 7004 m; record 106.286 s |
| BaseVehicle.AeroForcesShape | src/f1_simulation.py:72-93 | each force is its coefficient times 1/2 rho A v^2, total downforce is front plus rear, none negative for physical coefficients |
| BaseVehicle.AeroDrsEffect | src/f1_simulation.py:82-90 | DRS multiplies drag by 0.7 and rear downforce by 0.5, leaves front downforce unchanged, and lowers drag, rear and total downforce when moving |
| BaseVehicle.PressurePositive | src/f1_simulation.py:79 | 1/2 rho A v^2 is positive at any non-zero speed |
| BaseVehicle.CalculateMaxAcceleration | src/f1_simulation.py:95-113 | at most 70 % of mu_peak (m g + downforce), at most max_power / v above 5 m/s, non-negative for non-negative inputs |
| BaseVehicle.CalculateMaxBraking | src/f1_simulation.py:115-123 | within [0, mu_peak (m g + downforce)] |
| BaseVehicle.BrakingExceedsTraction | src/f1_simulation.py:95-123 | the car brakes at least as hard as it can accelerate |
| BaseVehicle.CornerSpeedReal | src/f1_simulation.py:125-150 | on a loaded car with non-negative friction the square the source takes the root of is not negative, so the corner speed is real |
| BaseVehicle.CornerSpeedDefaultMass | src/f1_simulation.py:136-140 | no mass argument means the car's own mass |
| BaseVehicle.CornerSpeedIncreasesWithRadius | src/f1_simulation.py:143-150 | with positive grip the corner speed strictly grows with abs(radius) |
| BaseVehicle.SmallerRadiusIsSlower | src/f1_simulation.py:125-150 | the default car is slower through a 30 m corner than a 200 m one |
| BaseVehicle.GetCurrentMass | src/f1_simulation.py:152-164 | never below 798 kg and never below mass - 1.5 km |
| BaseVehicle.CurrentMassNonIncreasing | src/f1_simulation.py:152-164 | the mass never grows with distance |
| BaseVehicle.CanUseDrsExactly | src/f1_simulation.py:166-179 | DRS exactly on straights and fast corners strictly above 100 km/h; not at 100 km/h |
| BaseVehicle.GetAxleNormalLoads | src/f1_simulation.py:181-215 | both axle loads are at least 1 N |
| BaseVehicle.AxleLoadsStaticSum | src/f1_simulation.py:196-215 | at zero acceleration the axles carry m g in total |
| BaseVehicle.AxleLoadsTransferToRear | src/f1_simulation.py:196-215 | positive acceleration raises the rear load and lowers the front load |
| BaseVehicle.AxleLoadsIgnoreLateral | src/f1_simulation.py:181-215 | the lateral acceleration does not affect the result |
| BaseVehicle.TireMuVsNormal | src/f1_simulation.py:217-239 | mu lies in [0.8, max(0.8, mu_peak)] and is the peak between 2000 N and 5000 N |
| BaseVehicle.MaxTireForce | src/f1_simulation.py:258 | the friction circle radius is non-negative on a loaded tire |
| BaseVehicle.CalculateCombinedTireForce | src/f1_simulation.py:241-268 | the force ends inside the friction circle, is unchanged when already inside, keeps its direction and signs |
| BaseVehicle.FrictionScaled | src/f1_simulation.py:262-266 | scaling by max / (combined + 1e-6) puts the force inside the circle with the same direction and signs |
| BaseVehicle.FrictionScaleFacts | src/f1_simulation.py:262-266 | the arithmetic of that scaling |
| BaseVehicle.CombinedForceWithinPeak | src/f1_simulation.py:241-268 | the combined force never exceeds mu_peak times the normal load |
| BaseVehicle.MaxTireForceWithinPeak | src/f1_simulation.py:217-239 | the friction circle radius is at most mu_peak N |
| BaseLap.NetForceSigns | src/f1_simulation.py:380-397 | only accelerating can push forward; braking gives at most -drag; never above 70 % of the tire limit minus drag |
| BaseLap.LapStep | src/f1_simulation.py:365-411 | the new speed is non-negative, the Euler value or 0; on a straight the step accelerates with no lateral g |
| BaseLap.LapStepFollowsRule | src/f1_simulation.py:380-397 | in a corner the step brakes above 1.1 L, accelerates below 0.95 L and coasts in between |
| BaseLap.LapStepPedals | src/f1_simulation.py:380-397 | throttle and brake never both pressed |
| BaseLap.LapStepBrakingSlows | src/f1_simulation.py:380-411 | braking and coasting never speed up a physical car |
| BaseLap.Row | src/f1_simulation.py:413-424 | a logged row carries the step's time and distance and is sane for a non-negative speed |
| BaseLap.LogRow | src/f1_simulation.py:414-424 | appending the row of step n, a multiple of 10, keeps row k the sample of step 10 (k + 1) |
| BaseLap.Advance | src/f1_simulation.py:400-411 | the loop body: new speed as LapStep, distance grows by v dt, the row of the step |
| BaseLap.MaybeLog | src/f1_simulation.py:414-424 | a row is appended exactly when n % 10 == 0; row count n / 10; distances stay ordered |
| BaseLap.Lookup | src/f1_simulation.py:298-304 | the segment looked up is the track's and has a usable radius |
| BaseLap.Next | src/f1_simulation.py:365-411 | one pass of the run on the segment at the current distance: speed non-negative, distance non-decreasing for dt >= 0 |
| BaseLap.Tick | src/f1_simulation.py:365-424 | the new speed and distance are Next of the old; the row of that pass is appended exactly when n % 10 == 0; v >= 0, time = n dt, distance non-decreasing |
| BaseLap.Pass | src/f1_simulation.py:365-424 | a pass from the last state of the run extends the run by one state and its samples by the row logged |
| BaseLap.SimulateLap | src/f1_simulation.py:337-429 | the states passed are the run from rest under Next; steps is the first n whose distance reaches the lap length, or the cap of 100000; lap time = steps dt; row k is the row of pass 10 (k + 1) of the run; logged distances non-decreasing |
| TireModelLap.NetForceBounds | src/f1_realtrack_tiremodel.py:219-236 | accelerating force at most the rear traction mu_peak (0.55 m g + df_rear) and the engine (10000 N up to 5 m/s); braking is -(0.85 mu_peak (m g + df) + drag); coasting -drag |
| TireModelLap.LateralAcc | src/f1_realtrack_tiremodel.py:240-244 | non-negative, 0 on a straight and for a zero radius |
| TireModelLap.EffectiveMuBounds | src/f1_realtrack_tiremodel.py:252-258 | the load-weighted mu lies within the bounds of the per-axle ones |
| TireModelLap.DriveAt | src/f1_realtrack_tiremodel.py:211-238 | the mass is at least 798 kg; a straight always accelerates |
| TireModelLap.GripAt | src/f1_realtrack_tiremodel.py:247-258 | axle loads at least 1 N and every mu within [0.8, max(0.8, mu_peak)] |
| TireModelLap.TrackStepAt | src/f1_realtrack_tiremodel.py:209-262 | the step keeps v >= 0 (the Euler value or 0), mass >= 798, loads and mu in range, accelerating on straights |
| TireModelLap.TrackStepFollowsRule | src/f1_realtrack_tiremodel.py:217-236 | in a corner the step brakes above 1.1 L, accelerates below 0.95 L and coasts in between |
| TireModelLap.TrackStepDrs | src/f1_realtrack_tiremodel.py:214-215 | DRS opens exactly on straights and fast corners above 100 km/h and then lowers the drag |
| TireModelLap.Row | src/f1_realtrack_tiremodel.py:264-275 | the row carries the step's time and distance |
| TireModelLap.LogRow | src/f1_realtrack_tiremodel.py:264-275 | appending the row of a multiple of 20 keeps row k the sample of step 20 (k + 1) |
| TireModelLap.Advance | src/f1_realtrack_tiremodel.py:238-262 | the loop body: the step's speed, distance + v dt, and a sane row |
| TireModelLap.MaybeLog | src/f1_realtrack_tiremodel.py:264-275 | a row is appended exactly when n % 20 == 0; row count n / 20 |
| TireModelLap.Next | src/f1_realtrack_tiremodel.py:208-262 | one pass of the run on the segment found at the current distance: speed non-negative, distance non-decreasing for dt >= 0 |
| TireModelLap.Tick | src/f1_realtrack_tiremodel.py:208-275 | the new speed and distance are Next of the old; the row of that pass is appended exactly when n % 20 == 0; v >= 0, time = n dt |
| TireModelLap.Pass | src/f1_realtrack_tiremodel.py:208-275 | a pass from the last state of the run extends the run by one state and its samples by the row logged |
| TireModelLap.SimulateRealTrack | src/f1_realtrack_tiremodel.py:181-277 | the states passed are the run from rest under Next; steps is the first n whose distance reaches the segments' total length, or the cap of 150000; lap time = steps dt; row k is the row of pass 20 (k + 1) of the run, sane; distances non-decreasing |
| TireModelLap.ValidateAgainstRealF1 | src/f1_realtrack_tiremodel.py:280-310 | fails exactly for a zero record time; otherwise reports the track, the record and the simulated time |
| TireModelLap.ValidationConsistent | src/f1_realtrack_tiremodel.py:286-288 | sim = record + difference, difference = error% of the record, both exactly 0 when sim equals the record |
| TireModelLap.ValidationSign | src/f1_realtrack_tiremodel.py:286-288 | against a positive record, a slower lap has a positive error and a faster one a negative error |
| RealTracks.GetCurrentMass | src/f1_real_tracks.py:70-73 | within [mass_empty, mass_empty + fuel_load] for non-negative fuel and distance |
| RealTracks.CurrentMassNonIncreasing | src/f1_real_tracks.py:70-73 | the mass never grows with distance |
| RealTracks.CurrentMassAtStart | src/f1_real_tracks.py:70-73 | at 0 km the car carries its whole fuel load |
| RealTracks.DrsGateExactly | src/f1_real_tracks.py:75-76 | DRS opens exactly on straights of at least 300 m, at the minimum speed, when available |
| RealTracks.AeroForcesShape | src/f1_real_tracks.py:78-89 | DRS swaps Cd for Cd_drs and Cl_rear for Cl_rear_drs; front downforce is the same; total = front + rear |
| RealTracks.PressurePositive | src/f1_real_tracks.py:79 | 1/2 rho A v^2 is positive at any non-zero speed |
| RealTracks.DefaultDrsLowersDragAndRearDownforce | src/f1_real_tracks.py:27-31 | for the default car DRS lowers drag and rear downforce whenever it moves |
| RealTracks.CornerSpeedReal | src/f1_real_tracks.py:91-101 | on a loaded car with non-negative friction the squared corner speed is non-negative, and a corner of larger abs(radius) is never slower |
| RealTracks.MuEff | src/f1_real_tracks.py:271-273 | mu_eff lies within [0.8 mu_peak, mu_peak] |
| RealTracks.SpeedDecay | src/f1_real_tracks.py:272 | the grip lost is within [0, 0.2] |
| RealTracks.MuEffBounds | src/f1_real_tracks.py:273 | mu (1 - decay) lies within [0.8 mu, mu] |
| RealTracks.MuEffNonIncreasing | src/f1_real_tracks.py:271-273 | more speed never gives more grip |
| RealTracks.LoopCornerLimit | src/f1_real_tracks.py:276-282 | unbounded exactly on a straight; with mu_eff = mu_peak it is the car's own corner speed |
| RealTracks.CappedEngine | src/f1_real_tracks.py:295-296 | the engine force never exceeds max_torque_force |
| RealTracks.NetForceBounds | src/f1_real_tracks.py:284-305 | accelerating force at most the torque cap and mu_eff (0.55 m g + df_rear); rolling resistance is subtracted in every mode |
| RealTracks.RealDriveAt | src/f1_real_tracks.py:263-290 | mass at least empty; straights accelerate; DRS only on straights of 300 m or more; mu_eff in range |
| RealTracks.RealStepAt | src/f1_real_tracks.py:260-310 | the step's speed is non-negative, the Euler value or 0 |
| RealTracks.NetForceOffThrottle | src/f1_real_tracks.py:284-301 | off the throttle the engine force is never consulted |
| RealTracks.RealStepAsWritten | src/f1_real_tracks.py:290-298 | as written the step fails exactly when it accelerates |
| RealTracks.AsWrittenAgreesOffThrottle | src/f1_real_tracks.py:284-301 | where the step as written succeeds, it equals the corrected step with any engine force |
| RealTracks.AtRestAccelerates | src/f1_real_tracks.py:284-292 | from rest the car accelerates unless the corner has no grip |
| RealTracks.AsWrittenFirstStepFails | src/f1_real_tracks.py:295 | the first step of every lap as written raises |
| RealTracks.DefaultCarFailsAtAbbey | src/f1_real_tracks.py:295 | concretely, the default car at Silverstone's Abbey |
| RealTracks.LogRow | src/f1_real_tracks.py:312-317 | appending the row of a multiple of 20 keeps row k the sample of step 20 (k + 1) |
| RealTracks.Advance | src/f1_real_tracks.py:307-310 | the loop body: the step's speed, distance + v dt, a sane row |
| RealTracks.MaybeLog | src/f1_real_tracks.py:312-317 | a row is appended exactly when n % 20 == 0; row count n / 20 |
| RealTracks.Row | src/f1_real_tracks.py:312-317 | the row carries the step's time, distance and segment name, and is sane for a non-negative speed |
| RealTracks.Next | src/f1_real_tracks.py:260-310 | one pass of the run on the segment found at the current distance: speed non-negative, distance non-decreasing for dt >= 0 |
| RealTracks.Tick | src/f1_real_tracks.py:260-317 | the new speed and distance are Next of the old; the row of that pass is appended exactly when n % 20 == 0; v >= 0, time = n dt |
| RealTracks.Pass | src/f1_real_tracks.py:260-317 | a pass from the last state of the run extends the run by one state and its samples by the row logged |
| RealTracks.SimulateRealTrack | src/f1_real_tracks.py:245-319 | with the engine force supplied: the states passed are the run from rest under Next; steps is the first n whose distance reaches the lap length, or the cap of 150000; lap time = steps dt; row k is the row of pass 20 (k + 1) of the run; distances non-decreasing |
| ThermalLap.Peaked | src/f1_simulation_advance.py:64-94 | the shared multiplier shape stays within [floor, 1] |
| ThermalLap.ColdRampRises | src/f1_simulation_advance.py:73 | the cold ramp rises with temperature and is below 1 short of the optimum |
| ThermalLap.HotFadeFalls | src/f1_simulation_advance.py:76-77 | the hot fade is 1 at the optimum and falls past it |
| ThermalLap.PeakedFullExactlyAtOptimum | src/f1_simulation_advance.py:71-79 | the multiplier is 1 exactly at the optimum |
| ThermalLap.PeakedRisesToOptimum | src/f1_simulation_advance.py:71-79 | warming towards the optimum never lowers it |
| ThermalLap.PeakedFallsPastOptimum | src/f1_simulation_advance.py:71-79 | heating past the optimum never raises it |
| ThermalLap.GripMultiplier | src/f1_simulation_advance.py:64-79 | the tire grip multiplier lies within [0.65, 1] |
| ThermalLap.BrakeEfficiency | src/f1_simulation_advance.py:81-94 | the brake efficiency lies within [0.70, 1] |
| ThermalLap.GripPeaksAtOptimum | src/f1_simulation_advance.py:64-79 | full grip exactly at the optimal temperature, rising while warming, fading past it |
| ThermalLap.BrakesPeakAtOptimum | src/f1_simulation_advance.py:81-94 | full brake efficiency exactly at the optimum, cold below, fading above |
| ThermalLap.TransferSign | src/f1_simulation_advance.py:107 | the transfer has the sign of the acceleration |
| ThermalLap.CalculateLoadTransfer | src/f1_simulation_advance.py:96-113 | both axle loads are non-negative |
| ThermalLap.LoadTransferConservesWeight | src/f1_simulation_advance.py:102-111 | the unfloored loads sum to m g + df_front + df_rear whatever the acceleration |
| ThermalLap.LoadTransferShiftsRearward | src/f1_simulation_advance.py:102-111 | accelerating moves load rearward and braking forward |
| ThermalLap.AeroForcesShape | src/f1_simulation_advance.py:130-139 | non-negative forces for physical coefficients; the axles share downforce as their lift coefficients |
| ThermalLap.CalculateMaxAcceleration | src/f1_simulation_advance.py:141-156 | the driving force is at most the engine force and the rear grip |
| ThermalLap.MaxAccelerationWithinGrip | src/f1_simulation_advance.py:141-156 | never above the rear grip at the optimal temperature; non-negative on a loaded axle |
| ThermalLap.GripScaled | src/f1_simulation_advance.py:150-151 | a multiplier in [0.65, 1] scales mu W by that much |
| ThermalLap.MaxBrakingBounds | src/f1_simulation_advance.py:158-170 | between 0.65 x 0.70 of and at most mu (W_f + 0.7 W_r) |
| ThermalLap.AxleBrakeBounds | src/f1_simulation_advance.py:167-168 | one axle's braking force against the same axle at full grip and efficiency |
| ThermalLap.CornerSpeedGripBounds | src/f1_simulation_advance.py:172-182 | the squared limit is the optimal-temperature limit scaled by the grip multiplier, within 0.65 and 1 times it |
| ThermalLap.LateralScaled | src/f1_simulation_advance.py:177-180 | the arithmetic of that scaling |
| ThermalLap.UpdateTemperatures | src/f1_simulation_advance.py:288-321 | after every step tires lie within [30, tire_max_temp] and brakes within [150, brake_max_temp] |
| ThermalLap.BrakingResetsTireTemperatures | src/f1_simulation_advance.py:289-291 | a braking step assigns, not adds, the tire temperatures: the result does not depend on them, and is 30 when initial dt 0.8 <= 30 |
| ThermalLap.DefaultCarBrakingColdTires | src/f1_simulation_advance.py:289-291 | the default car's tires sit at 30 degrees after any braking step of 0.05 s |
| ThermalLap.HeatFlowDirections | src/f1_simulation_advance.py:293-316 | accelerating never cools the tires nor heats the brakes; coasting cools everything |
| ThermalLap.ControlAt | src/f1_simulation_advance.py:269-293 | aero, zero-acceleration loads, the corner limit at the front tire temperature, and the mode; straights accelerate |
| ThermalLap.NetForceSigns | src/f1_simulation_advance.py:280-311 | only accelerating can push forward |
| ThermalLap.ThermalStepAt | src/f1_simulation_advance.py:266-338 | the step's speed is non-negative, the Euler value or 0, and its temperatures lie in range |
| ThermalLap.ThermalStepBrakingSlows | src/f1_simulation_advance.py:280-336 | braking and coasting never speed up a physical car |
| ThermalLap.Row | src/f1_simulation_advance.py:341-356 | the row carries time, distance, the temperatures and their multipliers |
| ThermalLap.LogRow | src/f1_simulation_advance.py:341-356 | appending the row of a multiple of 10 keeps row k the sample of step 10 (k + 1) |
| ThermalLap.Advance | src/f1_simulation_advance.py:324-338 | the loop body: the step's speed, distance + v dt, a sane row |
| ThermalLap.MaybeLog | src/f1_simulation_advance.py:341-356 | a row is appended exactly when n % 10 == 0 |
| ThermalLap.Next | src/f1_simulation_advance.py:265-338 | one pass of the run, temperatures included: speed non-negative, distance non-decreasing for dt >= 0, temperatures in range |
| ThermalLap.Tick | src/f1_simulation_advance.py:265-356 | the new speed, distance and temperatures are Next of the old; the row of that pass is appended exactly when n % 10 == 0; temperatures in range, time = n dt |
| ThermalLap.Pass | src/f1_simulation_advance.py:265-356 | a pass from the last state of the run extends the run by one state and its samples by the row logged |
| ThermalLap.SimulateLapEnhanced | src/f1_simulation_advance.py:238-359 | the states passed, temperatures included, are the run from rest under Next; steps is the first n whose distance reaches the lap length, or the cap of 100000; lap time = steps dt; row k is the row of pass 10 (k + 1) of the run, sane; final temperatures in range |
| Day3.FuelBurned | archive/f1_simulator_day3.py:64 | the fuel burned is distance / 1000 times the rate |
| Day3.FuelRemaining | archive/f1_simulator_day3.py:65 | the fuel left is never negative and never above the load |
| Day3.FuelRemainingNonIncreasing | archive/f1_simulator_day3.py:62-67 | more distance never leaves more fuel |
| Day3.GetCurrentMass | archive/f1_simulator_day3.py:62-67 | never below the empty mass |
| Day3.CurrentMassNonIncreasing | archive/f1_simulator_day3.py:62-67 | the mass never grows with distance |
| Day3.CurrentMassAtStart | archive/f1_simulator_day3.py:62-67 | at 0 m the car carries its whole fuel load |
| Day3.CurrentMassPerKilometre | archive/f1_simulator_day3.py:64 | the argument is in metres: k km burn k times the rate |
| Day3.DefaultCarAfterOneKilometre | archive/f1_simulator_day3.py:21-25 | the default car weighs 906.2 kg after 1000 m |
| Day3.DefaultDrsRule | archive/f1_simulator_day3.py:69-73 | DRS exactly on infinite-radius segments at 80 km/h or more |
| Day3.AeroForcesShape | archive/f1_simulator_day3.py:75-89 | each force is its coefficient times 1/2 rho A v^2; front downforce does not depend on DRS |
| Day3.PressureAreaSign | archive/f1_simulator_day3.py:77 | the shared factor is non-negative, and positive when moving |
| Day3.DefaultDrsLowersDragAndRearDownforce | archive/f1_simulator_day3.py:28-32 | DRS lowers drag (0.70 to 0.55) and rear downforce (1.7 to 1.4) when moving |
| Day3.CalculateLoadTransfer | archive/f1_simulator_day3.py:91-101 | both axle loads are non-negative |
| Day3.LoadTransferConservesWeight | archive/f1_simulator_day3.py:93-99 | the unfloored sum is m g plus the downforce whatever the acceleration |
| Day3.LoadTransferShiftsRearward | archive/f1_simulator_day3.py:93-99 | accelerating moves load rearward, braking forward |
| Day3.EngineForce | archive/f1_simulator_day3.py:105-108 | 10000 N up to 5 m/s, max_power / v above |
| Day3.CalculateMaxAcceleration | archive/f1_simulator_day3.py:103-113 | at most the engine force and mu W_rear |
| Day3.MaxAccelerationNonNegative | archive/f1_simulator_day3.py:103-113 | non-negative on a loaded rear axle |
| Day3.MaxBrakingBounds | archive/f1_simulator_day3.py:115-119 | mu (0.9 W_f + 0.6 W_r), between 60 % and 90 % of the whole car's grip |
| Day3.BrakingSplit | archive/f1_simulator_day3.py:117-119 | the arithmetic of that split |
| Day3.CornerSpeedMonotone | archive/f1_simulator_day3.py:126-128 | more load on the tires raises the corner speed, a heavier car lowers it |
| Day3.CornerLimitOrder | archive/f1_simulator_day3.py:126-128 | the order facts behind that monotonicity |
| Day3.DriveAt | archive/f1_simulator_day3.py:207-243 | mass at least empty; straights accelerate |
| Day3.NetForceSigns | archive/f1_simulator_day3.py:227-243 | only accelerating can push forward |
| Day3.StepAt | archive/f1_simulator_day3.py:205-261 | the step's speed is non-negative, the Euler value or 0 |
| Day3.StepBrakingSlows | archive/f1_simulator_day3.py:227-259 | braking and coasting never speed up a physical car |
| Day3.Row | archive/f1_simulator_day3.py:264-278 | the logged fuel is non-negative, the logged mass at least empty, a 0/1 DRS flag |
| Day3.LogRow | archive/f1_simulator_day3.py:264-278 | appending the row of a multiple of 10 keeps row k the sample of step 10 (k + 1) |
| Day3.Advance | archive/f1_simulator_day3.py:246-278 | the loop body; the fuel logged is never more than the step's mass carried |
| Day3.MaybeLog | archive/f1_simulator_day3.py:264-278 | a row is appended exactly when n % 10 == 0 |
| Day3.Next | archive/f1_simulator_day3.py:204-261 | one pass of the run on the segment at the current distance: speed non-negative, distance non-decreasing for dt >= 0 |
| Day3.Tick | archive/f1_simulator_day3.py:204-278 | the new speed and distance are Next of the old; the row of that pass is appended exactly when n % 10 == 0; v >= 0, time = n dt |
| Day3.Pass | archive/f1_simulator_day3.py:204-278 | a pass from the last state of the run extends the run by one state and its samples by the row logged |
| Day3.SimulateLap | archive/f1_simulator_day3.py:185-281 | the states passed are the run from rest under Next; steps is the first n whose distance reaches the lap length, or the cap of 100000; lap time = steps dt; row k is the row of pass 10 (k + 1) of the run, sane with fuel >= 0 |
| Portfolio.GetCurrentMass | archive/gptf1_track.py:31-33 | never below the empty mass |
| Portfolio.FuelBurned | archive/gptf1_track.py:32 | 1.8 kg per km |
| Portfolio.CurrentMassNonIncreasing | archive/gptf1_track.py:31-33 | the mass never grows with distance |
| Portfolio.AeroForces | archive/gptf1_track.py:38-42 | front and rear downforce sum to the downforce |
| Portfolio.AeroSplit | archive/gptf1_track.py:38-42 | DRS changes only drag; the default car splits downforce 45/55 |
| Portfolio.DragShape | archive/gptf1_track.py:40 | drag is its coefficient times 1/2 rho A v^2 |
| Portfolio.PressurePositive | archive/gptf1_track.py:40-41 | 1/2 rho A v^2 is positive when moving |
| Portfolio.DefaultDrsLowersDrag | archive/gptf1_track.py:18-19 | DRS lowers drag (0.68 to 0.52) when moving |
| Portfolio.TireMu | archive/gptf1_track.py:44-46 | within [1.2, 2.0] for a non-negative load |
| Portfolio.TireMuNonIncreasing | archive/gptf1_track.py:44-46 | more load never gives a larger mu |
| Portfolio.TireMuFloor | archive/gptf1_track.py:46 | the floor is reached at 16000/3 kN |
| Portfolio.TireLimit | archive/gptf1_track.py:175-177 | mu Fz is non-negative for a non-negative load |
| Portfolio.CornerSpeedReal | archive/gptf1_track.py:48-53 | on a loaded car a radius >= 0 gives a real speed; a negative radius, which the source does not pass through abs, gives a negative square (NaN from `np.sqrt`) |
| Portfolio.TargetFiniteExactly | archive/gptf1_track.py:158-164 | a finite target is exactly a non-aero-limited corner with a non-negative square |
| Portfolio.Denominator | archive/gptf1_track.py:169 | at least 10 |
| Portfolio.Controller | archive/gptf1_track.py:164-171 | throttle and brake within [0, 1]; an infinite target gives full throttle and no brake |
| Portfolio.ControllerFollowsError | archive/gptf1_track.py:164-171 | below the target only throttle, above it only brake, never both |
| Portfolio.EngineForce | archive/gptf1_track.py:173-176 | at most max_power / max(v, 5) and the rear tire limit |
| Portfolio.BrakeForce | archive/gptf1_track.py:177 | at most the whole car's tire limit |
| Portfolio.Fraction | archive/gptf1_track.py:177 | a fraction of x lies within [0, x] |
| Portfolio.FullThrottleOffCorners | archive/gptf1_track.py:158-166 | on a straight or an aero-limited segment the target is infinite and the driver is flat out: throttle 1, brake 0 |
| Portfolio.Move | archive/gptf1_track.py:180-182 | v >= 0, d never decreases, t advances by dt |
| Portfolio.StepAt | archive/gptf1_track.py:153-182 | one pass keeps v >= 0, d non-decreasing, t + dt |
| Portfolio.AccelerationOffThrottle | archive/gptf1_track.py:179 | off the throttle the acceleration is never positive |
| Portfolio.OffThrottleSlows | archive/gptf1_track.py:179-180 | off the throttle a physical car never speeds up |
| Portfolio.SimulateAsWritten | archive/gptf1_track.py:148-186 | as written: a lap of no length returns an empty table at time 0; any other raises TypeError once exactly one row is appended, the row of the first pass from rest (time dt) |
| Portfolio.AsWrittenFailsOnEveryTrack | archive/gptf1_track.py:184 | every track with a segment of positive length makes it fail |
| Portfolio.Next | archive/gptf1_track.py:152-182 | one pass from a state: v >= 0, t advances by dt, d non-decreasing for dt >= 0 |
| Portfolio.StepRow | archive/gptf1_track.py:184 | the row a pass appends carries the track name, the new time t + dt and a non-negative speed |
| Portfolio.Tick | archive/gptf1_track.py:152-184 | the new state is Next of the old, and the row of that pass is appended |
| Portfolio.Simulate | archive/gptf1_track.py:148-186 | the corrected loop: the states passed are the run from rest under Next; it stops at the first state whose distance reaches the lap length, or at the step bound; row k is the row of pass k + 1, the first the very row the loop as written appends before failing; time = rows dt |
| TireDegradation.LookupCompound | src/tire_degradation.py:45-101 | a compound exactly for C1 to C5, each well formed with its own code |
| TireDegradation.SofterCompoundsTradeLifeForGrip | src/tire_degradation.py:45-101 | from C1 to C5: more grip, faster wear, earlier cliff, cooler window, faster heating |
| TireDegradation.CompoundCode | src/tire_degradation.py:45-101 | the code of compound i is a table key |
| TireDegradation.Abrasiveness | src/tire_degradation.py:105-141 | the table's value for a listed track, 1.0 for any other |
| TireDegradation.FreshIsValid | src/tire_degradation.py:144-149 | a new set is in range |
| TireDegradation.TemperatureEffectBounds | src/tire_degradation.py:187-203 | within [0.7, 1], exactly 1 inside the window, at least 0.75 when hot |
| TireDegradation.TemperatureEffectTowardsWindow | src/tire_degradation.py:193-203 | moving towards the window never costs grip |
| TireDegradation.WearEffectShape | src/tire_degradation.py:205-218 | 1 - 0.15 wear below the cliff; past it at least 0.3 and at most 0.5 below its threshold value |
| TireDegradation.CliffProgressBounds | src/tire_degradation.py:216 | the cliff progress lies within [0, 1] for wear up to 1 |
| TireDegradation.WearEffectNonIncreasing | src/tire_degradation.py:205-218 | the wear effect never rises with wear |
| TireDegradation.WearEffectContinuousAtCliff | src/tire_degradation.py:212-215 | no jump at the threshold |
| TireDegradation.ScaledByFactors | src/tire_degradation.py:183 | a positive base times four factors in (0, 1] stays in (0, base] |
| TireDegradation.ScaledMonotoneInWear | src/tire_degradation.py:183 | a smaller wear factor gives no more |
| TireDegradation.GripBounds | src/tire_degradation.py:160-185 | a tire in range grips positively and never above the compound's peak |
| TireDegradation.GripAtPeak | src/tire_degradation.py:160-185 | an undamaged new tire in its window gives exactly the peak grip |
| TireDegradation.GripNonIncreasingInWear | src/tire_degradation.py:160-185 | more wear never gives more grip |
| TireDegradation.LapTimeDelta | src/tire_degradation.py:280-293 | 0 at grip 1; never negative for grip <= 1 and a non-negative base |
| TireDegradation.LapTimeDeltaMonotone | src/tire_degradation.py:290-293 | less grip never makes the lap faster; grip below 1 is slower than the base |
| TireDegradation.BaseWearPerLap | src/tire_degradation.py:235 | positive for a well-formed compound on a positive abrasiveness |
| TireDegradation.RemainingLife | src/tire_degradation.py:295-313 | 0 once past the cliff, otherwise non-negative |
| TireDegradation.RemainingLifeFitsBeforeCliff | src/tire_degradation.py:302-313 | n laps at the average rate fit before the cliff and n + 1 do not |
| TireDegradation.HeatTarget | src/tire_degradation.py:269 | at least 60 degrees for non-negative heat |
| TireDegradation.HeatGeneration | src/tire_degradation.py:266 | non-negative for non-negative speed and severity |
| TireDegradation.TemperatureStepBetween | src/tire_degradation.py:263-278 | each new temperature lies within the range of the old one, the target and the 25 degree ambient |
| TireDegradation.WearIncrement | src/tire_degradation.py:235-236 | non-negative for a non-negative severity |
| TireDegradation.ThermalIncrement | src/tire_degradation.py:243-245 | for an overheated tire: non-negative, and positive when the compound degrades thermally |
| TireDegradation.AfterLap | src/tire_degradation.py:220-254 | compound and track kept, the lap counter grows by one; wear ends at most 1, and thermal and flat-spot damage end at most 1 unless left as they were |
| TireDegradation.LapNeverRepairs | src/tire_degradation.py:235-251 | wear, thermal and flat-spot damage never decrease; thermal damage changes only when overheated, flat spots only with lock-ups, by 0.15 each |
| TireDegradation.LapKeepsValid | src/tire_degradation.py:220-254 | a lap keeps the state in range |
| TireDegradation.Worn | src/tire_degradation.py:220-254 | k laps from new count k laps |
| TireDegradation.WornIsValid | src/tire_degradation.py:220-254 | any number of laps keeps the tire in range, its wear only growing |
| TireDegradation.TireDegradationModel.constructor | src/tire_degradation.py:140-158 | a new model is a fresh set with empty history |
| TireDegradation.TireDegradationModel.Create | src/tire_degradation.py:129-141 | a ValueError exactly for an unknown code; otherwise a fresh model of that compound on the track's abrasiveness |
| TireDegradation.TireDegradationModel.UpdateTemperature | src/tire_degradation.py:263-278 | only the two temperatures change, to TemperatureStep of the old ones |
| TireDegradation.TireDegradationModel.RecordHistory | src/tire_degradation.py:257-261 | each history list gains the entry of the lap just counted |
| TireDegradation.TireDegradationModel.SimulateLap | src/tire_degradation.py:220-261 | the state becomes AfterLap of the old state, each history gains one entry, every history length equals laps_completed |
| TireDegradation.EffectiveMu | src/tire_degradation.py:333-337 | within [0, mu peak grip] for a tire in range |
| TireDegradation.DegradingF1Vehicle.Create | src/tire_degradation.py:322-331 | a ValueError exactly for an unknown compound; otherwise the default car on a fresh set |
| TireDegradation.DegradingF1Vehicle.Init | src/tire_degradation.py:330-331 | the default car with the given tire model |
| TireDegradation.DegradingF1Vehicle.SimulateLapWithDegradation | src/tire_degradation.py:339-360 | reports the grip before the lap, then wears the tire by one lap at severity 1 |
| RaceStrategy.PitsUpToCounts | src/race_strategy.py:113 | the stops taken on laps 1..n are the distinct pit laps among them |
| RaceStrategy.PitsUpToAtMost | src/race_strategy.py:113-121 | no more stops than pit laps listed, so the stint index stays within the compound list |
| RaceStrategy.PitTimeIsCount | src/race_strategy.py:113-115 | the pit loss paid over laps 1..n is pit_loss times the pit laps among them |
| RaceStrategy.PitsUpToMonotone | src/race_strategy.py:113-116 | stops only accumulate |
| RaceStrategy.PitStop | src/race_strategy.py:113-122 | on a listed lap it pays the pit loss, moves to the next compound and fits a new set; an unknown compound fails |
| RaceStrategy.RunLap | src/race_strategy.py:128-151 | the lap's time from grip and fuel is recorded in all five lists, then the tire ages a lap |
| RaceStrategy.Lap | src/race_strategy.py:111-151 | one pass of the loop |
| RaceStrategy.RunFrom | src/race_strategy.py:111-151 | the loop from a state to the end of the race |
| RaceStrategy.StartAccounted | src/race_strategy.py:90-104 | the initial state satisfies the loop invariant |
| RaceStrategy.PitStopPrepares | src/race_strategy.py:113-122 | the pit block takes the stop the lap calls for |
| RaceStrategy.RecordKeeps | src/race_strategy.py:138-142 | appending a lap keeps earlier laps' records |
| RaceStrategy.RunLapRecords | src/race_strategy.py:128-142 | running the lap adds its record |
| RaceStrategy.RunLapStint | src/race_strategy.py:137-151 | running the lap keeps the stint and adds the lap time to the total |
| RaceStrategy.RunLapAccounts | src/race_strategy.py:128-151 | running the lap restores the invariant |
| RaceStrategy.LapAccounts | src/race_strategy.py:111-151 | one pass keeps the invariant |
| RaceStrategy.RunFromAccounts | src/race_strategy.py:111-151 | the whole loop keeps the invariant |
| RaceStrategy.PitStopOutcome | src/race_strategy.py:113-122 | a stop fails only on an unknown compound |
| RaceStrategy.RunFromOutcome | src/race_strategy.py:111-151 | the loop fails exactly when it reaches an unknown compound |
| RaceStrategy.FinalState | src/race_strategy.py:111-163 | a finished race has every lap recorded and every stop paid for |
| RaceStrategy.RaceOutcome | src/race_strategy.py:86-151 | the race fails exactly on a count mismatch or an unknown compound reached within the race; never on the compound index |
| RaceStrategy.RunFromErrors | src/race_strategy.py:113-121 | the loop never indexes past the compound list |
| RaceStrategy.RecordsTimes | src/race_strategy.py:137-139 | each cumulative time is the lap times so far plus the pit losses so far |
| RaceStrategy.RaceTotals | src/race_strategy.py:96-163 | every list has total_laps entries; total = sum of lap times + pit_loss per pit lap within the race; last cumulative = total |
| RaceStrategy.RecordsStints | src/race_strategy.py:113-151 | each lap's compound and age, as recorded |
| RaceStrategy.RaceStints | src/race_strategy.py:113-151 | each lap runs the compound reached after its stops; age is 1 on the first lap and on a pit lap, else one more than the lap before |
| RaceStrategy.RecordsLapTimes | src/race_strategy.py:128-134 | each lap time and grip, as recorded |
| RaceStrategy.RaceLapTimes | src/race_strategy.py:128-134 | lap time = base + tire delta at the lap's grip - fuel_effect per lap to go; the grip is that of the stint's tire at its age |
| RaceStrategy.LastLapHasNoFuelBenefit | src/race_strategy.py:133-134 | the final lap's time is the base plus the tire delta |
| RaceStrategy.StintTireAges | src/race_strategy.py:122-148 | a stint starts on a new set and each lap ages it by one |
| RaceStrategy.RunAll | src/race_strategy.py:183-185 | the results of the strategies in order, or the first failure |
| RaceStrategy.RunAllSucceeds | src/race_strategy.py:183-185 | it succeeds exactly when every race runs, each giving its own result |
| RaceStrategy.RunAllFailsFirst | src/race_strategy.py:183-185 | a failure is the first failing strategy's error |
| RaceStrategy.RunAllStops | src/race_strategy.py:183-185 | a failing prefix fails the whole comparison |
| RaceStrategy.InsertPermutes | src/race_strategy.py:194 | insertion is a permutation |
| RaceStrategy.InsertAtLeast | src/race_strategy.py:194 | insertion keeps a lower bound on the times |
| RaceStrategy.InsertSorted | src/race_strategy.py:194 | insertion keeps the list sorted by time |
| RaceStrategy.SortPermutes | src/race_strategy.py:194 | the sort is a permutation of the results |
| RaceStrategy.SortSorts | src/race_strategy.py:194 | the sort puts the fastest first |
| RaceStrategy.WithTimeAppend | src/race_strategy.py:194 | the results of one time in an appended list |
| RaceStrategy.WithTimeNone | src/race_strategy.py:194 | a time no result has selects nothing |
| RaceStrategy.InsertStable | src/race_strategy.py:194 | insertion keeps equal-time results in order |
| RaceStrategy.SortStable | src/race_strategy.py:194 | the sort is stable, as Python's is |
| RaceStrategy.RankingSorts | src/race_strategy.py:165-203 | a ranking exists exactly when every race runs; it holds each result once, fastest first, ties in the given order |
| RaceStrategy.BestOfSucceeds | src/race_strategy.py:229-240 | the search ends with a result exactly when every race in range runs, and has one exactly for a non-empty range |
| RaceStrategy.BestIsFirstFastest | src/race_strategy.py:237-240 | the best is the first pit lap with the least total time |
| RaceStrategy.BestOfStep | src/race_strategy.py:237-240 | a lap's result replaces the best only when strictly faster |
| RaceStrategy.BestOfStops | src/race_strategy.py:229-235 | a failing prefix fails the search |
| RaceStrategy.SearchSucceeds | src/race_strategy.py:218-245 | a strategy is found exactly for a non-empty range where every race runs; an empty range fails |
| RaceStrategy.SearchFailsFirst | src/race_strategy.py:229-235 | a failure is the first failing lap's |
| RaceStrategy.SearchFindsFirstFastest | src/race_strategy.py:218-245 | it returns the first fastest pit lap's result and the strategy it names |
| RaceStrategy.RaceNamesStrategy | src/race_strategy.py:153-154 | a race result names the strategy it ran |
| RaceStrategy.RaceLap | src/race_strategy.py:113-151 | one pass on the stateful tire model computes Lap, keeping the model the stint's tire |
| RaceStrategy.SimulateStrategy | src/race_strategy.py:75-163 | the loop with a stateful tire model computes exactly Race |
| RaceStrategy.CompareStrategies | src/race_strategy.py:165-203 | computes exactly the ranking of the races |
| RaceStrategy.ConsiderLap | src/race_strategy.py:230-240 | one search step computes BestOf over one more lap |
| RaceStrategy.SearchLaps | src/race_strategy.py:229-240 | the loop computes BestOf over the range |
| RaceStrategy.FindOptimal1Stop | src/race_strategy.py:205-245 | computes the search result over the given range or the default (total // 3, 2 total // 3) |
| Api.ApplyParams | archive/api/main.py:94-113 | sets the power (hp times 746), the mass, the lift coefficients, mu_peak and Cd as scaled percentages; no other field changes |
| Api.DefaultsGiveDefaultVehicle | archive/api/main.py:226-235 | the /defaults values give back the default car |
| Api.ParamsArePercentages | archive/api/main.py:103-111 | each coefficient is its default times the percentage / 100 |
| Api.LastParamsWin | archive/api/main.py:94-113 | applying parameters twice is applying the second set |
| Api.ParamsKeepGeometry | archive/api/main.py:94-113 | geometry and air are untouched |
| Api.CircuitNamed | archive/api/main.py:121-125 | the table's lookup |
| Api.CircuitKeysInverse | archive/api/main.py:121-125 | each circuit's key looks it up, and a key found is that circuit's |
| Api.Lower | archive/api/main.py:127 | pointwise ASCII lower case, same length |
| Api.LowerIdempotent | archive/api/main.py:127 | lower-casing twice is lower-casing once |
| Api.TrackId | archive/api/main.py:116-130 | a circuit exactly when the lower-cased name is silverstone, monaco or spa, and then the circuit with that key; a 400 "Unknown track: name" otherwise |
| Api.TrackIdIgnoresCase | archive/api/main.py:127-130 | a circuit is found exactly when the lower-cased name is its key; case does not change the answer |
| Api.GetTrack | archive/api/main.py:116-130 | the track built for a known name carries that circuit's title and layout: Silverstone 19 segments summing to 5171 m, Monaco 14 to 2537 m, Spa 15 to 4124 m; an unknown name is the 400 |
| Api.AsServerError | archive/api/main.py:294-295 | always a 500; for a 400 its detail is "400: " followed by the 400's detail |
| Api.SimulateTrackStep | archive/api/main.py:257-295 | succeeds exactly when get_track does, with its circuit; every failure is a 500, never the 400 |
| Api.UnknownTrackIsServerError | archive/api/main.py:257-295 | an unknown name gives 500 with detail "400: Unknown track: name" |
| Api.Samples | archive/api/main.py:139-141 | the rows within [start, end), in order |
| Api.SamplesMembers | archive/api/main.py:139-141 | a row is kept exactly when its distance lies within the segment |
| Api.SamplesAppend | archive/api/main.py:139-141 | filtering distributes over concatenation |
| Api.SeqMax | archive/api/main.py:156 | the maximum is a member and bounds every element |
| Api.SeqMin | archive/api/main.py:157 | the minimum is a member and bounds every element |
| Api.Analysis | archive/api/main.py:136-158 | one result per segment with samples, in track order |
| Api.AnalysisAppend | archive/api/main.py:136-158 | the analysis of a concatenation is the concatenation; a segment without samples gives nothing |
| Api.SamplesTimeOrdered | archive/api/main.py:139-141 | filtering time-ordered rows keeps them time-ordered |
| Api.SummarySane | archive/api/main.py:143-157 | sim_time is last minus first (0 for one sample) and non-negative; min <= avg <= max |
| Api.AnalysisSane | archive/api/main.py:136-158 | every result of time-ordered telemetry is sane |
| Api.TelemetryTimeOrdered | src/f1_realtrack_tiremodel.py:264-275 | the lap's telemetry is time-ordered for dt >= 0 |
| Api.AnalyzeSegments | archive/api/main.py:133-160 | the loop computes exactly Analysis |
| Api.Summarize | archive/api/main.py:143-158 | one segment's result is Summary |
| Api.AnalysisStep | archive/api/main.py:136-158 | one more segment extends the analysis by its result, if any |
| Api.SampleRate | archive/api/main.py:270 | max(1, n // 200) is at least 1 |
| Api.EveryNthLength | archive/api/main.py:271 | iloc[::s] keeps ceil(n / s) rows |
| Api.EveryNthIndex | archive/api/main.py:271 | kept row k is row k s |
| Api.EveryNthKeeps | archive/api/main.py:271 | the kept rows are rows 0, s, 2s, ... and only those |
| Api.DownsampledSize | archive/api/main.py:270-271 | fewer than 400 rows are sent, and a telemetry of under 400 rows is sent whole |

## Left out

- Plotting, printing, report text and CSV output are left out. They only produce output. This covers `plot_*`, `create_validation_report`, `to_csv`, the `main()` functions and generate_animation.py. The 5 % and 10 % verdicts of `validate_against_real_f1` only change printed text.
- `tune_parameters`, `optimize_setup` and `compare_configurations` are left out. They are search drivers that re-run the modelled lap with patched parameters.
- Square roots are avoided: corner speed limits are compared squared. `log10` in `_tire_mu_vs_normal` is a function parameter, so only its clamp is proved. `hypot` in the combined tire force is a parameter with its defining equation as a precondition. The Pacejka `sin`/`atan` force (`calculate_tire_force`) is not modelled; the friction-circle step takes `fx` and `fy` as inputs.
- Floating point is not modelled. All quantities are exact reals, so IEEE rounding, overflow to inf and NaN propagation are left out; only `np.inf` radii and the NaN of a negative square root are represented. Nothing bounds the Euler integration error or predicts lap times.
- The `create_*` segment tables are data only. For each built-in circuit the segment count, the sum of the segment lengths, the declared length and the record are stated; the individual segments are not restated as properties.
- BaseLap.SimulateLap, BaseLap.Tick and BaseLap.Pass require `NoZeroRadius`: on a corner of radius 0 the source divides by zero (ZeroDivisionError at src/f1_simulation.py:404). That exception path is not modelled.
- ThermalLap.SimulateLapEnhanced, ThermalLap.Tick and ThermalLap.Pass require `NoZeroRadius`: on a corner of radius 0 the source divides by zero (ZeroDivisionError at src/f1_simulation_advance.py:331). That exception path is not modelled.
- Day3.SimulateLap, Day3.Tick and Day3.Pass require `NoZeroRadius`: on a corner of radius 0 the source divides by zero (ZeroDivisionError at archive/f1_simulator_day3.py:254). That exception path is not modelled.
- Default arguments are not represented; every model function takes all its arguments. This covers compound1='C4' and compound2='C2' of `find_optimal_1stop` (src/race_strategy.py:205), track_name='Silverstone' of `TireDegradationModel` (src/tire_degradation.py:129) and compound='C3' and track_name='Silverstone' of `DegradingF1Vehicle` (src/tire_degradation.py:322).
- The HTTP layer is left out: the routes, CORS, static files, the server, the `/tracks` metadata, and the pydantic request and response models. This includes explicit JSON `null` vehicle parameters, whose `Optional` fields would then be `None`.
- Api.SimulateTrackStep: `run_simulation` is modelled only up to the track lookup and its `except`. Its later steps are modelled separately: the lap, the validation, the segment analysis and the downsampling. Assembling the response is not modelled.
- Api.AsServerError: `str(HTTPException)` is taken to be "<status>: <detail>", which is how the web framework renders it. The framework is not part of this model.
- Api.Lower: lower-casing is ASCII only. Any non-ASCII character that Python would lower-case into a circuit key's letters would be missed. No such character maps onto the letters of silverstone, monaco or spa.
- Api.ApplyParams: the car is a value, so the in-place update of the caller's car object and its aliasing are not modelled.
- RealTracks.SimulateRealTrack: the `get_engine_force` that the lap calls does not exist. The corrected lap takes the engine force as a parameter, and only its cap at `max_torque_force` is used.
- Portfolio.Simulate: the source loop has no iteration cap. The corrected loop is bounded by a `maxSteps` parameter, and its guarantee is stated up to that bound.
- RaceStrategy.CompareStrategies: `results.sort` sorts in place. The model computes the same stable order as a new list.
- RaceStrategy.SimulateStrategy: the loop's five counters and lists are held together in one `RaceState` value. `verbose` printing and the `PitStop` record are left out. `avg_lap_time` (`np.mean`) is `None` for a race of no laps, where numpy gives NaN.
- TireDegradation.TireDegradationModel.GripMultiplier, GetLapTimeDelta and GetRemainingLife read the state through the pure functions Grip, LapTimeDelta and RemainingLife. Their properties are stated about those functions.

## Findings

| source | as written | input that shows it | evidently intended | confidence | as-written member | corrected member |
|---|---|---|---|---|---|---|
| src/f1_real_tracks.py:295 | the accelerating branch calls `vehicle.get_engine_force`, which `F1Vehicle` does not define, so it raises AttributeError | any lap: the car starts at rest and so accelerates on its first step, e.g. the default car at Silverstone's Abbey | an engine force from a gear and torque model, capped at `max_torque_force` | not executed | RealTracks.AsWrittenFirstStepFails | RealTracks.SimulateRealTrack |
| archive/gptf1_track.py:184 | `rows.append(...)(...)` calls the `None` that `append` returns, so the first pass raises TypeError | any track with a segment of positive length, e.g. the built-in Spa, Monaco and Silverstone | append the row once | not executed | Portfolio.AsWrittenFailsOnEveryTrack | Portfolio.Simulate |
