# Wire rope simulator and scene gates, modelled in Dafny

This project models the behaviour scripts of an interactive 3D scene.

- **The wire (`Wire.cs`).** A rope between two anchor transforms, drawn as a polyline by a line renderer. The rope's shape is a rational quadratic Bézier curve. Its middle control point is:
  - placed by a sag rule (a bell-shaped activation times a geometric bound, capped by `maxCurveHeight`);
  - tracked by a spring-damper step that snaps to rest.

  A length constraint pulls the anchors back to `maxWireLength` apart, as far as the two snap flags allow. Change detection compares a snapshot of the anchors and settings with the one recorded on the previous `Update`, and raises `OnPointsChanged`.
- **`InteractionGate.cs`.** A counter with a latch that opens at `requiredCount`, plus an optional auto-reset.
- **`TriggerSensor.cs`.** A one-shot hit counter filtered by tag.
- **`TimedGameObjectActivator.cs`.** A timeline of time windows. Its length is the latest end time. Each frame, every target is switched on exactly while the elapsed time lies in its window. At the end everything is switched off.

Modules and files:

- `wrappers.dfy` (`Wrappers`): `Option` and `Result`.
- `integers.dfy` (`Integers`): the integer `Max` and `Min` shared by the gate and the sensor.
- `vectors.dfy` (`Vectors`): Unity's `Vector3` and `Mathf` operations over `real`.
  - `Mathf.Sqrt` is a function parameter `sqrt` constrained by `IsSqrt`: it returns the non-negative square root of every non-negative real.
  - `Vector3.Lerp` clamps its parameter, and so does the model.
- `wire_geometry.dfy` (`WireGeometry`): the pure computations of `Wire.cs` and their lemmas:
  - the Bézier formula and its sampling;
  - the sag midpoint;
  - the length constraint on an anchor pair;
  - the spring step.
- `wire.dfy` (`WireSimulator`): the `Wire` component as a class.
  - Anchors are `Option<Vec3>` fields; `None` is an unassigned transform.
  - The renderer is the `seq<Vec3>` field `positions`.
  - The `prev*` fields are grouped into one `Snapshot` value.
  - `OnPointsChanged` is the counter `pointsChangedEvents`.
  - `Time.fixedDeltaTime` and `Application.isPlaying` are parameters (`dt > 0`, `isPlaying`).
- `interaction_gate.dfy` (`InteractionGates`), `trigger_sensor.dfy` (`TriggerSensors`), `timed_activator.dfy` (`TimedActivation`):
  - each state machine is a set of functions over a state datatype (one step per call, and a `Run` over a sequence of calls);
  - lemmas are proved about those functions;
  - a class whose methods are proved to follow it.
  - Unity events are counters.

Behaviour of the code that is easy to misread:

- **The spring is not driven every physics tick.** The call in `FixedUpdate` is commented out (Wire.cs:335-338). `SetSplinePoint` overwrites `currentValue` and `targetValue` with the fresh midpoint on every call (Wire.cs:181-183). So the spring step runs only in edit mode: from `OnValidate`, and from `Update` when a change is detected (`Wire.Update`, `Wire.FixedUpdate`).
- **The sag bound uses `maxWireLength`, not `ropeLength`** (Wire.cs:217).
- **The length bound after enforcement** is `Max(maxWireLength, Epsilon)` (`EnforcedAnchorsWithinLength`): anchors closer than 0.0001 are never corrected.
- **`GetPointAt` with a missing anchor** logs an error and returns the zero vector (Wire.cs:317-321).

## Model

| member | source | states |
|---|---|---|
| WireGeometry.RationalBezierPoint | Wire.cs:300-313 | the weighted rational quadratic Bézier sample, coordinate by coordinate; its end points, positive denominator and bounding box are proved in `BezierAtStart`, `BezierAtEnd`, `BezierDenominatorPositive` and `BezierInBoundingBox` |
| WireGeometry.BezierAtStart | Wire.cs:300-313 | for any nonzero `w0`, the denominator at t = 0 is `w0` and the sample is exactly `p0` |
| WireGeometry.BezierAtEnd | Wire.cs:300-313 | for any nonzero `w2`, the denominator at t = 1 is `w2` and the sample is exactly `p2` |
| WireGeometry.BezierDenominatorPositive | Wire.cs:308 | for t in [0,1], `w0`, `w2` > 0 and `w1` >= 0, the denominator is strictly positive |
| WireGeometry.BernsteinNonNegative | Wire.cs:308 | the three weighted basis terms of the denominator are non-negative on [0,1] |
| WireGeometry.BezierInBoundingBox | Wire.cs:303-310 | on [0,1] with positive end weights the sample is defined, and each coordinate lies between the min and max of that coordinate over p0, p1, p2 |
| WireGeometry.CoordinateInRange | Wire.cs:310 | one coordinate of the sample lies between the min and max of the control coordinates |
| WireGeometry.Activation | Wire.cs:230 | `4t(1-t)` is at most 1, non-negative on [0,1], zero at 0 and 1, and 1 at t = 0.5 |
| WireGeometry.GeometricMaxSag | Wire.cs:233-238 | the geometric sag is non-negative; for 0 <= X <= L it forms a right triangle with the half-distance and the half-length, and beyond L it is 0 |
| WireGeometry.SagHeight | Wire.cs:227-242 | the sag height never exceeds `maxCurveHeight`, and it is non-negative when `maxCurveHeight` is |
| WireGeometry.SafeCurveDirection | Wire.cs:222-224 | a direction with squared length below 0.0001 gives the zero vector, and any other gives a unit vector |
| WireGeometry.MidPoint | Wire.cs:208-246 | the lerp of the anchors at `midPointPosition`, lifted along the safe curve direction by the sag height; its cases and bounds are proved in the `MidPoint*` lemmas below |
| WireGeometry.MidPointWithoutSag | Wire.cs:214-224 | at distance <= 0.0001, at distance >= `maxWireLength`, or with a near-zero curve direction, the midpoint is the plain lerp of the anchors |
| WireGeometry.MidPointOffsetAlongCurveDirection | Wire.cs:208-246 | the midpoint is the lerp plus the safe curve direction scaled by some height in [0, `maxCurveHeight`] |
| WireGeometry.MidPointHeight | Wire.cs:216-242 | the added height lies in [0, `maxCurveHeight`] when `maxCurveHeight` >= 0 |
| WireGeometry.MidPointIsLifted | Wire.cs:208-246 | the midpoint is the lerp plus the safe curve direction times `MidPointHeight` |
| WireGeometry.MidPointOffsetBounded | Wire.cs:240-244 | the midpoint is at most `maxCurveHeight` away from the lerp point |
| WireGeometry.MidPointSwapAnchors | Wire.cs:210-244 | swapping the anchors and mirroring `midPointPosition` gives the same midpoint, so the sag depends only on the anchor distance |
| WireGeometry.EnforcedAnchors | Wire.cs:249-294 | no correction leaves the pair unchanged; a snapped anchor never moves; two free anchors move by opposite equal amounts |
| WireGeometry.EnforcedAnchorsDelta | Wire.cs:263-293 | when corrected, the new start-to-end vector is the old one scaled by `maxWireLength / distance`, so it keeps the start-to-end direction |
| WireGeometry.EnforcedAnchorsRestoreLength | Wire.cs:274-293 | when a correction applies, the new anchor distance equals `maxWireLength` |
| WireGeometry.EnforcedAnchorsMoveIffOverLength | Wire.cs:260-273 | the anchors are left unchanged if and only if the distance is <= `maxWireLength`, or < 0.0001, or both anchors are snapped |
| WireGeometry.EnforcedAnchorsWithinLength | Wire.cs:260-293 | unless both anchors are snapped, the distance afterwards is at most the larger of `maxWireLength` and 0.0001 |
| WireGeometry.DampingFactor | Wire.cs:346 | the damping factor is non-negative and at most 1 for non-negative inputs, and it is zero exactly when `damping * dt >= 1` |
| WireGeometry.SpringStep | Wire.cs:344-356 | the damped spring step with the snap to rest below both thresholds; proved about in `SpringStepSnapsToRest` and `SpringRestIsFixedPoint` |
| WireGeometry.SpringStepSnapsToRest | Wire.cs:351-355 | a step never ends strictly inside both thresholds: it ends exactly on the target with zero velocity, or at least 0.01 from the target, or at least 0.01 fast |
| WireGeometry.SpringRestIsFixedPoint | Wire.cs:346-355 | at rest on the target, with no other physics contribution, a step changes nothing |
| WireGeometry.SamplePoint | Wire.cs:188 | the sample with weights (1, w, 1) lies in the control points' bounding box, and is the start at t = 0 and the end at t = 1 |
| WireGeometry.ParamAt | Wire.cs:193 | `i / linePoints` lies in [0,1), and is 0 for i = 0 |
| WireGeometry.SplinePoints | Wire.cs:191-197 | exactly `linePoints + 1` points; the last is exactly the end anchor; the first is the start anchor when `linePoints > 0`; every point lies in the bounding box |
| WireSimulator.Wire.constructor | Wire.cs:26-68 | the inspector defaults, an empty renderer, zero simulation state and `isFirstFrame` |
| WireSimulator.Wire.GetMidPoint | Wire.cs:208-246 | the sag midpoint of the current anchors and settings |
| WireSimulator.Wire.GetPointAt | Wire.cs:315-324 | an error exactly when an anchor is missing; otherwise a point in the bounding box of start, `currentValue` and end for t in [0,1]; exactly the start at t = 0 and the end at t = 1 |
| WireSimulator.Wire.AreEndPointsValid | Wire.cs:169-172 | both anchors are assigned; every method's contract is split on it |
| WireSimulator.Wire.IsPointsMoved | Wire.cs:430-435 | an anchor differs from its recorded position; see `ChangeDetectedIffSnapshotDiffers` |
| WireSimulator.Wire.IsRopeSettingsChanged | Wire.cs:437-454 | a rope setting differs from its recorded value; see `ChangeDetectedIffSnapshotDiffers` |
| WireSimulator.Wire.ChangeDetectedIffSnapshotDiffers | Wire.cs:430-454 | `IsPointsMoved()` or `IsRopeSettingsChanged()` holds exactly when the current snapshot differs from the recorded one |
| WireSimulator.Wire.NotifyPointsChanged | Wire.cs:425-428 | exactly one more `OnPointsChanged` |
| WireSimulator.Wire.SetSplinePoint | Wire.cs:174-198 | `currentValue` and `targetValue` become the fresh midpoint; `CurveDrawn`: the renderer holds the sampled curve, and a present midpoint object is moved to the sample at `midPointPosition` (an absent one stays absent) |
| WireSimulator.Wire.EnforceMaxLength | Wire.cs:249-294 | with an anchor missing nothing changes; otherwise the anchors become `EnforcedAnchors` of the old ones |
| WireSimulator.Wire.SimulatePhysics | Wire.cs:344-356 | the new value and velocity are one `SpringStep` from the old ones |
| WireSimulator.Wire.RecalculateRope | Wire.cs:411-423 | with an anchor missing the renderer is emptied and the simulation and midpoint object are untouched; otherwise the rope is at rest on the fresh midpoint with zero velocity, and `CurveDrawn` holds (curve and midpoint object) |
| WireSimulator.Wire.Start | Wire.cs:92-102 | with both anchors present, the rope starts at rest on the midpoint and `CurveDrawn` holds (curve and midpoint object); otherwise nothing changes |
| WireSimulator.Wire.OnValidate | Wire.cs:103-118 | in play mode nothing changes; in edit mode with an anchor missing the renderer is emptied and nothing else changes; otherwise `CurveDrawn` holds and the simulation is one spring step from rest on the target |
| WireSimulator.Wire.Update | Wire.cs:131-159 | with both anchors present: `CurveDrawn` holds, a detected change in edit mode takes one spring step and one notification, otherwise neither, and the current snapshot is recorded; with an anchor missing nothing changes |
| WireSimulator.Wire.Redraw | Wire.cs:138-158 | the body of `Update` with both anchors present: `CurveDrawn`, the snapshot recorded, and a spring step plus one notification exactly when a change was detected |
| WireSimulator.Wire.StepAndRecord | Wire.cs:142-157 | a detected change takes one spring step and one notification, otherwise value, velocity and events are kept; the snapshot is recorded |
| WireSimulator.Wire.LateUpdate | Wire.cs:160-167 | the anchors are length-corrected, then `CurveDrawn` holds for the corrected anchors (curve, target and midpoint object); with an anchor missing nothing changes |
| WireSimulator.Wire.FixedUpdate | Wire.cs:326-342 | only `isFirstFrame` may change, and it is cleared once both anchors are present; the simulated value is not touched |
| WireSimulator.Wire.SetStartPoint | Wire.cs:374-385 | assigns the anchor, records its position (zero for none) and notifies once; when instant or removed with an anchor now missing, the renderer is emptied and the simulation kept; when instant with both present, the rope is at rest and `CurveDrawn` holds |
| WireSimulator.Wire.SetMidPoint | Wire.cs:386-396 | assigns the midpoint object, records `midPointPosition` (0.5 for none) and notifies once; when instant or removed with an anchor missing, the renderer is emptied and the simulation kept; when instant with both anchors present, the rope is at rest and `CurveDrawn` holds for the new object |
| WireSimulator.Wire.SetEndPoint | Wire.cs:398-409 | assigns the anchor, records its position (zero for none) and notifies once; when instant or removed with an anchor now missing, the renderer is emptied and the simulation kept; when instant with both present, the rope is at rest and `CurveDrawn` holds |
| InteractionGates.Evaluate | InteractionGate.cs:57-70 | opens and fires once at the target, closing again at once with auto-reset; proved about in `OpeningOutcome` and `StepFiresAtMostOnce` |
| InteractionGates.IncrementStep | InteractionGate.cs:24-36 | ignored while open, otherwise one more then `Evaluate`; proved about in `IncrementFiresIffTargetReached`, `OpenGateIgnoresEvents` and `StepInv` |
| InteractionGates.DecrementStep | InteractionGate.cs:41-54 | ignored while open, otherwise one less floored at zero; proved about in `DecrementNonNegative` and `OnlyIncrementOpens` |
| InteractionGates.ResetStep | InteractionGate.cs:73-77 | count zero and closed; proved about in `OnlyIncrementOpens` |
| InteractionGates.InitialInv | InteractionGate.cs:18-19 | the initial state (count 0, closed) satisfies the gate invariant |
| InteractionGates.StepInv | InteractionGate.cs:24-77 | every call keeps the invariant: the count is non-negative and bounded, and a gate with auto-reset is never left open |
| InteractionGates.RunInv | InteractionGate.cs:24-77 | any sequence of calls keeps the invariant |
| InteractionGates.ReachableCountFitsInt32 | InteractionGate.cs:18-36 | from the initial state the count stays in [0, max(1, requiredCount)], so `currentCount++` on a closed gate never overflows a C# `int` |
| InteractionGates.OpenGateIgnoresEvents | InteractionGate.cs:24-44 | while the gate is open, `Increment` and `Decrement` change nothing |
| InteractionGates.DecrementNonNegative | InteractionGate.cs:46-49 | `Decrement` never drives the count below 0; on a closed gate it gives max(count - 1, 0) |
| InteractionGates.IncrementFiresIffTargetReached | InteractionGate.cs:24-70 | on a closed gate `Increment` fires `OnGateOpened` once if and only if count + 1 >= `requiredCount`, and otherwise only raises the count by one |
| InteractionGates.OnlyIncrementOpens | InteractionGate.cs:41-77 | `Decrement` never opens the gate and never fires; `ResetGate` zeroes the count and closes the gate, whatever came before |
| InteractionGates.OpeningOutcome | InteractionGate.cs:57-70 | an opening with `resetAfterInvoke` leaves count 0 and the gate closed; without it, the gate is latched open with the count that opened it |
| InteractionGates.LatchedGateStaysOpen | InteractionGate.cs:24-54 | without `Reset` calls, an open gate without auto-reset stays exactly as it is |
| InteractionGates.AutoResetNeverStaysOpen | InteractionGate.cs:57-77 | with auto-reset, a closed gate is closed after any sequence of calls |
| InteractionGates.StepFiresAtMostOnce | InteractionGate.cs:24-77 | no call fires `OnGateOpened` more than once, and the event count never falls |
| InteractionGates.LatchOpensAtMostOnce | InteractionGate.cs:24-70 | without auto-reset and without `Reset` calls, the gate opens at most once; an already-open gate never fires again |
| InteractionGates.InteractionGate.constructor | InteractionGate.cs:8-19 | configured target and reset flag; count 0, closed, no events |
| InteractionGates.InteractionGate.Increment | InteractionGate.cs:24-36 | the state follows `IncrementStep` and keeps the invariant |
| InteractionGates.InteractionGate.Decrement | InteractionGate.cs:41-54 | the state follows `DecrementStep` and keeps the invariant |
| InteractionGates.InteractionGate.EvaluateGate | InteractionGate.cs:57-70 | the state follows `Evaluate`: open and fire at the target, reset if configured |
| InteractionGates.InteractionGate.ResetGate | InteractionGate.cs:73-77 | count 0 and the gate closed, with the event count kept |
| InteractionGates.InteractionGate.GetCurrentCount | InteractionGate.cs:80-83 | returns `currentCount`, which is non-negative |
| TriggerSensors.Enter | TriggerSensor.cs:16-34 | one entry with `Trigger` inlined; proved about in `EnterEffect`, `EnterInv`, `TriggeredIgnoresEntries` and, against a reference count, `RunMatchesCount` |
| TriggerSensors.InitialInv | TriggerSensor.cs:13-14 | the initial state (no hits, untriggered) satisfies the sensor invariant |
| TriggerSensors.EnterInv | TriggerSensor.cs:16-34 | one entry keeps the invariant: hits lie in [0, max(1, requiredHits)], stay below it until triggered, and the event count is 1 exactly when triggered |
| TriggerSensors.RunInv | TriggerSensor.cs:16-34 | any sequence of entries keeps the invariant |
| TriggerSensors.FiresAtMostOnce | TriggerSensor.cs:16-34 | over the sensor's lifetime `onSensorTriggered` fires at most once, and `currentHits` <= max(1, `requiredHits`) |
| TriggerSensors.TriggeredIgnoresEntries | TriggerSensor.cs:18 | once triggered, any further entries change nothing |
| TriggerSensors.EnterEffect | TriggerSensor.cs:18-27 | on an untriggered sensor: a mismatching tag changes nothing; a matching tag adds exactly one hit; the event fires and the latch sets exactly when the raised count reaches `requiredHits` |
| TriggerSensors.RunMatchesCount | TriggerSensor.cs:16-34 | after any entries the sensor is triggered if and only if at least max(1, `requiredHits`) carried the tag, and `currentHits` is that count capped at the same threshold |
| TriggerSensors.RunFromCount | TriggerSensor.cs:16-34 | the same reference count, from an untriggered sensor already holding n hits |
| TriggerSensors.TriggerSensor.constructor | TriggerSensor.cs:7-14 | configured tag and hit count; no hits, untriggered, no events |
| TriggerSensors.TriggerSensor.OnTriggerEnter | TriggerSensor.cs:16-28 | the state follows `Enter` and keeps the invariant |
| TriggerSensors.TriggerSensor.Trigger | TriggerSensor.cs:30-34 | sets the latch and fires the event once, keeping the hit count |
| TimedActivation.MaxEndTime | TimedGameObjectActivator.cs:34-43 | the latest `endTime`, and 0 for none; proved about in `MaxEndTimeBounds` |
| TimedActivation.ApplyWindow | TimedGameObjectActivator.cs:74-84 | one frame over the whole list; proved about in `ApplyWindowEffect`, `ApplyWindowIdempotent` and `ApplyWindowKeepsDuration` |
| TimedActivation.Deactivate | TimedGameObjectActivator.cs:104-108 | every assigned target switched off; proved about in `DeactivateEffect` and `DeactivateForgetsFrame` |
| TimedActivation.MaxEndTimeBounds | TimedGameObjectActivator.cs:34-43 | the total duration is >= 0, >= every `endTime`, and equals 0 or some object's `endTime` |
| TimedActivation.ApplyWindowEffect | TimedGameObjectActivator.cs:74-84 | after a frame, each assigned target is active if and only if `startTime <= elapsed < endTime`; unassigned entries and the windows are kept; entries already in the right state are untouched |
| TimedActivation.EmptyWindowNeverActive | TimedGameObjectActivator.cs:78-80 | an object with `startTime >= endTime` is inactive after every frame |
| TimedActivation.ApplyWindowIdempotent | TimedGameObjectActivator.cs:74-84 | a second frame at the same elapsed time changes nothing and makes no `SetActive` call |
| TimedActivation.NoSwitchesWhenSettled | TimedGameObjectActivator.cs:82-83 | no `SetActive` call is made when every target is already in its desired state |
| TimedActivation.SwitchesBounded | TimedGameObjectActivator.cs:82-83 | a frame makes at most one `SetActive` call per entry, and none if and only if every entry is settled |
| TimedActivation.DeactivateEffect | TimedGameObjectActivator.cs:104-108 | after `ResetAll` every assigned target is inactive, and nothing else changes |
| TimedActivation.DeactivateForgetsFrame | TimedGameObjectActivator.cs:74-108 | a frame followed by `ResetAll` leaves the same list as `ResetAll` alone |
| TimedActivation.ApplyWindowKeepsDuration | TimedGameObjectActivator.cs:74-84 | a frame keeps the latest end time |
| TimedActivation.TimedGameObjectActivator.constructor | TimedGameObjectActivator.cs:16-25 | the given list and loop flag; duration 0; no completions |
| TimedActivation.TimedGameObjectActivator.CalculateTotalDuration | TimedGameObjectActivator.cs:34-43 | the running maximum from 0 ends at `MaxEndTime` of the list |
| TimedActivation.TimedGameObjectActivator.FrameUpdate | TimedGameObjectActivator.cs:74-84 | the list becomes `ApplyWindow` of the old one, and the returned call count is the number of entries that needed switching |
| TimedActivation.TimedGameObjectActivator.ResetAll | TimedGameObjectActivator.cs:99-109 | the list becomes `Deactivate` of the old one |
| TimedActivation.TimedGameObjectActivator.OnDisable | TimedGameObjectActivator.cs:111-114 | the same as `ResetAll` |
| TimedActivation.TimedGameObjectActivator.HandleTimedObjects | TimedGameObjectActivator.cs:66-97 | with frame time dt > 0 the loop terminates on the first frame whose elapsed time exceeds `totalDuration` (for a non-negative duration); every target is then inactive; `onTimelineCompleted` fires once |
| TimedActivation.TimedGameObjectActivator.Start | TimedGameObjectActivator.cs:27-32 | the duration becomes the latest end time; the timeline runs at least one frame and stops on the first frame past it; everything ends inactive; one completion |

## Left out

- `IsPrefab` (Wire.cs:90, 133-136, 328-331) is a scene query, so `Update` and `FixedUpdate` are modelled for scene instances only.
- The line renderer's `startWidth`/`endWidth` and `InitializeLineRenderer` (Wire.cs:120-129) are left out. The renderer is only its list of positions.
- `CalculateYFactorAdjustment` (Wire.cs:200-206) is unused, and it relies on float `Mathf.Log` and `InverseLerp`.
- `OnDrawGizmos` (Wire.cs:358-367) draws nothing. The unused fields `curveResponse`, `lockedPerp`, `perpInitialized` and `lastDir` are left out.
- `Debug.Log`/`Debug.LogError` calls are I/O and are left out.
- IEEE single-precision arithmetic: everything is over `real`. `Mathf.Pow(x, 2)` is an exact square.
- `Mathf.Approximately` (Wire.cs:439-445) and Unity's approximate `Vector3 !=` (Wire.cs:432-433) are modelled as exact comparison.
- Wire.Valid: the inspector ranges are relaxed to a non-negative `midPointWeight` and a `midPointPosition` in [0,1]. They are `[Range(1, 15)]` and `[Range(0.25f, 0.75f)]` in the source. `linePoints` (`[Range(2, 100)]`) is a `nat`.
- WireSimulator.Wire.GetPointAt: the missing-anchor path returns `Err(MissingEndPoint)` instead of the zero vector, so that callers can tell it apart from a real point at the origin.
- WireSimulator.Wire.GetPointAt: a zero Bézier denominator is reported as `Err(ZeroDenominator)`; floats would produce a non-finite point. For t in [0, 1] within the inspector ranges the denominator is positive (`BezierDenominatorPositive`). For t outside [0, 1] it can be zero (for example `midPointWeight` 15 near t = 1.0345).
- Anchors and the midpoint object are held by value. Two anchors that are the same `Transform` (aliasing), and anchors moved by other scripts mid-method, are not modelled.
- WireGeometry.SpringStepSnapsToRest is stated for one step. The multi-tick convergence of the spring is not proved.
- Concrete numeric scenarios (for example anchors 3 apart with `maxWireLength` 2) are not separate lemmas. They are instances of `EnforcedAnchorsRestoreLength`, `EnforcedAnchors` and `MidPointIsLifted`.
- Inspector edits at runtime to `requiredCount`, `resetAfterInvoke`, `requiredTag` and `requiredHits` are not modelled: they are constants of their objects.
- Unity's `CompareTag` is exact equality of tag strings.
- Unity events (`OnGateOpened`, `onSensorTriggered`, `OnPointsChanged`, `onTimelineCompleted`) are counters of invocations. Their listeners run synchronously in the source and may call back into the component before the invoking method returns (for example a listener of `OnGateOpened` calling `Increment` while `gateOpen` is already true, InteractionGate.cs:61-68, or a listener of `onSensorTriggered` at TriggerSensor.cs:32-33). That re-entrancy is not modelled: each method runs to completion on its own.
- `TimedGameObjectActivator` coroutine machinery is left out: `StartCoroutine`/`StopCoroutine`, `yield` and `timelineRoutine` (TimedGameObjectActivator.cs:63, 86, 101-102). `HandleTimedObjects` runs all frames in one call.
- TimedActivation.TimedGameObjectActivator.HandleTimedObjects takes one constant frame time `dt`. `Time.deltaTime` varies from frame to frame in the source.
- The `loop` restart (TimedGameObjectActivator.cs:93-96) is left out. With `loop` set the timeline never ends.
- `OutLine` (TimedGameObjectActivator.cs:45-58) calls into the foreign `outlineManger` component, so it is left out.
- A game object is held by value inside its entry. Two entries that share one `GameObject` (where the later entry's `SetActive` wins) are not modelled, nor is the list being edited during the timeline.
- `TransformXToY.cs`, `TransformToTarget.cs`, `SnapObject.cs`, `DefaultPosObj.cs`, `TodayDateTMP.cs` and `CurrentTimeTMP.cs` are not part of this model. They are tweens on engine quaternions and float thresholds, grab-library callbacks, and wall-clock text labels.
