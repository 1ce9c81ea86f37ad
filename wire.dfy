/**
 * The `Wire` component: two anchors (and an optional hanging midpoint), a curve of line
 * renderer positions between them, the simulated mid control point and the change
 * detection that drives edit-mode updates.  An anchor `Transform` is reduced to its
 * position (`None` for an unassigned transform); the line renderer is the sequence
 * `positions`; the `OnPointsChanged` event is the counter `pointsChangedEvents`.
 */
module WireSimulator {
  import opened Wrappers
  import opened Vectors
  import opened WireGeometry

  /** Why `GetPointAt` cannot give a point on the curve. */
  datatype PointError = MissingEndPoint | ZeroDenominator

  /** The values whose change between two `Update`s marks the rope as edited. */
  datatype Snapshot = Snapshot(
    startPosition: Vec3, endPosition: Vec3,
    midPointPosition: real, midPointWeight: real,
    lineQuality: real, ropeWidth: real, stiffness: real, damping: real, ropeLength: real)

  class Wire {
    /** `Mathf.Sqrt`. */
    const sqrt: real -> real

    var startPoint: Option<Vec3>
    var midPoint: Option<Vec3>
    var endPoint: Option<Vec3>

    var curveDirection: Vec3
    var maxCurveHeight: real
    var maxWireLength: real
    var linePoints: nat
    var stiffness: real
    var damping: real
    var ropeLength: real
    var ropeWidth: real
    var midPointWeight: real
    var midPointPosition: real

    var currentValue: Vec3
    var currentVelocity: Vec3
    var targetValue: Vec3
    var otherPhysicsFactors: Vec3

    /** The line renderer's positions. */
    var positions: seq<Vec3>
    var isFirstFrame: bool

    /** The `prev*` fields: what the last `Update` recorded. */
    var prev: Snapshot

    var isStartSnapped: bool
    var isEndSnapped: bool

    /** How many times `OnPointsChanged` has been invoked. */
    var pointsChangedEvents: nat

    /**
     * The square root is the real one, and the inspector ranges that keep the curve defined
     * hold: `midPointWeight` in [1, 15] and `midPointPosition` in [0.25, 0.75] are relaxed
     * to a non-negative weight and a position in [0, 1].
     */
    ghost predicate Valid()
      reads this`midPointWeight, this`midPointPosition
    {
      IsSqrt(sqrt) && midPointWeight >= 0.0 && 0.0 <= midPointPosition <= 1.0
    }

    /** A wire with the inspector defaults, attached to the given anchors. */
    constructor (sqrt: real -> real, startPoint: Option<Vec3>, midPoint: Option<Vec3>, endPoint: Option<Vec3>)
      requires IsSqrt(sqrt)
      ensures Valid()
      ensures this.sqrt == sqrt
      ensures this.startPoint == startPoint && this.midPoint == midPoint && this.endPoint == endPoint
      ensures curveDirection == Vec3(0.0, 1.0, 0.0) && maxCurveHeight == 0.03 && maxWireLength == 0.15
      ensures linePoints == 10 && stiffness == 350.0 && damping == 15.0 && ropeLength == 15.0 && ropeWidth == 0.1
      ensures midPointWeight == 1.0 && midPointPosition == 0.5
      ensures currentValue == Zero && currentVelocity == Zero && targetValue == Zero && otherPhysicsFactors == Zero
      ensures positions == [] && isFirstFrame && !isStartSnapped && !isEndSnapped && pointsChangedEvents == 0
      ensures prev == Snapshot(Zero, Zero, 0.0, 0.0, 0.0, 0.0, 0.0, 0.0, 0.0)
    {
      this.sqrt := sqrt;
      this.startPoint, this.midPoint, this.endPoint := startPoint, midPoint, endPoint;
      curveDirection := Vec3(0.0, 1.0, 0.0);
      maxCurveHeight, maxWireLength := 0.03, 0.15;
      linePoints := 10;
      stiffness, damping, ropeLength, ropeWidth := 350.0, 15.0, 15.0, 0.1;
      midPointWeight, midPointPosition := 1.0, 0.5;
      currentValue, currentVelocity, targetValue, otherPhysicsFactors := Zero, Zero, Zero, Zero;
      positions := [];
      isFirstFrame := true;
      prev := Snapshot(Zero, Zero, 0.0, 0.0, 0.0, 0.0, 0.0, 0.0, 0.0);
      isStartSnapped, isEndSnapped := false, false;
      pointsChangedEvents := 0;
    }

    predicate AreEndPointsValid()
      reads this`startPoint, this`endPoint
    {
      startPoint.Some? && endPoint.Some?
    }

    /** The sag-adjusted midpoint of the current anchors and settings. */
    function GetMidPoint(): (r: Vec3)
      reads this`startPoint, this`endPoint, this`midPointPosition, this`maxWireLength, this`curveDirection, this`maxCurveHeight, this`midPointWeight
      requires Valid() && AreEndPointsValid()
      ensures r == MidPoint(startPoint.value, endPoint.value, midPointPosition, maxWireLength, curveDirection,
                            maxCurveHeight, sqrt)
    {
      MidPoint(startPoint.value, endPoint.value, midPointPosition, maxWireLength, curveDirection, maxCurveHeight, sqrt)
    }

    /**
     * The point at parameter `t` of the curve through the anchors with the simulated
     * `currentValue` as control point.  With an anchor missing the source logs an error and
     * returns the zero vector; where the weighted denominator vanishes it divides by zero.
     */
    function GetPointAt(t: real): (r: Result<Vec3, PointError>)
      reads this`startPoint, this`endPoint, this`currentValue, this`midPointWeight
      ensures r == Err(MissingEndPoint) <==> !AreEndPointsValid()
      ensures AreEndPointsValid() && midPointWeight >= 0.0 && 0.0 <= t <= 1.0 ==>
                && r.Ok?
                && InBoundingBox(r.value, startPoint.value, currentValue, endPoint.value)
      ensures AreEndPointsValid() && t == 0.0 ==> r == Ok(startPoint.value)
      ensures AreEndPointsValid() && t == 1.0 ==> r == Ok(endPoint.value)
    {
      if !AreEndPointsValid() then
        Err(MissingEndPoint)
      else
        assert midPointWeight >= 0.0 && 0.0 <= t <= 1.0 ==>
                 BezierDenominator(t, StartPointWeight, midPointWeight, EndPointWeight) > 0.0 by {
          if midPointWeight >= 0.0 && 0.0 <= t <= 1.0 {
            BezierDenominatorPositive(t, StartPointWeight, midPointWeight, EndPointWeight);
          }
        }
        if BezierDenominator(t, StartPointWeight, midPointWeight, EndPointWeight) == 0.0 then
          Err(ZeroDenominator)
        else
          var p0, p1, p2 := startPoint.value, currentValue, endPoint.value;
          assert midPointWeight >= 0.0 && 0.0 <= t <= 1.0 ==>
                   InBoundingBox(RationalBezierPoint(p0, p1, p2, t, StartPointWeight, midPointWeight, EndPointWeight), p0, p1, p2) by {
            if midPointWeight >= 0.0 && 0.0 <= t <= 1.0 {
              BezierInBoundingBox(p0, p1, p2, t, StartPointWeight, midPointWeight, EndPointWeight);
            }
          }
          BezierAtStart(p0, p1, p2, StartPointWeight, midPointWeight, EndPointWeight);
          BezierAtEnd(p0, p1, p2, StartPointWeight, midPointWeight, EndPointWeight);
          Ok(RationalBezierPoint(p0, p1, p2, t, StartPointWeight, midPointWeight, EndPointWeight))
    }

    /**
     * What `SetSplinePoint` leaves behind, for a hanging midpoint object that was `mid0`:
     * the target is the fresh midpoint, the renderer holds the curve through it, and a
     * present midpoint object sits on that curve at `midPointPosition`.
     */
    ghost predicate CurveDrawn(mid0: Option<Vec3>)
      reads this`startPoint, this`endPoint, this`midPointPosition, this`maxWireLength, this`curveDirection,
            this`maxCurveHeight, this`midPointWeight, this`targetValue, this`positions, this`midPoint, this`linePoints
      requires Valid() && AreEndPointsValid()
    {
      && targetValue == GetMidPoint()
      && positions == SplinePoints(startPoint.value, targetValue, endPoint.value, linePoints, midPointWeight)
      && midPoint == if mid0.Some?
                     then Some(SamplePoint(startPoint.value, targetValue, endPoint.value, midPointPosition, midPointWeight))
                     else None
    }

    /** The values as they are now. */
    function CurrentSnapshot(): Snapshot
      reads this`startPoint, this`endPoint, this`midPointPosition, this`midPointWeight, this`linePoints, this`ropeWidth, this`stiffness, this`damping, this`ropeLength
      requires AreEndPointsValid()
    {
      Snapshot(startPoint.value, endPoint.value, midPointPosition, midPointWeight,
               linePoints as real, ropeWidth, stiffness, damping, ropeLength)
    }

    /** Whether an anchor is away from where the last `Update` saw it. */
    predicate IsPointsMoved()
      reads this`startPoint, this`endPoint, this`prev
      requires AreEndPointsValid()
    {
      startPoint.value != prev.startPosition || endPoint.value != prev.endPosition
    }

    /** Whether a rope setting differs from what the last `Update` recorded. */
    predicate IsRopeSettingsChanged()
      reads this`linePoints, this`ropeWidth, this`stiffness, this`damping, this`ropeLength, this`midPointPosition, this`midPointWeight, this`prev
    {
      || linePoints as real != prev.lineQuality
      || ropeWidth != prev.ropeWidth
      || stiffness != prev.stiffness
      || damping != prev.damping
      || ropeLength != prev.ropeLength
      || midPointPosition != prev.midPointPosition
      || midPointWeight != prev.midPointWeight
    }

    /** Together the two checks detect exactly a change of the snapshot. */
    lemma ChangeDetectedIffSnapshotDiffers()
      requires AreEndPointsValid()
      ensures IsPointsMoved() || IsRopeSettingsChanged() <==> CurrentSnapshot() != prev
    {
    }

    method NotifyPointsChanged()
      modifies this`pointsChangedEvents
      ensures pointsChangedEvents == old(pointsChangedEvents) + 1
    {
      pointsChangedEvents := pointsChangedEvents + 1;
    }

    /**
     * Resizes the renderer to `linePoints + 1` positions and fills it with the curve through
     * the anchors and the fresh midpoint, which also becomes the simulated value and target;
     * a hanging midpoint object is moved onto the curve at `midPointPosition`.
     */
    method SetSplinePoint()
      requires Valid() && AreEndPointsValid()
      modifies this`positions, this`currentValue, this`targetValue, this`midPoint
      ensures currentValue == targetValue
      ensures CurveDrawn(old(midPoint))
    {
      if |positions| != linePoints + 1 {
        positions := seq(linePoints + 1, _ => Zero);
      }
      var mid := GetMidPoint();
      currentValue := mid;
      targetValue := mid;
      var start, end := startPoint.value, endPoint.value;
      if midPoint.Some? {
        midPoint := Some(SamplePoint(start, mid, end, midPointPosition, midPointWeight));
      }
      ghost var curve := SplinePoints(start, mid, end, linePoints, midPointWeight);
      var buffer := positions;
      var i := 0;
      while i < linePoints
        invariant 0 <= i <= linePoints
        invariant |buffer| == linePoints + 1
        invariant forall j :: 0 <= j < i ==> buffer[j] == curve[j]
      {
        buffer := buffer[i := SamplePoint(start, mid, end, ParamAt(i, linePoints), midPointWeight)];
        i := i + 1;
      }
      buffer := buffer[linePoints := end];
      assert buffer == curve;
      positions := buffer;
    }

    /** Pulls the anchors back to `maxWireLength` apart as far as the snap flags allow. */
    method EnforceMaxLength()
      requires Valid()
      modifies this`startPoint, this`endPoint
      ensures !old(AreEndPointsValid()) ==> startPoint == old(startPoint) && endPoint == old(endPoint)
      ensures old(AreEndPointsValid()) ==>
                var r := EnforcedAnchors(old(startPoint.value), old(endPoint.value), maxWireLength,
                                         isStartSnapped, isEndSnapped, sqrt);
                startPoint == Some(r.start) && endPoint == Some(r.end)
    {
      if !AreEndPointsValid() {
        return;
      }
      var r := EnforcedAnchors(startPoint.value, endPoint.value, maxWireLength, isStartSnapped, isEndSnapped, sqrt);
      startPoint, endPoint := Some(r.start), Some(r.end);
    }

    /** One spring-damper step of the simulated mid control point over `dt` seconds. */
    method SimulatePhysics(dt: real)
      requires Valid() && dt > 0.0
      modifies this`currentValue, this`currentVelocity
      ensures SpringState(currentValue, currentVelocity)
           == SpringStep(old(SpringState(currentValue, currentVelocity)), targetValue, stiffness, damping,
                         otherPhysicsFactors, dt, sqrt)
    {
      var dampingFactor := DampingFactor(damping, dt);
      var acceleration := Scale(Scale(Sub(targetValue, currentValue), stiffness), dt);
      currentVelocity := Add(Add(Scale(currentVelocity, dampingFactor), acceleration), otherPhysicsFactors);
      currentValue := Add(currentValue, Scale(currentVelocity, dt));
      if Distance(currentValue, targetValue, sqrt) < ValueThreshold && Magnitude(currentVelocity, sqrt) < VelocityThreshold {
        currentValue := targetValue;
        currentVelocity := Zero;
      }
    }

    /**
     * Puts the simulation at rest on the fresh midpoint and redraws the curve; with an anchor
     * missing the renderer is emptied instead.
     */
    method RecalculateRope()
      requires Valid()
      modifies this`positions, this`currentValue, this`targetValue, this`currentVelocity, this`midPoint
      ensures !old(AreEndPointsValid()) ==>
                && positions == []
                && currentValue == old(currentValue) && targetValue == old(targetValue)
                && currentVelocity == old(currentVelocity) && midPoint == old(midPoint)
      ensures old(AreEndPointsValid()) ==>
                currentValue == targetValue && currentVelocity == Zero && CurveDrawn(old(midPoint))
    {
      if !AreEndPointsValid() {
        positions := [];
        return;
      }
      currentValue := GetMidPoint();
      targetValue := currentValue;
      currentVelocity := Zero;
      SetSplinePoint();
    }

    /** `Start`: the simulation starts at rest on the midpoint and the curve is drawn. */
    method Start()
      requires Valid()
      modifies this`positions, this`currentValue, this`targetValue, this`currentVelocity, this`midPoint
      ensures !old(AreEndPointsValid()) ==>
                && positions == old(positions)
                && currentValue == old(currentValue) && targetValue == old(targetValue)
                && currentVelocity == old(currentVelocity) && midPoint == old(midPoint)
      ensures old(AreEndPointsValid()) ==>
                currentValue == targetValue && currentVelocity == Zero && CurveDrawn(old(midPoint))
    {
      if AreEndPointsValid() {
        currentValue := GetMidPoint();
        targetValue := currentValue;
        currentVelocity := Zero;
        SetSplinePoint();
      }
    }

    /** `OnValidate`: in edit mode, recalculate and take one physics step, or empty the renderer. */
    method OnValidate(isPlaying: bool, dt: real)
      requires Valid() && dt > 0.0
      modifies this`positions, this`currentValue, this`targetValue, this`currentVelocity, this`midPoint
      ensures isPlaying ==>
                && positions == old(positions) && midPoint == old(midPoint)
                && currentValue == old(currentValue) && targetValue == old(targetValue)
                && currentVelocity == old(currentVelocity)
      ensures !isPlaying && !old(AreEndPointsValid()) ==>
                && positions == [] && midPoint == old(midPoint)
                && currentValue == old(currentValue) && targetValue == old(targetValue)
                && currentVelocity == old(currentVelocity)
      ensures !isPlaying && old(AreEndPointsValid()) ==>
                && CurveDrawn(old(midPoint))
                && SpringState(currentValue, currentVelocity)
                   == SpringStep(SpringState(targetValue, Zero), targetValue, stiffness, damping, otherPhysicsFactors, dt, sqrt)
    {
      if !isPlaying {
        if AreEndPointsValid() {
          RecalculateRope();
          SimulatePhysics(dt);
        } else {
          positions := [];
        }
      }
    }

    /**
     * `Update`: redraws the curve; in edit mode a detected change takes a physics step and
     * raises `OnPointsChanged`; then the snapshot is recorded, so the next `Update` sees a
     * change only if something is edited in between.
     */
    method Update(isPlaying: bool, dt: real)
      requires Valid() && dt > 0.0
      modifies this`positions, this`currentValue, this`targetValue, this`currentVelocity, this`midPoint,
               this`pointsChangedEvents, this`prev
      ensures !old(AreEndPointsValid()) ==>
                && positions == old(positions) && midPoint == old(midPoint)
                && currentValue == old(currentValue) && targetValue == old(targetValue)
                && currentVelocity == old(currentVelocity)
                && prev == old(prev)
                && pointsChangedEvents == old(pointsChangedEvents)
      ensures old(AreEndPointsValid()) ==> prev == CurrentSnapshot() && CurveDrawn(old(midPoint))
      ensures old(AreEndPointsValid()) && !isPlaying && old(IsPointsMoved() || IsRopeSettingsChanged()) ==>
                && pointsChangedEvents == old(pointsChangedEvents) + 1
                && SpringState(currentValue, currentVelocity)
                   == SpringStep(SpringState(targetValue, old(currentVelocity)), targetValue, stiffness,
                                 damping, otherPhysicsFactors, dt, sqrt)
      ensures old(AreEndPointsValid()) && (isPlaying || !old(IsPointsMoved() || IsRopeSettingsChanged())) ==>
                && pointsChangedEvents == old(pointsChangedEvents)
                && currentValue == targetValue && currentVelocity == old(currentVelocity)
    {
      if AreEndPointsValid() {
        var changed := !isPlaying && (IsPointsMoved() || IsRopeSettingsChanged());
        Redraw(changed, dt);
      }
    }

    /** The body of `Update` once both anchors are known to exist. */
    method Redraw(changed: bool, dt: real)
      requires Valid() && AreEndPointsValid() && dt > 0.0
      modifies this`positions, this`currentValue, this`targetValue, this`currentVelocity, this`midPoint,
               this`pointsChangedEvents, this`prev
      ensures prev == CurrentSnapshot() && CurveDrawn(old(midPoint))
      ensures changed ==>
                && pointsChangedEvents == old(pointsChangedEvents) + 1
                && SpringState(currentValue, currentVelocity)
                   == SpringStep(SpringState(targetValue, old(currentVelocity)), targetValue, stiffness,
                                 damping, otherPhysicsFactors, dt, sqrt)
      ensures !changed ==>
                && pointsChangedEvents == old(pointsChangedEvents)
                && currentValue == targetValue && currentVelocity == old(currentVelocity)
    {
      SetSplinePoint();
      StepAndRecord(changed, dt);
    }

    /** After the redraw: the physics step and the event if something changed, then the snapshot. */
    method StepAndRecord(changed: bool, dt: real)
      requires Valid() && AreEndPointsValid() && dt > 0.0
      modifies this`currentValue, this`currentVelocity, this`pointsChangedEvents, this`prev
      ensures prev == CurrentSnapshot()
      ensures changed ==>
                && pointsChangedEvents == old(pointsChangedEvents) + 1
                && SpringState(currentValue, currentVelocity)
                   == SpringStep(old(SpringState(currentValue, currentVelocity)), targetValue, stiffness,
                                 damping, otherPhysicsFactors, dt, sqrt)
      ensures !changed ==>
                && pointsChangedEvents == old(pointsChangedEvents)
                && currentValue == old(currentValue) && currentVelocity == old(currentVelocity)
    {
      if changed {
        SimulatePhysics(dt);
        NotifyPointsChanged();
      }
      prev := CurrentSnapshot();
    }

    /** `LateUpdate`: the length constraint, then a redraw from the corrected anchors. */
    method LateUpdate()
      requires Valid()
      modifies this`startPoint, this`endPoint, this`positions, this`currentValue, this`targetValue, this`midPoint
      ensures !old(AreEndPointsValid()) ==>
                && startPoint == old(startPoint) && endPoint == old(endPoint)
                && positions == old(positions) && midPoint == old(midPoint)
                && currentValue == old(currentValue) && targetValue == old(targetValue)
      ensures old(AreEndPointsValid()) ==>
                var r := EnforcedAnchors(old(startPoint.value), old(endPoint.value), maxWireLength,
                                         isStartSnapped, isEndSnapped, sqrt);
                && startPoint == Some(r.start) && endPoint == Some(r.end)
                && currentValue == targetValue
                && CurveDrawn(old(midPoint))
    {
      if AreEndPointsValid() {
        EnforceMaxLength();
        SetSplinePoint();
      }
    }

    /**
     * `FixedUpdate`: the spring step it once took is disabled, so with both anchors present
     * it only clears `isFirstFrame`, and the simulated value never moves here.
     */
    method FixedUpdate()
      modifies this`isFirstFrame
      ensures isFirstFrame == (old(isFirstFrame) && !AreEndPointsValid())
    {
      if AreEndPointsValid() {
        isFirstFrame := false;
      }
    }

    /**
     * Shared shape of the three anchor setters: assign, record the new position as seen,
     * redraw at once when asked to or when the anchor was removed, and notify.
     */
    method SetStartPoint(newStartPoint: Option<Vec3>, instantAssign: bool)
      requires Valid()
      modifies this`startPoint, this`prev, this`positions, this`currentValue, this`targetValue,
               this`currentVelocity, this`midPoint, this`pointsChangedEvents
      ensures startPoint == newStartPoint
      ensures prev == old(prev).(startPosition := if newStartPoint.None? then Zero else newStartPoint.value)
      ensures pointsChangedEvents == old(pointsChangedEvents) + 1
      ensures !(instantAssign || newStartPoint.None?) ==>
                && positions == old(positions) && midPoint == old(midPoint)
                && currentValue == old(currentValue) && targetValue == old(targetValue)
                && currentVelocity == old(currentVelocity)
      ensures (instantAssign || newStartPoint.None?) && !AreEndPointsValid() ==>
                && positions == [] && midPoint == old(midPoint)
                && currentValue == old(currentValue) && targetValue == old(targetValue)
                && currentVelocity == old(currentVelocity)
      ensures instantAssign && AreEndPointsValid() ==>
                currentValue == targetValue && currentVelocity == Zero && CurveDrawn(old(midPoint))
    {
      startPoint := newStartPoint;
      prev := prev.(startPosition := if startPoint.None? then Zero else startPoint.value);
      if instantAssign || newStartPoint.None? {
        RecalculateRope();
      }
      NotifyPointsChanged();
    }

    method SetEndPoint(newEndPoint: Option<Vec3>, instantAssign: bool)
      requires Valid()
      modifies this`endPoint, this`prev, this`positions, this`currentValue, this`targetValue,
               this`currentVelocity, this`midPoint, this`pointsChangedEvents
      ensures endPoint == newEndPoint
      ensures prev == old(prev).(endPosition := if newEndPoint.None? then Zero else newEndPoint.value)
      ensures pointsChangedEvents == old(pointsChangedEvents) + 1
      ensures !(instantAssign || newEndPoint.None?) ==>
                && positions == old(positions) && midPoint == old(midPoint)
                && currentValue == old(currentValue) && targetValue == old(targetValue)
                && currentVelocity == old(currentVelocity)
      ensures (instantAssign || newEndPoint.None?) && !AreEndPointsValid() ==>
                && positions == [] && midPoint == old(midPoint)
                && currentValue == old(currentValue) && targetValue == old(targetValue)
                && currentVelocity == old(currentVelocity)
      ensures instantAssign && AreEndPointsValid() ==>
                currentValue == targetValue && currentVelocity == Zero && CurveDrawn(old(midPoint))
    {
      endPoint := newEndPoint;
      prev := prev.(endPosition := if endPoint.None? then Zero else endPoint.value);
      if instantAssign || newEndPoint.None? {
        RecalculateRope();
      }
      NotifyPointsChanged();
    }

    /**
     * Assigns the hanging midpoint object.  The recorded `midPointPosition` becomes 0.5 when
     * the object is removed and the current setting otherwise.
     */
    method SetMidPoint(newMidPoint: Option<Vec3>, instantAssign: bool)
      requires Valid()
      modifies this`midPoint, this`prev, this`positions, this`currentValue, this`targetValue,
               this`currentVelocity, this`pointsChangedEvents
      ensures prev == old(prev).(midPointPosition := if newMidPoint.None? then 0.5 else midPointPosition)
      ensures pointsChangedEvents == old(pointsChangedEvents) + 1
      ensures !(instantAssign || newMidPoint.None?) ==>
                && midPoint == newMidPoint && positions == old(positions)
                && currentValue == old(currentValue) && targetValue == old(targetValue)
                && currentVelocity == old(currentVelocity)
      ensures newMidPoint.None? ==> midPoint == None
      ensures (instantAssign || newMidPoint.None?) && !AreEndPointsValid() ==>
                && positions == [] && midPoint == newMidPoint
                && currentValue == old(currentValue) && targetValue == old(targetValue)
                && currentVelocity == old(currentVelocity)
      ensures (instantAssign || newMidPoint.None?) && AreEndPointsValid() ==>
                currentValue == targetValue && currentVelocity == Zero && CurveDrawn(newMidPoint)
    {
      midPoint := newMidPoint;
      prev := prev.(midPointPosition := if midPoint.None? then 0.5 else midPointPosition);
      if instantAssign || newMidPoint.None? {
        RecalculateRope();
      }
      NotifyPointsChanged();
    }
  }
}
