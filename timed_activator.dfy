/**
 * The `TimedGameObjectActivator` component: a list of game objects, each with a time
 * window [startTime, endTime) on a timeline.  The timeline lasts until the latest end time;
 * on every frame each assigned object is switched on exactly while the elapsed time lies
 * in its window, and when the timeline is over every object is switched off and
 * `onTimelineCompleted` is invoked.  A game object is reduced to its `activeSelf` flag and
 * held by value in its entry (`None` for an unassigned target); the event is the counter
 * `completedEvents`.
 */
module TimedActivation {
  import opened Wrappers

  datatype GameObject = GameObject(activeSelf: bool)

  datatype TimedObject = TimedObject(target: Option<GameObject>, startTime: real, endTime: real)

  /** The latest end time of `objs`, and zero if none is positive. */
  function MaxEndTime(objs: seq<TimedObject>): real
    decreases |objs|
  {
    if objs == [] then 0.0
    else
      var m := MaxEndTime(objs[..|objs| - 1]);
      var e := objs[|objs| - 1].endTime;
      if e > m then e else m
  }

  /**
   * The total duration is never negative, reaches every end time, and is either zero or
   * one of the end times.
   */
  lemma {:induction false} MaxEndTimeBounds(objs: seq<TimedObject>)
    ensures MaxEndTime(objs) >= 0.0
    ensures forall i :: 0 <= i < |objs| ==> objs[i].endTime <= MaxEndTime(objs)
    ensures MaxEndTime(objs) == 0.0 || exists i :: 0 <= i < |objs| && objs[i].endTime == MaxEndTime(objs)
    decreases |objs|
  {
    if objs != [] {
      var front := objs[..|objs| - 1];
      MaxEndTimeBounds(front);
      assert forall i :: 0 <= i < |front| ==> front[i] == objs[i];
    }
  }

  /** Whether an object belongs on at `elapsed`: inside its half-open window. */
  predicate ShouldBeActive(o: TimedObject, elapsed: real)
  {
    elapsed >= o.startTime && elapsed < o.endTime
  }

  /** Whether the frame rule has to call `SetActive` on this entry. */
  predicate NeedsSwitch(o: TimedObject, elapsed: real)
  {
    o.target.Some? && o.target.value.activeSelf != ShouldBeActive(o, elapsed)
  }

  /** One entry after the frame rule: unassigned and already-correct entries are untouched. */
  function ApplyWindowTo(o: TimedObject, elapsed: real): TimedObject
  {
    if NeedsSwitch(o, elapsed) then o.(target := Some(GameObject(ShouldBeActive(o, elapsed)))) else o
  }

  /** The list after one frame at `elapsed`. */
  function ApplyWindow(objs: seq<TimedObject>, elapsed: real): seq<TimedObject>
  {
    seq(|objs|, i requires 0 <= i < |objs| => ApplyWindowTo(objs[i], elapsed))
  }

  /** How many `SetActive` calls one frame at `elapsed` makes. */
  function Switches(objs: seq<TimedObject>, elapsed: real): nat
    decreases |objs|
  {
    if objs == [] then 0
    else Switches(objs[..|objs| - 1], elapsed) + (if NeedsSwitch(objs[|objs| - 1], elapsed) then 1 else 0)
  }

  /** One entry after `ResetAll`. */
  function DeactivateTo(o: TimedObject): TimedObject
  {
    if o.target.Some? then o.(target := Some(GameObject(false))) else o
  }

  /** The list after `ResetAll`. */
  function Deactivate(objs: seq<TimedObject>): seq<TimedObject>
  {
    seq(|objs|, i requires 0 <= i < |objs| => DeactivateTo(objs[i]))
  }

  /**
   * After a frame every assigned target is on exactly while the elapsed time lies in its
   * window; unassigned entries, the windows and the order of the list are unchanged; a
   * target already in the right state is not touched.
   */
  lemma ApplyWindowEffect(objs: seq<TimedObject>, elapsed: real)
    ensures |ApplyWindow(objs, elapsed)| == |objs|
    ensures forall i :: 0 <= i < |objs| ==>
              var r := ApplyWindow(objs, elapsed)[i];
              && r.startTime == objs[i].startTime && r.endTime == objs[i].endTime
              && r.target.Some? == objs[i].target.Some?
              && (r.target.Some? ==> (r.target.value.activeSelf <==> objs[i].startTime <= elapsed < objs[i].endTime))
              && (!NeedsSwitch(objs[i], elapsed) ==> r == objs[i])
  {
  }

  /** An object whose window is empty is never on after a frame. */
  lemma EmptyWindowNeverActive(objs: seq<TimedObject>, elapsed: real, i: int)
    requires 0 <= i < |objs| && objs[i].startTime >= objs[i].endTime && objs[i].target.Some?
    ensures !ApplyWindow(objs, elapsed)[i].target.value.activeSelf
  {
  }

  /**
   * A second frame at the same time switches nothing: the frame rule is idempotent.
   */
  lemma {:induction false} ApplyWindowIdempotent(objs: seq<TimedObject>, elapsed: real)
    ensures ApplyWindow(ApplyWindow(objs, elapsed), elapsed) == ApplyWindow(objs, elapsed)
    ensures Switches(ApplyWindow(objs, elapsed), elapsed) == 0
  {
    NoSwitchesWhenSettled(ApplyWindow(objs, elapsed), elapsed);
  }

  /** No `SetActive` call is made when no entry needs one. */
  lemma {:induction false} NoSwitchesWhenSettled(objs: seq<TimedObject>, elapsed: real)
    requires forall i :: 0 <= i < |objs| ==> !NeedsSwitch(objs[i], elapsed)
    ensures Switches(objs, elapsed) == 0
    decreases |objs|
  {
    if objs != [] {
      var front := objs[..|objs| - 1];
      assert forall i :: 0 <= i < |front| ==> front[i] == objs[i];
      NoSwitchesWhenSettled(front, elapsed);
    }
  }

  /** The number of `SetActive` calls is the number of entries in the wrong state. */
  lemma {:induction false} SwitchesBounded(objs: seq<TimedObject>, elapsed: real)
    ensures Switches(objs, elapsed) <= |objs|
    ensures (Switches(objs, elapsed) == 0) <==> forall i :: 0 <= i < |objs| ==> !NeedsSwitch(objs[i], elapsed)
    decreases |objs|
  {
    if objs != [] {
      var front := objs[..|objs| - 1];
      assert forall i :: 0 <= i < |front| ==> front[i] == objs[i];
      SwitchesBounded(front, elapsed);
    }
  }

  /** After `ResetAll` every assigned target is off, and nothing else changes. */
  lemma DeactivateEffect(objs: seq<TimedObject>)
    ensures |Deactivate(objs)| == |objs|
    ensures forall i :: 0 <= i < |objs| ==>
              var r := Deactivate(objs)[i];
              && r.startTime == objs[i].startTime && r.endTime == objs[i].endTime
              && r.target.Some? == objs[i].target.Some?
              && (r.target.Some? ==> !r.target.value.activeSelf)
  {
  }

  /** Whatever frames ran before, `ResetAll` leaves the list as it would leave the original. */
  lemma DeactivateForgetsFrame(objs: seq<TimedObject>, elapsed: real)
    ensures Deactivate(ApplyWindow(objs, elapsed)) == Deactivate(objs)
  {
  }

  /** A frame keeps the latest end time, so the timeline's length does not drift. */
  lemma {:induction false} ApplyWindowKeepsDuration(objs: seq<TimedObject>, elapsed: real)
    ensures MaxEndTime(ApplyWindow(objs, elapsed)) == MaxEndTime(objs)
    decreases |objs|
  {
    if objs != [] {
      var front := objs[..|objs| - 1];
      assert ApplyWindow(objs, elapsed)[..|objs| - 1] == ApplyWindow(front, elapsed);
      ApplyWindowKeepsDuration(front, elapsed);
    }
  }

  /** `n * dt <= total` with `dt > 0` bounds `n` by the floor of `total / dt`. */
  lemma FramesBelowFloor(n: nat, dt: real, total: real)
    requires dt > 0.0 && n as real * dt <= total
    ensures n <= (total / dt).Floor
  {
    assert n as real <= total / dt;
  }

  class TimedGameObjectActivator {
    var timedObjects: seq<TimedObject>
    /** Restart after completion; the restart itself is not modelled. */
    const loop: bool
    var totalDuration: real
    /** How many times `onTimelineCompleted` has been invoked. */
    var completedEvents: nat

    constructor (timedObjects: seq<TimedObject>, loop: bool)
      ensures this.timedObjects == timedObjects && this.loop == loop
      ensures totalDuration == 0.0 && completedEvents == 0
    {
      this.timedObjects := timedObjects;
      this.loop := loop;
      totalDuration := 0.0;
      completedEvents := 0;
    }

    /** `totalDuration` := the latest end time, by a running maximum from zero. */
    method CalculateTotalDuration()
      modifies this`totalDuration
      ensures totalDuration == MaxEndTime(timedObjects)
    {
      totalDuration := 0.0;
      for i := 0 to |timedObjects|
        invariant totalDuration == MaxEndTime(timedObjects[..i])
      {
        assert timedObjects[..i + 1][..i] == timedObjects[..i];
        if timedObjects[i].endTime > totalDuration {
          totalDuration := timedObjects[i].endTime;
        }
      }
      assert timedObjects[..|timedObjects|] == timedObjects;
    }

    /**
     * The body of one timeline frame at `elapsed`: switch each assigned target to its
     * window's state, calling `SetActive` (counted in `calls`) only where it differs.
     */
    method FrameUpdate(elapsed: real) returns (calls: nat)
      modifies this`timedObjects
      ensures timedObjects == ApplyWindow(old(timedObjects), elapsed)
      ensures calls == Switches(old(timedObjects), elapsed)
    {
      ghost var objs := timedObjects;
      calls := 0;
      for i := 0 to |timedObjects|
        invariant |timedObjects| == |objs|
        invariant forall j :: 0 <= j < i ==> timedObjects[j] == ApplyWindowTo(objs[j], elapsed)
        invariant forall j :: i <= j < |objs| ==> timedObjects[j] == objs[j]
        invariant calls == Switches(objs[..i], elapsed)
      {
        assert objs[..i + 1][..i] == objs[..i];
        var obj := timedObjects[i];
        assert obj == objs[i];
        if obj.target.None? {
          continue;
        }
        var shouldBeActive := elapsed >= obj.startTime && elapsed < obj.endTime;
        if obj.target.value.activeSelf != shouldBeActive {
          timedObjects := timedObjects[i := obj.(target := Some(GameObject(shouldBeActive)))];
          calls := calls + 1;
        }
      }
      assert objs[..|objs|] == objs;
      assert timedObjects == ApplyWindow(objs, elapsed);
    }

    /** Switch every assigned target off. */
    method ResetAll()
      modifies this`timedObjects
      ensures timedObjects == Deactivate(old(timedObjects))
    {
      ghost var objs := timedObjects;
      for i := 0 to |timedObjects|
        invariant |timedObjects| == |objs|
        invariant forall j :: 0 <= j < i ==> timedObjects[j] == DeactivateTo(objs[j])
        invariant forall j :: i <= j < |objs| ==> timedObjects[j] == objs[j]
      {
        var obj := timedObjects[i];
        assert obj == objs[i];
        if obj.target.Some? {
          timedObjects := timedObjects[i := obj.(target := Some(GameObject(false)))];
        }
      }
      assert timedObjects == Deactivate(objs);
    }

    method OnDisable()
      modifies this`timedObjects
      ensures timedObjects == Deactivate(old(timedObjects))
    {
      ResetAll();
    }

    /**
     * The timeline with a constant frame time `dt`: frames advance the elapsed time until
     * it passes `totalDuration`, each applying the window rule, then everything is switched
     * off and `onTimelineCompleted` fires.  Returns the final elapsed time and frame count.
     */
    method HandleTimedObjects(dt: real) returns (elapsed: real, frames: nat)
      requires dt > 0.0
      modifies this`timedObjects, this`completedEvents
      ensures elapsed == frames as real * dt
      ensures totalDuration < elapsed
      ensures totalDuration >= 0.0 ==> frames >= 1 && elapsed - dt <= totalDuration
      ensures timedObjects == Deactivate(old(timedObjects))
      ensures completedEvents == old(completedEvents) + 1
    {
      ghost var objs := timedObjects;
      elapsed := 0.0;
      frames := 0;
      while elapsed <= totalDuration
        invariant elapsed == frames as real * dt
        invariant Deactivate(timedObjects) == Deactivate(objs)
        invariant completedEvents == old(completedEvents)
        invariant totalDuration >= 0.0 ==> frames == 0 || elapsed - dt <= totalDuration
        decreases (totalDuration / dt).Floor + 1 - frames
      {
        FramesBelowFloor(frames, dt, totalDuration);
        ghost var before := timedObjects;
        elapsed := elapsed + dt;
        frames := frames + 1;
        var _ := FrameUpdate(elapsed);
        DeactivateForgetsFrame(before, elapsed);
      }
      ResetAll();
      completedEvents := completedEvents + 1;
    }

    /**
     * `Start`: compute the duration, then `StartTimeline`: switch everything off and run the
     * timeline.
     */
    method Start(dt: real) returns (elapsed: real, frames: nat)
      requires dt > 0.0
      modifies this`totalDuration, this`timedObjects, this`completedEvents
      ensures totalDuration == MaxEndTime(old(timedObjects))
      ensures frames >= 1 && elapsed == frames as real * dt
      ensures elapsed - dt <= totalDuration < elapsed
      ensures timedObjects == Deactivate(old(timedObjects))
      ensures completedEvents == old(completedEvents) + 1
    {
      CalculateTotalDuration();
      MaxEndTimeBounds(timedObjects);
      ResetAll();
      ghost var reset := timedObjects;
      elapsed, frames := HandleTimedObjects(dt);
      assert Deactivate(reset) == Deactivate(old(timedObjects));
    }
  }
}
