/**
 * The `TriggerSensor` component: a one-shot sensor that counts the colliders with the
 * required tag entering its trigger volume and invokes `onSensorTriggered` the first time
 * the count reaches `requiredHits`.  A collider is reduced to its tag; the event is the
 * counter `triggeredEvents`.
 */
module TriggerSensors {
  import opened Integers

  /** The sensor's mutable state: `currentHits`, `triggered` and how often it has fired. */
  datatype Sensor = Sensor(hits: int, triggered: bool, triggeredEvents: nat)

  const Initial: Sensor := Sensor(0, false, 0)

  /** `OnTriggerEnter` for a collider tagged `tag`, with `Trigger` inlined. */
  function Enter(s: Sensor, tag: string, requiredTag: string, requiredHits: int): Sensor
  {
    if s.triggered then s
    else if tag != requiredTag then s
    else
      var h := s.hits + 1;
      if h >= requiredHits then Sensor(h, true, s.triggeredEvents + 1)
      else s.(hits := h)
  }

  /** The state after colliders tagged `tags` enter, in order. */
  function Run(s: Sensor, tags: seq<string>, requiredTag: string, requiredHits: int): Sensor
    decreases |tags|
  {
    if tags == [] then s
    else Run(Enter(s, tags[0], requiredTag, requiredHits), tags[1..], requiredTag, requiredHits)
  }

  /** How many of `tags` are `requiredTag`. */
  function CountMatching(tags: seq<string>, requiredTag: string): nat
    decreases |tags|
  {
    if tags == [] then 0
    else (if tags[0] == requiredTag then 1 else 0) + CountMatching(tags[1..], requiredTag)
  }

  /** The number of matching entries that fires the sensor: `requiredHits`, but at least one. */
  function Threshold(requiredHits: int): int { Max(1, requiredHits) }

  /**
   * What every reachable state satisfies: the hits lie between zero and the threshold,
   * stay below it until the sensor fires, and the event has fired once if the sensor is
   * triggered and never otherwise.
   */
  ghost predicate Inv(s: Sensor, requiredHits: int)
  {
    && 0 <= s.hits <= Threshold(requiredHits)
    && (!s.triggered ==> s.hits < Threshold(requiredHits))
    && s.triggeredEvents == (if s.triggered then 1 else 0)
  }

  lemma InitialInv(requiredHits: int)
    ensures Inv(Initial, requiredHits)
  {
  }

  lemma EnterInv(s: Sensor, tag: string, requiredTag: string, requiredHits: int)
    requires Inv(s, requiredHits)
    ensures Inv(Enter(s, tag, requiredTag, requiredHits), requiredHits)
  {
  }

  lemma {:induction false} RunInv(s: Sensor, tags: seq<string>, requiredTag: string, requiredHits: int)
    requires Inv(s, requiredHits)
    ensures Inv(Run(s, tags, requiredTag, requiredHits), requiredHits)
    decreases |tags|
  {
    if tags != [] {
      EnterInv(s, tags[0], requiredTag, requiredHits);
      RunInv(Enter(s, tags[0], requiredTag, requiredHits), tags[1..], requiredTag, requiredHits);
    }
  }

  /** Over the sensor's lifetime `onSensorTriggered` fires at most once. */
  lemma FiresAtMostOnce(tags: seq<string>, requiredTag: string, requiredHits: int)
    ensures Run(Initial, tags, requiredTag, requiredHits).triggeredEvents <= 1
    ensures Run(Initial, tags, requiredTag, requiredHits).hits <= Max(1, requiredHits)
  {
    InitialInv(requiredHits);
    RunInv(Initial, tags, requiredTag, requiredHits);
  }

  /** Once triggered, further entries change nothing. */
  lemma {:induction false} TriggeredIgnoresEntries(s: Sensor, tags: seq<string>, requiredTag: string, requiredHits: int)
    requires s.triggered
    ensures Run(s, tags, requiredTag, requiredHits) == s
    decreases |tags|
  {
    if tags != [] {
      TriggeredIgnoresEntries(Enter(s, tags[0], requiredTag, requiredHits), tags[1..], requiredTag, requiredHits);
    }
  }

  /**
   * One entry on an untriggered sensor: a mismatching tag changes nothing, a matching tag
   * adds exactly one hit, and the event fires exactly when the raised count reaches
   * `requiredHits`.
   */
  lemma EnterEffect(s: Sensor, tag: string, requiredTag: string, requiredHits: int)
    requires !s.triggered
    ensures tag != requiredTag ==> Enter(s, tag, requiredTag, requiredHits) == s
    ensures tag == requiredTag ==> Enter(s, tag, requiredTag, requiredHits).hits == s.hits + 1
    ensures Enter(s, tag, requiredTag, requiredHits).triggeredEvents == s.triggeredEvents + 1
            <==> tag == requiredTag && s.hits + 1 >= requiredHits
    ensures Enter(s, tag, requiredTag, requiredHits).triggered
            <==> tag == requiredTag && s.hits + 1 >= requiredHits
  {
  }

  /**
   * The sensor against a reference count: after any sequence of entries it is triggered
   * exactly when at least `Threshold(requiredHits)` of them carried the required tag, and
   * `currentHits` is the number of those, capped at the threshold.
   */
  lemma {:induction false} RunMatchesCount(tags: seq<string>, requiredTag: string, requiredHits: int)
    ensures var s := Run(Initial, tags, requiredTag, requiredHits);
            && (s.triggered <==> CountMatching(tags, requiredTag) >= Threshold(requiredHits))
            && s.hits == Min(CountMatching(tags, requiredTag), Threshold(requiredHits))
  {
    RunFromCount(0, tags, requiredTag, requiredHits);
  }

  /** `RunMatchesCount` from an untriggered sensor that already holds `n` hits. */
  lemma {:induction false} RunFromCount(n: int, tags: seq<string>, requiredTag: string, requiredHits: int)
    requires 0 <= n < Threshold(requiredHits)
    ensures var s := Run(Sensor(n, false, 0), tags, requiredTag, requiredHits);
            && (s.triggered <==> n + CountMatching(tags, requiredTag) >= Threshold(requiredHits))
            && s.hits == Min(n + CountMatching(tags, requiredTag), Threshold(requiredHits))
    decreases |tags|
  {
    if tags != [] {
      var s := Sensor(n, false, 0);
      var h := Enter(s, tags[0], requiredTag, requiredHits);
      if tags[0] != requiredTag {
        RunFromCount(n, tags[1..], requiredTag, requiredHits);
      } else if n + 1 >= Threshold(requiredHits) {
        assert h.triggered && h.hits == n + 1;
        TriggeredIgnoresEntries(h, tags[1..], requiredTag, requiredHits);
      } else {
        assert h == Sensor(n + 1, false, 0);
        RunFromCount(n + 1, tags[1..], requiredTag, requiredHits);
      }
    }
  }

  class TriggerSensor {
    const requiredTag: string
    const requiredHits: int
    var currentHits: int
    var triggered: bool
    /** How many times `onSensorTriggered` has been invoked. */
    var triggeredEvents: nat

    function State(): Sensor
      reads this
    {
      Sensor(currentHits, triggered, triggeredEvents)
    }

    ghost predicate Valid()
      reads this
    {
      Inv(State(), requiredHits)
    }

    /** A sensor as placed in a scene; the inspector defaults are `"Player"` and 1. */
    constructor (requiredTag: string, requiredHits: int)
      ensures Valid()
      ensures this.requiredTag == requiredTag && this.requiredHits == requiredHits
      ensures State() == Initial
    {
      this.requiredTag := requiredTag;
      this.requiredHits := requiredHits;
      currentHits := 0;
      triggered := false;
      triggeredEvents := 0;
    }

    /** A collider tagged `tag` enters the trigger volume. */
    method OnTriggerEnter(tag: string)
      requires Valid()
      modifies this
      ensures Valid()
      ensures State() == Enter(old(State()), tag, requiredTag, requiredHits)
    {
      if triggered {
        return;
      }
      if tag != requiredTag {
        return;
      }
      currentHits := currentHits + 1;
      if currentHits >= requiredHits {
        Trigger();
      }
    }

    method Trigger()
      modifies this
      ensures currentHits == old(currentHits) && triggered
      ensures triggeredEvents == old(triggeredEvents) + 1
    {
      triggered := true;
      triggeredEvents := triggeredEvents + 1;
    }
  }
}
