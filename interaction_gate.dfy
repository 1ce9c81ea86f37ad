/**
 * The `InteractionGate` component: a counter that interaction events raise and lower, and
 * a gate that opens (invoking `OnGateOpened`) once the counter reaches `requiredCount`.
 * While open the gate ignores further events; with `resetAfterInvoke` it closes again at
 * once and the count restarts from zero.  The `OnGateOpened` event is the counter
 * `openedEvents`.
 */
module InteractionGates {
  import opened Integers

  /** The largest value of a C# `int`. */
  const Int32Max: int := 0x7fff_ffff

  /** The gate's mutable state: `currentCount`, `gateOpen` and how often it has opened. */
  datatype Gate = Gate(count: int, open: bool, openedEvents: nat)

  /** The calls a caller can make. */
  datatype Op = Increment | Decrement | Reset

  /** The state of a freshly enabled component. */
  const Initial: Gate := Gate(0, false, 0)

  /** `EvaluateGate`: open (firing once) when the count has reached the target. */
  function Evaluate(g: Gate, requiredCount: int, resetAfterInvoke: bool): Gate
  {
    if g.count >= requiredCount then
      if resetAfterInvoke then Gate(0, false, g.openedEvents + 1)
      else Gate(g.count, true, g.openedEvents + 1)
    else g
  }

  /** `Increment`: ignored while open; otherwise one more, then evaluate. */
  function IncrementStep(g: Gate, requiredCount: int, resetAfterInvoke: bool): Gate
  {
    if g.open then g else Evaluate(g.(count := g.count + 1), requiredCount, resetAfterInvoke)
  }

  /** `Decrement`: ignored while open; otherwise one less, floored at zero. */
  function DecrementStep(g: Gate): Gate
  {
    if g.open then g
    else
      var c := g.count - 1;
      g.(count := if c < 0 then 0 else c)
  }

  /** `ResetGate`: count zero, gate closed, whatever came before. */
  function ResetStep(g: Gate): Gate
  {
    g.(count := 0, open := false)
  }

  function Step(g: Gate, op: Op, requiredCount: int, resetAfterInvoke: bool): Gate
  {
    match op
    case Increment => IncrementStep(g, requiredCount, resetAfterInvoke)
    case Decrement => DecrementStep(g)
    case Reset => ResetStep(g)
  }

  /** The state after the calls `ops`, in order. */
  function Run(g: Gate, ops: seq<Op>, requiredCount: int, resetAfterInvoke: bool): Gate
    decreases |ops|
  {
    if ops == [] then g
    else Run(Step(g, ops[0], requiredCount, resetAfterInvoke), ops[1..], requiredCount, resetAfterInvoke)
  }

  /**
   * What every reachable state satisfies: the count is never negative; a closed gate is
   * below the target (or at zero when the target is not positive); an open gate holds the
   * count that opened it; and a gate that resets after opening is never left open.
   */
  ghost predicate Inv(g: Gate, requiredCount: int, resetAfterInvoke: bool)
  {
    && 0 <= g.count
    && (!g.open ==> g.count <= Max(requiredCount - 1, 0))
    && (g.open ==> !resetAfterInvoke && g.count <= Max(requiredCount, 1))
  }

  lemma InitialInv(requiredCount: int, resetAfterInvoke: bool)
    ensures Inv(Initial, requiredCount, resetAfterInvoke)
  {
  }

  /** Every call keeps the invariant. */
  lemma StepInv(g: Gate, op: Op, requiredCount: int, resetAfterInvoke: bool)
    requires Inv(g, requiredCount, resetAfterInvoke)
    ensures Inv(Step(g, op, requiredCount, resetAfterInvoke), requiredCount, resetAfterInvoke)
  {
  }

  /** Any run of calls keeps the invariant. */
  lemma {:induction false} RunInv(g: Gate, ops: seq<Op>, requiredCount: int, resetAfterInvoke: bool)
    requires Inv(g, requiredCount, resetAfterInvoke)
    ensures Inv(Run(g, ops, requiredCount, resetAfterInvoke), requiredCount, resetAfterInvoke)
    decreases |ops|
  {
    if ops != [] {
      StepInv(g, ops[0], requiredCount, resetAfterInvoke);
      RunInv(Step(g, ops[0], requiredCount, resetAfterInvoke), ops[1..], requiredCount, resetAfterInvoke);
    }
  }

  /**
   * With a target that fits an `int`, no reachable `currentCount++` overflows: the count
   * stays between zero and the larger of one and the target.
   */
  lemma {:induction false} ReachableCountFitsInt32(ops: seq<Op>, requiredCount: int, resetAfterInvoke: bool)
    requires requiredCount <= Int32Max
    ensures var g := Run(Initial, ops, requiredCount, resetAfterInvoke);
            && 0 <= g.count <= Max(requiredCount, 1)
            && (!g.open ==> g.count + 1 <= Int32Max)
  {
    InitialInv(requiredCount, resetAfterInvoke);
    RunInv(Initial, ops, requiredCount, resetAfterInvoke);
  }

  /** While the gate is open, `Increment` and `Decrement` change nothing. */
  lemma OpenGateIgnoresEvents(g: Gate, requiredCount: int, resetAfterInvoke: bool)
    requires g.open
    ensures IncrementStep(g, requiredCount, resetAfterInvoke) == g
    ensures DecrementStep(g) == g
  {
  }

  /** `Decrement` never lets the count fall below zero. */
  lemma DecrementNonNegative(g: Gate)
    requires g.count >= 0
    ensures DecrementStep(g).count >= 0
    ensures !g.open ==> DecrementStep(g).count == Max(g.count - 1, 0)
  {
  }

  /**
   * On a closed gate, `Increment` fires `OnGateOpened` exactly once if the raised count
   * reaches the target and not at all otherwise; when it does not fire, the count is one
   * higher and the gate stays closed.
   */
  lemma IncrementFiresIffTargetReached(g: Gate, requiredCount: int, resetAfterInvoke: bool)
    requires !g.open
    ensures var r := IncrementStep(g, requiredCount, resetAfterInvoke);
            && (r.openedEvents == g.openedEvents + 1 <==> g.count + 1 >= requiredCount)
            && (r.openedEvents == g.openedEvents <==> g.count + 1 < requiredCount)
            && (g.count + 1 < requiredCount ==> r == g.(count := g.count + 1))
  {
  }

  /** `Decrement` and `ResetGate` never open the gate and never fire. */
  lemma OnlyIncrementOpens(g: Gate)
    ensures !g.open ==> !DecrementStep(g).open
    ensures DecrementStep(g).openedEvents == g.openedEvents
    ensures !ResetStep(g).open && ResetStep(g).count == 0 && ResetStep(g).openedEvents == g.openedEvents
  {
  }

  /**
   * Opening with `resetAfterInvoke` leaves the count at zero and the gate closed; without
   * it the gate stays latched open with the count that opened it.
   */
  lemma OpeningOutcome(g: Gate, requiredCount: int, resetAfterInvoke: bool)
    requires !g.open && g.count + 1 >= requiredCount
    ensures var r := IncrementStep(g, requiredCount, resetAfterInvoke);
            && (resetAfterInvoke ==> r.count == 0 && !r.open)
            && (!resetAfterInvoke ==> r.count == g.count + 1 && r.open)
  {
  }

  /** Without `Reset` calls, a latched gate (no auto-reset) stays exactly as it is. */
  lemma {:induction false} LatchedGateStaysOpen(g: Gate, ops: seq<Op>, requiredCount: int)
    requires g.open && Reset !in ops
    ensures Run(g, ops, requiredCount, false) == g
    decreases |ops|
  {
    if ops != [] {
      assert ops[0] in ops;
      assert Step(g, ops[0], requiredCount, false) == g;
      assert forall k :: 0 <= k < |ops[1..]| ==> ops[1..][k] == ops[k + 1];
      LatchedGateStaysOpen(g, ops[1..], requiredCount);
    }
  }

  /** With auto-reset every call leaves the gate closed, so no call is ever ignored. */
  lemma {:induction false} AutoResetNeverStaysOpen(g: Gate, ops: seq<Op>, requiredCount: int)
    requires !g.open
    ensures !Run(g, ops, requiredCount, true).open
    decreases |ops|
  {
    if ops != [] {
      AutoResetNeverStaysOpen(Step(g, ops[0], requiredCount, true), ops[1..], requiredCount);
    }
  }

  /** No call fires `OnGateOpened` more than once, and the count of events never falls. */
  lemma StepFiresAtMostOnce(g: Gate, op: Op, requiredCount: int, resetAfterInvoke: bool)
    ensures var r := Step(g, op, requiredCount, resetAfterInvoke);
            g.openedEvents <= r.openedEvents <= g.openedEvents + 1
  {
  }

  /** Without auto-reset and without `Reset` calls, the gate opens at most once. */
  lemma {:induction false} LatchOpensAtMostOnce(g: Gate, ops: seq<Op>, requiredCount: int)
    requires Reset !in ops
    ensures var r := Run(g, ops, requiredCount, false);
            && g.openedEvents <= r.openedEvents <= g.openedEvents + 1
            && (g.open ==> r.openedEvents == g.openedEvents)
    decreases |ops|
  {
    if ops != [] {
      assert ops[0] in ops;
      assert forall k :: 0 <= k < |ops[1..]| ==> ops[1..][k] == ops[k + 1];
      var h := Step(g, ops[0], requiredCount, false);
      if g.open {
        assert h == g;
        LatchedGateStaysOpen(g, ops[1..], requiredCount);
      } else if h.open {
        LatchedGateStaysOpen(h, ops[1..], requiredCount);
      } else {
        assert h.openedEvents == g.openedEvents;
        LatchOpensAtMostOnce(h, ops[1..], requiredCount);
      }
    }
  }

  class InteractionGate {
    const requiredCount: int
    const resetAfterInvoke: bool
    var currentCount: int
    var gateOpen: bool
    /** How many times `OnGateOpened` has been invoked. */
    var openedEvents: nat

    function State(): Gate
      reads this
    {
      Gate(currentCount, gateOpen, openedEvents)
    }

    ghost predicate Valid()
      reads this
    {
      Inv(State(), requiredCount, resetAfterInvoke)
    }

    /** A gate as enabled in a scene; the inspector defaults are 1 and `true`. */
    constructor (requiredCount: int, resetAfterInvoke: bool)
      ensures Valid()
      ensures this.requiredCount == requiredCount && this.resetAfterInvoke == resetAfterInvoke
      ensures State() == Initial
    {
      this.requiredCount := requiredCount;
      this.resetAfterInvoke := resetAfterInvoke;
      currentCount := 0;
      gateOpen := false;
      openedEvents := 0;
    }

    method Increment()
      requires Valid()
      modifies this
      ensures Valid()
      ensures State() == IncrementStep(old(State()), requiredCount, resetAfterInvoke)
    {
      if gateOpen {
        return;
      }
      currentCount := currentCount + 1;
      EvaluateGate();
    }

    method Decrement()
      requires Valid()
      modifies this
      ensures Valid()
      ensures State() == DecrementStep(old(State()))
    {
      if gateOpen {
        return;
      }
      currentCount := currentCount - 1;
      if currentCount < 0 {
        currentCount := 0;
      }
    }

    /** Called by `Increment` right after raising the count. */
    method EvaluateGate()
      modifies this
      ensures State() == Evaluate(old(State()), requiredCount, resetAfterInvoke)
    {
      if currentCount >= requiredCount {
        gateOpen := true;
        openedEvents := openedEvents + 1;
        if resetAfterInvoke {
          ResetGate();
        }
      }
    }

    method ResetGate()
      modifies this
      ensures State() == ResetStep(old(State()))
    {
      currentCount := 0;
      gateOpen := false;
    }

    method GetCurrentCount() returns (r: int)
      requires Valid()
      ensures r == currentCount && r >= 0
    {
      r := currentCount;
    }
  }
}
