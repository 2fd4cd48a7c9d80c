/** `ThrottledMouseMoveProducer`: forwards a mouse move only when no timer is pending,
    and arms a 400 ms timer when it does. The host timer is not modelled: its expiry is
    the explicit method `Expire`. */
module Throttle {
  import opened Results

  /** The delay `setTimeout` is armed with, in milliseconds. */
  const Delay: int := 400

  /** What happens to the throttle: a mouse move at time `now`, or the timer firing. */
  datatype Input<E> = Move(e: E, now: int) | Fire

  /** Whether the timer is pending after `input`, and the event forwarded, if any. */
  datatype Step<E> = Step(pending: bool, out: Option<E>)

  function Next<E>(pending: bool, input: Input<E>): (r: Step<E>)
    ensures input.Fire? ==> r == Step(false, None)
    ensures input.Move? && !pending ==> r == Step(true, Some(input.e))
    ensures input.Move? && pending ==> r == Step(true, None)
  {
    match input
    case Fire => Step(false, None)
    case Move(e, _) => if pending then Step(true, None) else Step(true, Some(e))
  }

  /** The events forwarded over a series of inputs. */
  function Forwarded<E>(pending: bool, inputs: seq<Input<E>>): (r: seq<E>)
    decreases |inputs|
  {
    if |inputs| == 0 then []
    else
      var s := Next(pending, inputs[0]);
      (if s.out.Some? then [s.out.value] else []) + Forwarded(s.pending, inputs[1..])
  }

  /** Within one armed window (no timer expiry among the inputs) at most one event is
      forwarded, and none when the timer is already pending. */
  lemma {:induction false} OnePerWindow<E>(pending: bool, inputs: seq<Input<E>>)
    requires forall k :: 0 <= k < |inputs| ==> inputs[k].Move?
    ensures |Forwarded(pending, inputs)| <= (if pending then 0 else 1)
    ensures !pending && |inputs| > 0 ==> Forwarded(pending, inputs) == [inputs[0].e]
    decreases |inputs|
  {
    if |inputs| > 0 {
      OnePerWindow(true, inputs[1..]);
    }
  }

  /** Every forwarded event is one of the inputs, unchanged. */
  lemma {:induction false} ForwardedUnchanged<E>(pending: bool, inputs: seq<Input<E>>, k: nat)
    requires k < |Forwarded(pending, inputs)|
    ensures exists j :: 0 <= j < |inputs| && inputs[j].Move? && inputs[j].e == Forwarded(pending, inputs)[k]
    decreases |inputs|
  {
    var s := Next(pending, inputs[0]);
    var head := if s.out.Some? then [s.out.value] else [];
    if k < |head| {
      assert inputs[0].Move? && inputs[0].e == Forwarded(pending, inputs)[k];
    } else {
      ForwardedUnchanged(s.pending, inputs[1..], k - |head|);
      var j :| 0 <= j < |inputs[1..]| && inputs[1..][j].Move? && inputs[1..][j].e == Forwarded(s.pending, inputs[1..])[k - |head|];
      assert inputs[j + 1].Move? && inputs[j + 1].e == Forwarded(pending, inputs)[k];
    }
  }

  /** The handler the composer's setup returns, with its `timer` variable. */
  class ThrottledMouseMove<E> {
    /** When the pending timer fires, if one is pending. */
    var timer: Option<int>

    constructor ()
      ensures timer == None
    {
      timer := None;
    }

    /** A mouse move at time `now`. */
    method OnMove(e: E, now: int) returns (out: Option<E>)
      modifies this
      ensures Step(timer.Some?, out) == Next(old(timer).Some?, Move(e, now))
      ensures old(timer).None? ==> timer == Some(now + Delay)
      ensures old(timer).Some? ==> timer == old(timer)
    {
      if timer.None? {
        timer := Some(now + Delay);
        out := Some(e);
      } else {
        out := None;
      }
    }

    /** The timer callback: `timer = null`, which `Next` models as `Fire`. */
    method Expire()
      modifies this
      ensures timer == None
    {
      timer := None;
    }
  }
}
