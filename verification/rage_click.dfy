/** The rage-click composer: a sliding window over the timestamps of the last clicks.

    Two copies exist in the repository. The one in `src/producers/insights.ts` takes the
    downstream push as its setup's only parameter and emits `'rageClick'`. The one in
    `src/composers/index.ts`, which no other file imports, declares its setup as
    `(_, push)` and would emit `'RageClick'`; but `resolve` calls a composer's setup with
    the push as its only argument, so that copy's `push` is `undefined`, and the click
    that should emit throws a `TypeError` before the buffer is cleared. */
module RageClick {
  import opened Results

  /** `{ type, args: [] }`: the only event the composer emits. */
  datatype Signal = Signal(kind: string)

  const InsightsKind: string := "rageClick"
  const ComposersKind: string := "RageClick"

  /** Three clicks closer together than this many milliseconds make a rage click.
      Timestamps are the click events' `timeStamp`s, fractional milliseconds. */
  const Window: real := 300.0

  /** The timestamps a click leaves in the buffer, and whether it emitted. */
  datatype Step = Step(dates: seq<real>, emitted: bool)

  /** One click at time `t` on a buffer holding `dates`. */
  function Click(dates: seq<real>, t: real): (r: Step)
    requires |dates| <= 3
    ensures |r.dates| <= 3
    ensures var all := dates + [t];
            r.emitted <==> |all| >= 3 && t - all[|all| - 3] < Window
    ensures r.emitted ==> r.dates == []
    ensures !r.emitted ==>
              var all := dates + [t];
              |r.dates| == (if |all| > 3 then 3 else |all|) && r.dates == all[|all| - |r.dates|..]
  {
    var pushed := dates + [t];
    var kept := if |pushed| > 3 then pushed[1..] else pushed;
    if |kept| == 3 && kept[2] - kept[0] < Window then Step(kept[3..], true) else Step(kept, false)
  }

  /** One click at time `t` in the copy whose `push` is `undefined`: the same window,
      but `push(...)` throws before `dates.splice(0, 3)`, so the buffer is never
      cleared. `r.emitted` says that the click called `push`, and so threw. */
  function ClickWithoutPush(dates: seq<real>, t: real): (r: Step)
    requires |dates| <= 3
    ensures r.emitted == Click(dates, t).emitted
    ensures !r.emitted ==> r == Click(dates, t)
    ensures |r.dates| == (if |dates| < 3 then |dates| + 1 else 3)
    ensures r.dates == (dates + [t])[|dates| + 1 - |r.dates|..]
  {
    var pushed := dates + [t];
    var kept := if |pushed| > 3 then pushed[1..] else pushed;
    Step(kept, |kept| == 3 && kept[2] - kept[0] < Window)
  }

  /** Three quick clicks make the copy without a push throw and keep all three
      timestamps, so a fourth click within the window of the second throws again; the
      copy with a push emits once and the fourth click starts a new window. */
  lemma QuickClicksThrowAgain(a: real, b: real, c: real, d: real)
    requires c - a < Window && d - b < Window
    ensures ClickWithoutPush([a, b], c) == Step([a, b, c], true)
    ensures ClickWithoutPush([a, b, c], d) == Step([b, c, d], true)
    ensures Click([a, b], c) == Step([], true) && Click([], d) == Step([d], false)
  {
    assert [a, b] + [c] == [a, b, c];
    assert ClickWithoutPush([a, b], c) == Step([a, b, c], true);
    assert ([a, b, c] + [d])[1..] == [b, c, d];
    assert ClickWithoutPush([a, b, c], d) == Step([b, c, d], true);
    assert Click([a, b], c) == Step([], true);
    assert [] + [d] == [d];
  }

  /** The buffer after a series of clicks and the number of rage clicks emitted. */
  function Run(dates: seq<real>, ts: seq<real>): (r: (seq<real>, nat))
    requires |dates| <= 3
    ensures |r.0| <= 3
    decreases |ts|
  {
    if |ts| == 0 then (dates, 0)
    else
      var s := Click(dates, ts[0]);
      var rest := Run(s.dates, ts[1..]);
      (rest.0, rest.1 + (if s.emitted then 1 else 0))
  }

  /** Every rage click uses up three clicks: from a buffer of `|dates|` timestamps,
      `n` clicks emit at most `(|dates| + n) / 3` rage clicks. */
  lemma {:induction false} RunUsesThreeClicks(dates: seq<real>, ts: seq<real>)
    requires |dates| <= 3
    ensures 3 * Run(dates, ts).1 + |Run(dates, ts).0| <= |dates| + |ts|
    decreases |ts|
  {
    if |ts| > 0 {
      var s := Click(dates, ts[0]);
      RunUsesThreeClicks(s.dates, ts[1..]);
    }
  }

  /** Three clicks spanning less than the window, starting from an empty buffer, emit
      exactly one rage click, on the third, and leave the buffer empty. */
  lemma ThreeQuickClicks(a: real, b: real, c: real)
    requires c - a < Window
    ensures Click([], a) == Step([a], false)
    ensures Click([a], b) == Step([a, b], false)
    ensures Click([a, b], c) == Step([], true)
    ensures Run([], [a, b, c]) == ([], 1)
  {
    assert [a, b, c][1..] == [b, c] && [b, c][1..] == [c] && [c][1..] == [];
    assert Run([a, b], [c]) == ([], 1);
    assert Run([a], [b, c]) == ([], 1);
  }

  /** After an emission the buffer is empty, so the next two clicks emit nothing. */
  lemma TwoClicksAfterEmission(dates: seq<real>, t: real, u: real, v: real)
    requires |dates| <= 3 && Click(dates, t).emitted
    ensures var after := Click(dates, t).dates;
            after == [] && !Click(after, u).emitted && !Click(Click(after, u).dates, v).emitted
  {
  }

  /** The function a rage-click composer's setup returns, with its `dates` buffer.
      `hasPush` tells the copy that received the downstream push from the one whose
      `push` parameter is `undefined`. */
  class Detector {
    const kind: string
    const hasPush: bool
    var dates: seq<real>

    ghost predicate Valid()
      reads this
    {
      |dates| <= 3
    }

    constructor (kind: string, hasPush: bool)
      ensures Valid() && this.kind == kind && this.hasPush == hasPush && dates == []
    {
      this.kind := kind;
      this.hasPush := hasPush;
      dates := [];
    }

    /** Handles a click at `timeStamp`. With a push, at most one event comes out, always
        `kind`; without one, the click that would emit throws instead. */
    method OnClick(timeStamp: real) returns (out: Result<Option<Signal>, TypeError>)
      requires Valid()
      modifies this
      ensures Valid()
      ensures hasPush ==>
                && dates == Click(old(dates), timeStamp).dates && out.Ok?
                && (out.value.Some? <==> Click(old(dates), timeStamp).emitted)
                && (out.value.Some? ==> out.value.value == Signal(kind))
      ensures !hasPush ==>
                && dates == ClickWithoutPush(old(dates), timeStamp).dates
                && (out.Err? <==> Click(old(dates), timeStamp).emitted)
                && (out.Ok? ==> out.value.None?)
    {
      dates := dates + [timeStamp];
      if |dates| > 3 {
        dates := dates[1..];
      }
      if |dates| == 3 && dates[2] - dates[0] < Window {
        if !hasPush {
          return Err(UndefinedCalled);
        }
        out := Ok(Some(Signal(kind)));
        dates := dates[3..];
      } else {
        out := Ok(None);
      }
    }
  }
}
