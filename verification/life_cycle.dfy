/** The tracking life cycle: two independent subscriber lists, `onStart` and `onStop`,
    provided to descendant modules through the scope tree. A hook is an opaque function,
    identified by a number; calling it is recorded in a log shared by both lists. */
module LifeCycle {
  import opened Results
  import opened JsArrays
  import opened ScopeTree
  import opened ScopeRuntime

  /** The token `createContext<LifeCycle>()` creates. */
  const TrackingLifeCycleToken: Token := 1

  /** What the hooks of a subscriber list look like after the unsubscribe closure for
      `h` has run: `hooks.splice(hooks.indexOf(h), 1)`. */
  function Unsubscribed(hooks: seq<Hook>, h: Hook): (r: seq<Hook>)
    ensures h in hooks ==>
              var i := IndexOf(hooks, h);
              r == hooks[..i] + hooks[i + 1..] && h !in hooks[..i]
              && multiset(r) == multiset(hooks) - multiset{h}
    ensures h !in hooks && |hooks| > 0 ==> r == hooks[..|hooks| - 1]
    ensures |hooks| == 0 ==> r == []
  {
    var r := Splice1(hooks, IndexOf(hooks, h));
    if h in hooks then
      var i := IndexOf(hooks, h);
      assert hooks == hooks[..i] + [h] + hooks[i + 1..];
      r
    else
      r
  }

  /** Subscribing a hook that is not yet in the list and then unsubscribing it gives
      back the list as it was. */
  lemma OnThenUnsubscribe(hooks: seq<Hook>, h: Hook)
    requires h !in hooks
    ensures Unsubscribed(hooks + [h], h) == hooks
  {
    assert (hooks + [h])[..|hooks|] == hooks;
  }

  /** The calls made to hooks, in order. */
  class HookLog {
    var calls: seq<Hook>

    constructor ()
      ensures calls == []
    {
      calls := [];
    }
  }

  /** `subscriber(hooks)`: a list of hooks with `on` and `emit`. */
  class Subscriber {
    var hooks: seq<Hook>
    const log: HookLog

    constructor (log: HookLog)
      ensures hooks == [] && this.log == log
    {
      hooks := [];
      this.log := log;
    }

    /** `on(hook)`: appends the hook; the unsubscribe closure it returns is `Unsubscribe(hook)`. */
    method On(h: Hook)
      modifies this
      ensures hooks == old(hooks) + [h]
    {
      hooks := hooks + [h];
    }

    /** The unsubscribe closure `on(h)` returned. */
    method Unsubscribe(h: Hook)
      modifies this
      ensures hooks == Unsubscribed(old(hooks), h)
    {
      var index := IndexOf(hooks, h);
      hooks := Splice1(hooks, index);
    }

    /** `emit()`: `callEvery(hooks)`. */
    method Emit()
      modifies log
      ensures log.calls == old(log.calls) + hooks
    {
      CallEvery(log, hooks);
    }
  }

  /** `callEvery(hooks)`: calls each hook in order. */
  method CallEvery(log: HookLog, hooks: seq<Hook>)
    modifies log
    ensures log.calls == old(log.calls) + hooks
  {
    for k := 0 to |hooks|
      invariant log.calls == old(log.calls) + hooks[..k]
    {
      log.calls := log.calls + [hooks[k]];
      assert hooks[..k + 1] == hooks[..k] + [hooks[k]];
    }
    assert hooks[..|hooks|] == hooks;
  }

  /** The object `setupTrackingLifeCycle` provides: `{ onStart, onStop }`, and the
      `start`/`stop` functions it returns, which emit the matching list. */
  class TrackingLifeCycle {
    const starts: Subscriber
    const stops: Subscriber

    ghost predicate Valid()
      reads this
    {
      starts != stops && starts.log == stops.log
    }

    constructor (log: HookLog)
      ensures Valid() && fresh(starts) && fresh(stops)
      ensures starts.hooks == [] && stops.hooks == [] && starts.log == log
    {
      starts := new Subscriber(log);
      stops := new Subscriber(log);
    }

    /** `start()`: runs the `onStart` hooks only, and changes neither list. */
    method Start()
      requires Valid()
      modifies starts.log
      ensures starts.log.calls == old(starts.log.calls) + starts.hooks
      ensures starts.hooks == old(starts.hooks) && stops.hooks == old(stops.hooks)
    {
      starts.Emit();
    }

    /** `stop()`: runs the `onStop` hooks only, and changes neither list. */
    method Stop()
      requires Valid()
      modifies stops.log
      ensures stops.log.calls == old(stops.log.calls) + stops.hooks
      ensures starts.hooks == old(starts.hooks) && stops.hooks == old(stops.hooks)
    {
      stops.Emit();
    }

    /** `onStart(hook)`: changes the start list only. */
    method OnStart(h: Hook)
      requires Valid()
      modifies starts
      ensures starts.hooks == old(starts.hooks) + [h] && stops.hooks == old(stops.hooks)
    {
      starts.On(h);
    }

    /** `onStop(hook)`: changes the stop list only. */
    method OnStop(h: Hook)
      requires Valid()
      modifies stops
      ensures stops.hooks == old(stops.hooks) + [h] && starts.hooks == old(starts.hooks)
    {
      stops.On(h);
    }
  }

  /** `setupTrackingLifeCycle()`: creates both lists and provides them in the active
      scope. */
  method SetupTrackingLifeCycle(rt: Runtime<TrackingLifeCycle>, log: HookLog) returns (r: Result<TrackingLifeCycle, ScopeError>)
    requires rt.Valid()
    modifies rt
    ensures rt.Valid() && rt.current == old(rt.current) && rt.calls == old(rt.calls)
    ensures rt.current.None? ==> r == Err(ContextNotAvailable) && rt.scopes == old(rt.scopes)
    ensures rt.current.Some? ==>
              && r.Ok? && fresh(r.value.starts) && fresh(r.value.stops) && r.value.Valid()
              && r.value.starts.hooks == [] && r.value.stops.hooks == []
              && rt.scopes == old(rt.scopes)[rt.current.value := Apply(old(rt.scopes)[rt.current.value], ProvideCall(TrackingLifeCycleToken, r.value))]
  {
    var lc := new TrackingLifeCycle(log);
    var p := rt.Provide(TrackingLifeCycleToken, lc);
    if p.Err? {
      return Err(p.error);
    }
    r := Ok(lc);
  }

  /** `useTrackingLifeCycle()`: the lists of the nearest ancestor scope that set them
      up; it fails when there is none. */
  method UseTrackingLifeCycle(rt: Runtime<TrackingLifeCycle>) returns (r: Result<TrackingLifeCycle, ScopeError>)
    requires rt.Valid()
    ensures rt.current.None? ==> r == Err(ContextNotAvailable)
    ensures rt.current.Some? ==>
              (r == Err(InjectableNotAvailable) <==>
                 Lookup(rt.scopes, rt.scopes[rt.current.value].parent, TrackingLifeCycleToken).None?)
    ensures r.Ok? ==>
              rt.current.Some? &&
              Lookup(rt.scopes, rt.scopes[rt.current.value].parent, TrackingLifeCycleToken) == Some(r.value)
  {
    r := rt.Inject(TrackingLifeCycleToken);
  }
}
