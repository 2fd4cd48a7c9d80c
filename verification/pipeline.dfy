/** `createPipeline`: the registry, the pipeline context, and the `start` / `stop` /
    `suspend` lifecycle over the caches the resolver fills.

    The module-level `current` context is a `ContextSlot` shared by all pipelines. What a
    setup, teardown or stop listener does when it runs is opaque: the model records each
    call in the caches' log, in order. */
module TrackingPipeline {
  import opened Results
  import opened JsArrays
  import opened PipelineGraph
  import opened Registry
  import opened Resolver
  import Rescheduler

  /** A `PipelineContextKey` (a fresh symbol). */
  type Key = nat

  /** The calls a walk over some entries makes before it completes or meets an entry
      that is not a function (a `TypeError`). */
  datatype Walk = Walk(calls: seq<Call>, complete: bool)

  /** `entries.filter(s => s.type !== 'transformer')`. */
  function SourcesOf(g: Graph, entries: seq<NodeId>): (r: seq<NodeId>)
    ensures forall n :: n in r <==> n in entries && n < |g| && !g[n].Transformer?
  {
    Filter(entries, (n: NodeId) => n < |g| && !g[n].Transformer?)
  }

  /** `entries.filter(s => s.type === 'transformer')`. */
  function TransformersIn(g: Graph, entries: seq<NodeId>): (r: seq<NodeId>)
    ensures forall n :: n in r <==> n in entries && n < |g| && g[n].Transformer?
  {
    Filter(entries, (n: NodeId) => n < |g| && g[n].Transformer?)
  }

  /** `for (const [item, stop] of inputs) if (item.type === 'producer') stop()`: the
      teardowns of the cached producers in insertion order; a producer cached as null
      stops the walk. */
  function Teardowns(g: Graph, inputs: map<NodeId, Option<nat>>, order: seq<NodeId>): (w: Walk)
    requires forall k :: 0 <= k < |order| ==> order[k] in inputs && order[k] < |g|
    ensures forall k :: 0 <= k < |w.calls| ==> w.calls[k].Teardown?
  {
    if |order| == 0 then Walk([], true)
    else
      var w := Teardowns(g, inputs, order[..|order| - 1]);
      var n := order[|order| - 1];
      if !w.complete || !g[n].Producer? then w
      else if inputs[n].None? then Walk(w.calls, false)
      else Walk(w.calls + [Teardown(inputs[n].value)], true)
  }

  /** `producers.map(p => inputs.get(p)())`: a producer that is not cached, or cached as
      null, stops the walk. */
  function Suspensions(inputs: map<NodeId, Option<nat>>, producers: seq<NodeId>): Walk {
    if |producers| == 0 then Walk([], true)
    else
      var w := Suspensions(inputs, producers[..|producers| - 1]);
      var p := producers[|producers| - 1];
      if !w.complete then w
      else if p !in inputs || inputs[p].None? then Walk(w.calls, false)
      else Walk(w.calls + [Teardown(inputs[p].value)], true)
  }

  /** `suspended.forEach(restore => restore())`: each producer's setup is called again
      with its cached output (`undefined` once the output is gone). */
  function Restores(outputs: map<NodeId, Hook>, producers: seq<NodeId>): (r: seq<Call>)
    ensures |r| == |producers|
  {
    if |producers| == 0 then []
    else
      var p := producers[|producers| - 1];
      Restores(outputs, producers[..|producers| - 1])
        + [Setup(p, if p in outputs then Some(outputs[p]) else None)]
  }

  /** `while (stopListeners.length) stopListeners.pop()()`: the listeners, newest first. */
  function Popped(listeners: seq<nat>): (r: seq<Call>)
    ensures |r| == |listeners|
    ensures forall k :: 0 <= k < |r| ==> r[k] == StopListener(listeners[|listeners| - 1 - k])
  {
    if |listeners| == 0 then [] else Popped(listeners[1..]) + [StopListener(listeners[0])]
  }

  /** The module-level `current` pipeline context. */
  class ContextSlot<V> {
    var current: Pipeline?<V>

    constructor ()
      ensures current == null
    {
      current := null;
    }

    /** `usePipelineContext(key)`: the value defined for `key` in the current context,
        `undefined` (`None`) when nothing is defined. */
    method UsePipelineContext(key: Key) returns (r: Result<Option<V>, PipelineError>)
      ensures current == null ==> r == Err(ContextNotAvailable)
      ensures current != null ==> r.Ok? && (r.value.Some? <==> key in current.defined)
      ensures current != null && r.value.Some? ==> r.value.value == current.defined[key]
    {
      if current == null {
        return Err(ContextNotAvailable);
      }
      r := Ok(current.Get(key));
    }

    /** `onStop(listener)`: registers a stop listener on the current context. */
    method OnStop(listener: nat) returns (r: Result<Unit, PipelineError>)
      requires current != null ==> current.Valid()
      modifies current
      ensures current == old(current)
      ensures current == null ==> r == Err(ContextNotAvailable)
      ensures current != null ==>
                && r.Ok? && current.Valid()
                && current.stopListeners == old(current.stopListeners) + [listener]
                && current.registry == old(current.registry) && current.defined == old(current.defined)
                && current.caches == old(current.caches) && current.started == old(current.started)
    {
      if current == null {
        return Err(ContextNotAvailable);
      }
      current.stopListeners := current.stopListeners + [listener];
      r := Ok(Unit);
    }
  }

  class Pipeline<V> {
    /** Every descriptor that exists; the registry holds ids into it. */
    const graph: Graph
    const slot: ContextSlot<V>
    /** The `Set` of registered descriptors, in insertion order. */
    var registry: seq<NodeId>
    var defined: map<Key, V>
    var started: bool
    /** `inputs`, `outputs`, the fan-out points and everything called so far. */
    var caches: Caches
    var stopListeners: seq<nat>

    ghost predicate Valid()
      reads this
    {
      && WellFormed(graph)
      && AllBelow(registry, |graph|) && Distinct(registry)
      && Consistent(graph, caches)
      && ProducersRegistered(graph, registry, caches.inputs)
      && (started ==> ProducersLive(graph, caches.inputs))
    }

    constructor (graph: Graph, slot: ContextSlot<V>)
      requires WellFormed(graph)
      ensures Valid()
      ensures this.graph == graph && this.slot == slot
      ensures registry == [] && defined == map[] && !started && stopListeners == []
      ensures caches == Caches(map[], [], map[], [], [])
    {
      this.graph := graph;
      this.slot := slot;
      registry, defined, started := [], map[], false;
      caches, stopListeners := Caches(map[], [], map[], [], []), [];
    }

    /** `context.get(key)`. */
    function Get(key: Key): (r: Option<V>)
      reads this
      ensures r.Some? <==> key in defined
      ensures r.Some? ==> r.value == defined[key]
    {
      if key in defined then Some(defined[key]) else None
    }

    /** `define(key, value)`: only before `start`. */
    method Define(key: Key, value: V) returns (r: Result<Unit, PipelineError>)
      requires Valid()
      modifies this
      ensures Valid()
      ensures old(started) ==> r == Err(AlreadyStarted) && defined == old(defined)
      ensures !old(started) ==> r.Ok? && defined == old(defined)[key := value]
      ensures Get(key) == (if old(started) then old(Get(key)) else Some(value))
      ensures forall k :: k != key ==> Get(k) == old(Get(k))
      ensures registry == old(registry) && started == old(started)
      ensures caches == old(caches) && stopListeners == old(stopListeners)
    {
      if started {
        return Err(AlreadyStarted);
      }
      defined := defined[key := value];
      r := Ok(Unit);
    }

    /** `use(...items)`: registers each item and, for a composer, its dependencies. */
    method Use(items: seq<NodeId>)
      requires Valid() && AllBelow(items, |graph|)
      modifies this
      decreases Bound(items)
      ensures Valid()
      ensures registry == AddAll(graph, old(registry), items)
      ensures defined == old(defined) && started == old(started)
      ensures caches == old(caches) && stopListeners == old(stopListeners)
    {
      for i := 0 to |items|
        invariant Valid()
        invariant AddAll(graph, registry, items[i..]) == AddAll(graph, old(registry), items)
        invariant defined == old(defined) && started == old(started)
        invariant caches == old(caches) && stopListeners == old(stopListeners)
      {
        var x := items[i];
        assert items[i..][1..] == items[i + 1..];
        ghost var before := registry;
        AddOneExtends(graph, registry, x);
        if x !in registry {
          registry := registry + [x];
        }
        if graph[x].Composer? {
          BoundBelow(graph[x].deps, x);
          assert x < Bound(items);
          Use(graph[x].deps);
        }
        assert registry == AddOne(graph, before, x);
      }
    }

    /** `start()`: resolves every registered source and consumer in registry order,
        inside this pipeline's context, and returns the handler its fan-out points share.
        A throw leaves `current` pointing at this pipeline and `started` false, and keeps
        whatever was cached, including the source cached as null; so every later `start`
        throws again from the cache. */
    method Start<E>() returns (r: Result<Unit, PipelineError>, dedup: Rescheduler.Rescheduler?<Hook, E>)
      requires Valid()
      modifies this`caches, this`started, slot`current
      ensures Valid()
      ensures registry == old(registry) && defined == old(defined) && stopListeners == old(stopListeners)
      ensures old(started) ==> r == Err(AlreadyStarted) && started && caches == old(caches)
                               && slot.current == old(slot.current) && dedup == null
      ensures !old(started) ==>
                && dedup != null && fresh(dedup) && dedup.Valid()
                && |caches.points| >= old(|caches.points|)
                && dedup.points == caches.points[old(|caches.points|)..]
                && dedup.refDate.None? && dedup.rescheduledTasks == [] && dedup.countSyncHook == 0
                && !dedup.flushScheduled && dedup.delivered == [] && dedup.arrivals == []
      ensures !old(started) ==>
                && started == r.Ok?
                && Extends(old(caches), caches) && FreshSetups(graph, old(caches), caches)
                && (r.Ok? ==> slot.current == old(slot.current))
                && (r.Err? ==> r.error == NoConsumer && slot.current == this)
      ensures !old(started) ==>
                (r.Ok? <==> forall n :: n in registry && !graph[n].Transformer? ==>
                                          n in caches.inputs && caches.inputs[n].Some?)
      ensures !old(started) && r.Err? ==> Dangling(graph, registry, caches.inputs)
      ensures !old(started) && Dangling(graph, registry, old(caches.inputs)) ==> r.Err?
    {
      if started {
        return Err(AlreadyStarted), null;
      }
      var base := |caches.points|;
      r := Launch();
      // `const dedup = createOutputsHandler()`, with the fan-out points `resolve` made
      dedup := OutputsHandler(caches.points[base..]);
    }

    /** The part of `start` after the `started` guard: every source reachable from the
        registry is resolved, in order, with this pipeline as the current context. */
    method Launch() returns (r: Result<Unit, PipelineError>)
      requires Valid() && !started
      modifies this`caches, this`started, slot`current
      ensures Valid()
      ensures registry == old(registry) && defined == old(defined) && stopListeners == old(stopListeners)
      ensures started == r.Ok?
      ensures Extends(old(caches), caches) && FreshSetups(graph, old(caches), caches)
      ensures r.Ok? ==> slot.current == old(slot.current)
      ensures r.Err? ==> r.error == NoConsumer && slot.current == this
      ensures r.Err? ==> Dangling(graph, registry, caches.inputs)
      ensures Dangling(graph, registry, old(caches.inputs)) ==> r.Err?
      ensures r.Ok? <==> forall n :: n in registry && !graph[n].Transformer? ==>
                                      n in caches.inputs && caches.inputs[n].Some?
    {
      var saved := slot.current;
      slot.current := this;
      var c;
      r, c := ResolveRegistry(graph, registry, caches);
      caches := c;
      if r.Ok? {
        slot.current := saved;
        started := true;
      }
    }

    /** The handler `createOutputsHandler` returns to one `start`, after `resolve` has
        called it once for each of `points`, in order: every fan-out point of that `start`
        belongs to it, and nothing has been pushed yet. */
    static method OutputsHandler<E>(points: seq<seq<Hook>>) returns (dedup: Rescheduler.Rescheduler<Hook, E>)
      ensures fresh(dedup) && dedup.Valid() && dedup.points == points
      ensures dedup.refDate.None? && dedup.rescheduledTasks == [] && dedup.countSyncHook == 0
      ensures !dedup.flushScheduled && dedup.delivered == [] && dedup.arrivals == []
    {
      dedup := new Rescheduler.Rescheduler<Hook, E>();
      for i := 0 to |points|
        invariant dedup.Valid() && dedup.points == points[..i]
        invariant dedup.refDate.None? && dedup.rescheduledTasks == [] && dedup.countSyncHook == 0
        invariant !dedup.flushScheduled && dedup.delivered == [] && dedup.arrivals == []
      {
        var p := dedup.OutputHandler(points[i]);
        assert points[..i + 1] == points[..i] + [points[i]];
      }
      assert points[..|points|] == points;
    }

    /** `stop()`: tears down every cached producer in insertion order, clears the
        caches, then runs the stop listeners newest first and empties them. */
    method Stop() returns (r: Result<Unit, PipelineError>)
      requires Valid()
      modifies this
      ensures Valid()
      ensures registry == old(registry) && defined == old(defined)
      ensures !old(started) ==> r == Err(NotStarted) && caches == old(caches)
                                && started == old(started) && stopListeners == old(stopListeners)
      ensures old(started) ==>
                var w := Teardowns(graph, old(caches.inputs), old(caches.order));
                && r.Ok? && w.complete
                && caches == old(caches).(inputs := map[], order := [], outputs := map[],
                                          log := old(caches.log) + w.calls + Popped(old(stopListeners)))
                && stopListeners == [] && !started
    {
      if !started {
        return Err(NotStarted);
      }
      // a started pipeline has no producer cached as null, so every teardown is a function
      TeardownsComplete(graph, caches.inputs, caches.order);
      var complete := TearDownProducers();
      assert complete;
      caches := caches.(inputs := map[], order := [], outputs := map[]);
      RunStopListeners();
      started := false;
      r := Ok(Unit);
    }

    /** The teardown loop of `stop`; `false` when it meets a producer cached as null. */
    method TearDownProducers() returns (complete: bool)
      requires Valid()
      modifies this
      ensures Valid()
      ensures registry == old(registry) && defined == old(defined)
      ensures started == old(started) && stopListeners == old(stopListeners)
      ensures var w := Teardowns(graph, old(caches.inputs), old(caches.order));
              complete == w.complete && caches == old(caches).(log := old(caches.log) + w.calls)
    {
      var w := CollectTeardowns(graph, caches.inputs, caches.order);
      caches := caches.(log := caches.log + w.calls);
      ConsistentExtends(graph, old(caches), caches);
      complete := w.complete;
    }

    /** `while (stopListeners.length) stopListeners.pop()()`. */
    method RunStopListeners()
      requires Valid()
      modifies this
      ensures Valid()
      ensures stopListeners == []
      ensures caches == old(caches).(log := old(caches.log) + Popped(old(stopListeners)))
      ensures registry == old(registry) && defined == old(defined) && started == old(started)
    {
      var listeners := stopListeners;
      while |stopListeners| > 0
        invariant stopListeners == listeners[..|stopListeners|]
        invariant caches == old(caches).(log := old(caches.log) + Popped(listeners[|stopListeners|..]))
        invariant registry == old(registry) && defined == old(defined) && started == old(started)
        decreases |stopListeners|
      {
        var m := |stopListeners| - 1;
        var l := stopListeners[m];
        stopListeners := stopListeners[..m];
        assert listeners[m..][1..] == listeners[m + 1..];
        caches := caches.(log := caches.log + [StopListener(l)]);
      }
      assert listeners[0..] == listeners;
      ConsistentExtends(graph, old(caches), caches);
    }

    /** `suspend(...producers)`: calls each producer's teardown and returns the restore
        function, represented by the producers it will set up again. */
    method Suspend(producers: seq<NodeId>) returns (r: Result<seq<NodeId>, PipelineError>)
      requires Valid()
      modifies this`caches
      ensures Valid()
      ensures registry == old(registry) && defined == old(defined)
      ensures started == old(started) && stopListeners == old(stopListeners)
      ensures !old(started) ==> r == Err(NotStarted) && caches == old(caches)
      ensures old(started) ==>
                var w := Suspensions(old(caches.inputs), producers);
                && caches == old(caches).(log := old(caches.log) + w.calls)
                && r == (if w.complete then Ok(producers) else Err(NotAFunction))
    {
      if !started {
        return Err(NotStarted);
      }
      var w := CollectSuspensions(caches.inputs, producers);
      caches := caches.(log := caches.log + w.calls);
      ConsistentExtends(graph, old(caches), caches);
      r := if w.complete then Ok(producers) else Err(NotAFunction);
    }

    /** The function `suspend` returns: inside this pipeline's context, sets each producer
        up again with its cached output. `inputs` keeps the teardowns of the first setups. */
    method Restore(producers: seq<NodeId>)
      requires Valid()
      modifies this`caches, slot`current
      ensures Valid()
      ensures caches == old(caches).(log := old(caches.log) + Restores(old(caches.outputs), producers))
      ensures slot.current == old(slot.current)
      ensures registry == old(registry) && defined == old(defined)
      ensures started == old(started) && stopListeners == old(stopListeners)
    {
      var saved := slot.current;
      slot.current := this;
      for i := 0 to |producers|
        invariant started == old(started) && stopListeners == old(stopListeners)
        invariant registry == old(registry) && defined == old(defined)
        invariant slot.current == this
        invariant caches == old(caches).(log := old(caches.log) + Restores(old(caches.outputs), producers[..i]))
      {
        var p := producers[i];
        assert producers[..i + 1][..i] == producers[..i];
        var push := if p in caches.outputs then Some(caches.outputs[p]) else None;
        caches := caches.(log := caches.log + [Setup(p, push)]);
      }
      assert producers[..|producers|] == producers;
      ConsistentExtends(graph, old(caches), caches);
      slot.current := saved;
    }
  }

  /** Every cached producer is registered: only `start`'s own loop over the registry
      resolves a producer. */
  ghost predicate ProducersRegistered(g: Graph, registry: seq<NodeId>, inputs: map<NodeId, Option<nat>>) {
    forall n :: n in inputs && n < |g| && g[n].Producer? ==> n in registry
  }

  /** No producer is cached as null. */
  ghost predicate ProducersLive(g: Graph, inputs: map<NodeId, Option<nat>>) {
    forall n :: n in inputs && n < |g| && g[n].Producer? ==> inputs[n].Some?
  }

  /** Some registered source is cached as null: `resolve` of it throws 'No consumer'
      from the cache. */
  ghost predicate Dangling(g: Graph, registry: seq<NodeId>, inputs: map<NodeId, Option<nat>>) {
    exists n :: n in registry && n < |g| && !g[n].Transformer? && n in inputs && inputs[n] == None
  }

  /** The resolve loop of `start`, on the values it reads: `resolve` for each source
      of `registry`, in order; it succeeds exactly when every source ends up live. A
      failure leaves a source cached as null, and a source already cached as null makes
      it fail. */
  method ResolveRegistry(g: Graph, registry: seq<NodeId>, c0: Caches) returns (r: Result<Unit, PipelineError>, c: Caches)
    requires WellFormed(g) && AllBelow(registry, |g|) && Distinct(registry) && Consistent(g, c0)
    ensures Consistent(g, c) && Extends(c0, c) && FreshSetups(g, c0, c)
    ensures r.Err? ==> r.error == NoConsumer && Dangling(g, registry, c.inputs)
    ensures Dangling(g, registry, c0.inputs) ==> r.Err?
    ensures r.Ok? <==> forall n :: n in registry && !g[n].Transformer? ==>
                                    n in c.inputs && c.inputs[n].Some?
    ensures ProducersRegistered(g, registry, c0.inputs) ==> ProducersRegistered(g, registry, c.inputs)
    ensures r.Ok? && ProducersRegistered(g, registry, c0.inputs) ==> ProducersLive(g, c.inputs)
  {
    var sources := SourcesOf(g, registry);
    var transformers := TransformersIn(g, registry);
    StartLists(g, registry);
    r, c := ResolveInOrder(g, sources, transformers, c0);
    AllSourcesLive(g, registry, c.inputs);
    if r.Err? {
      var k :| 0 <= k < |sources| && sources[k] in c.inputs && c.inputs[sources[k]] == None;
      assert sources[k] in sources;
    }
    if Dangling(g, registry, c0.inputs) {
      var n :| n in registry && n < |g| && !g[n].Transformer? && n in c0.inputs && c0.inputs[n] == None;
      assert c.inputs[n] == None;
    }
  }

  /** `sources.map(resolve)` in `start`: resolves each source in order and stops at the
      first one that throws. Every setup call it makes is of a node it newly resolves,
      and none twice. */
  method ResolveInOrder(g: Graph, sources: seq<NodeId>, transformers: seq<NodeId>, c0: Caches)
    returns (r: Result<Unit, PipelineError>, c: Caches)
    requires WellFormed(g) && Consistent(g, c0) && Distinct(transformers)
    requires forall k :: 0 <= k < |sources| ==> sources[k] < |g| && !g[sources[k]].Transformer?
    ensures Consistent(g, c) && Extends(c0, c) && FreshSetups(g, c0, c)
    ensures r.Ok? ==> forall k :: 0 <= k < |sources| ==> sources[k] in c.inputs && c.inputs[sources[k]].Some?
    ensures r.Err? ==> r.error == NoConsumer
                       && exists k :: 0 <= k < |sources| && sources[k] in c.inputs && c.inputs[sources[k]] == None
    ensures forall n :: n in c.inputs && n !in c0.inputs && n < |g| && g[n].Producer? ==> n in sources
  {
    c := c0;
    r := Ok(Unit);
    for i := 0 to |sources|
      invariant Consistent(g, c)
      invariant Extends(c0, c) && FreshSetups(g, c0, c)
      invariant r.Ok? && forall k :: 0 <= k < i ==> sources[k] in c.inputs && c.inputs[sources[k]].Some?
      invariant forall n :: n in c.inputs && n !in c0.inputs && n < |g| && g[n].Producer? ==> n in sources
    {
      StartStep(g, c0, c, sources, transformers, sources[i]);
      ResolveCachesNoOtherProducer(g, sources, transformers, c, sources[i]);
      assert sources[i] in sources;
      var step := Resolve(g, sources, transformers, c, sources[i]);
      if step.result.Ok? {
        LivePrefixGrows(c.inputs, step.after.inputs, sources, i);
      }
      c := step.after;
      if step.result.Err? {
        r := Err(step.result.error);
        break;
      }
    }
  }

  lemma LivePrefixGrows(inputs: map<NodeId, Option<nat>>, inputs': map<NodeId, Option<nat>>, sources: seq<NodeId>, i: nat)
    requires i < |sources|
    requires forall k :: 0 <= k < i ==> sources[k] in inputs && inputs[sources[k]].Some?
    requires forall n :: n in inputs ==> n in inputs' && inputs'[n] == inputs[n]
    requires sources[i] in inputs' && inputs'[sources[i]].Some?
    ensures forall k :: 0 <= k < i + 1 ==> sources[k] in inputs' && inputs'[sources[k]].Some?
  {
  }

  /** What `start` needs of the two lists it splits the registry into. */
  lemma StartLists(g: Graph, registry: seq<NodeId>)
    requires Distinct(registry)
    ensures Distinct(TransformersIn(g, registry))
    ensures var sources := SourcesOf(g, registry);
            forall k :: 0 <= k < |sources| ==> sources[k] < |g| && !g[sources[k]].Transformer?
  {
    FilterDistinct(registry, (n: NodeId) => n < |g| && g[n].Transformer?);
    var sources := SourcesOf(g, registry);
    assert forall k :: 0 <= k < |sources| ==> sources[k] in sources;
  }

  /** The sources `start` resolves are exactly the registered descriptors that are not
      transformers, so all of them resolve when each of the sources does. */
  lemma AllSourcesLive(g: Graph, registry: seq<NodeId>, inputs: map<NodeId, Option<nat>>)
    requires AllBelow(registry, |g|)
    ensures var sources := SourcesOf(g, registry);
            (forall k :: 0 <= k < |sources| ==> sources[k] in inputs && inputs[sources[k]].Some?)
            <==> (forall n :: n in registry && !g[n].Transformer? ==> n in inputs && inputs[n].Some?)
  {
    var sources := SourcesOf(g, registry);
    if forall k :: 0 <= k < |sources| ==> sources[k] in inputs && inputs[sources[k]].Some? {
      forall n | n in registry && !g[n].Transformer?
        ensures n in inputs && inputs[n].Some?
      {
        assert n in sources;
      }
    }
  }

  /** One iteration of `sources.map(resolve)` in `start`. */
  lemma StartStep(g: Graph, c0: Caches, c: Caches, sources: seq<NodeId>, transformers: seq<NodeId>, s: NodeId)
    requires WellFormed(g) && s < |g| && !g[s].Transformer?
    requires Consistent(g, c) && Distinct(transformers)
    requires Extends(c0, c) && FreshSetups(g, c0, c)
    ensures var r := Resolve(g, sources, transformers, c, s);
            && Consistent(g, r.after) && Extends(c0, r.after) && FreshSetups(g, c0, r.after)
            && (forall n :: n in c.inputs ==> n in r.after.inputs && r.after.inputs[n] == c.inputs[n])
            && s in r.after.inputs
            && (r.result.Ok? <==> r.after.inputs[s].Some?)
            && (r.result.Err? ==> r.result.error == NoConsumer)
  {
    ResolveSound(g, sources, transformers, c, s);
    var r := Resolve(g, sources, transformers, c, s);
    ExtendsTrans(c0, c, r.after);
    FreshTrans(g, c0, c, r.after);
  }

  // ---------------------------------------------------------------------------
  // Properties of stop, suspend and restore

  /** `stop` completes exactly when no cached producer is cached as null, and then it
      calls, once each, the teardown each cached producer's own setup returned. */
  lemma TeardownsOfProducers(g: Graph, c: Caches, order: seq<NodeId>)
    requires Consistent(g, c)
    requires Distinct(order) && forall k :: 0 <= k < |order| ==> order[k] in c.inputs
    ensures forall k :: 0 <= k < |order| ==> order[k] in c.inputs && order[k] < |g|
    ensures var w := Teardowns(g, c.inputs, order);
            && (w.complete <==> forall k :: 0 <= k < |order| && g[order[k]].Producer? ==> c.inputs[order[k]].Some?)
            && (forall k :: 0 <= k < |w.calls| ==> TearsDownProducer(g, c.log, w.calls[k]))
            && (forall i, j :: 0 <= i < j < |w.calls| ==> w.calls[i].call != w.calls[j].call)
            && (w.complete ==> forall k :: 0 <= k < |order| && g[order[k]].Producer? ==>
                                  Teardown(c.inputs[order[k]].value) in w.calls)
  {
    TeardownsComplete(g, c.inputs, order);
    TeardownsSound(g, c, order);
    TeardownsDistinct(g, c, order);
    TeardownsCover(g, c.inputs, order);
  }

  /** The walk over `order` completes exactly when no producer in it is cached as null. */
  lemma {:induction false} TeardownsComplete(g: Graph, inputs: map<NodeId, Option<nat>>, order: seq<NodeId>)
    requires forall k :: 0 <= k < |order| ==> order[k] in inputs && order[k] < |g|
    ensures Teardowns(g, inputs, order).complete
            <==> forall k :: 0 <= k < |order| && g[order[k]].Producer? ==> inputs[order[k]].Some?
    decreases |order|
  {
    if |order| > 0 {
      var init := order[..|order| - 1];
      assert forall k :: 0 <= k < |init| ==> init[k] == order[k];
      TeardownsComplete(g, inputs, init);
    }
  }

  /** Every call of the walk is the teardown a producer's setup returned. */
  lemma {:induction false} TeardownsSound(g: Graph, c: Caches, order: seq<NodeId>)
    requires Consistent(g, c)
    requires forall k :: 0 <= k < |order| ==> order[k] in c.inputs && order[k] < |g|
    ensures forall k :: 0 <= k < |Teardowns(g, c.inputs, order).calls| ==>
              TearsDownProducer(g, c.log, Teardowns(g, c.inputs, order).calls[k])
    decreases |order|
  {
    if |order| > 0 {
      var init := order[..|order| - 1];
      assert forall k :: 0 <= k < |init| ==> init[k] == order[k];
      TeardownsSound(g, c, init);
      var n := order[|order| - 1];
      var w := Teardowns(g, c.inputs, init);
      if w.complete && g[n].Producer? && c.inputs[n].Some? {
        var calls := w.calls + [Teardown(c.inputs[n].value)];
        assert Instance(c.log, n, c.inputs[n].value);
        assert Teardowns(g, c.inputs, order).calls == calls;
        assert forall k :: 0 <= k < |w.calls| ==> calls[k] == w.calls[k];
      }
    }
  }

  /** No teardown is called twice: the entries of the cache order are distinct and each
      is cached with its own setup call. */
  lemma {:induction false} TeardownsDistinct(g: Graph, c: Caches, order: seq<NodeId>)
    requires Consistent(g, c) && Distinct(order)
    requires forall k :: 0 <= k < |order| ==> order[k] in c.inputs && order[k] < |g|
    ensures forall i, j :: 0 <= i < j < |Teardowns(g, c.inputs, order).calls| ==>
              Teardowns(g, c.inputs, order).calls[i].call != Teardowns(g, c.inputs, order).calls[j].call
    decreases |order|
  {
    if |order| > 0 {
      var init := order[..|order| - 1];
      var n := order[|order| - 1];
      assert forall k :: 0 <= k < |init| ==> init[k] == order[k];
      TeardownsDistinct(g, c, init);
      TeardownsSound(g, c, init);
      var w := Teardowns(g, c.inputs, init);
      if w.complete && g[n].Producer? && c.inputs[n].Some? {
        var h := c.inputs[n].value;
        var calls := w.calls + [Teardown(h)];
        assert Teardowns(g, c.inputs, order).calls == calls;
        assert forall k :: 0 <= k < |w.calls| ==> calls[k] == w.calls[k];
        assert Instance(c.log, n, h);
        forall k | 0 <= k < |w.calls| ensures w.calls[k].call != h {
          assert TearsDownProducer(g, c.log, w.calls[k]);
          var m := c.log[w.calls[k].call].node;
          assert m != n by {
            assert m in init by {
              TeardownFromEntry(g, c, init, k);
            }
          }
        }
      }
    }
  }

  /** A complete walk calls the teardown of every producer in `order`. */
  lemma {:induction false} TeardownsCover(g: Graph, inputs: map<NodeId, Option<nat>>, order: seq<NodeId>)
    requires forall k :: 0 <= k < |order| ==> order[k] in inputs && order[k] < |g|
    ensures Teardowns(g, inputs, order).complete ==>
              forall k :: 0 <= k < |order| && g[order[k]].Producer? ==>
                inputs[order[k]].Some? && Teardown(inputs[order[k]].value) in Teardowns(g, inputs, order).calls
    decreases |order|
  {
    if |order| > 0 {
      var init := order[..|order| - 1];
      assert forall k :: 0 <= k < |init| ==> init[k] == order[k];
      TeardownsCover(g, inputs, init);
    }
  }

  /** `call` is the teardown returned by some producer's setup. */
  predicate TearsDownProducer(g: Graph, log: seq<Call>, call: Call) {
    && call.Teardown? && call.call < |log| && log[call.call].Setup?
    && log[call.call].node < |g| && g[log[call.call].node].Producer?
  }

  /** The loop of `stop` over the cached entries: the teardown of each cached producer,
      in cache order, until one is cached as null. */
  method CollectTeardowns(g: Graph, inputs: map<NodeId, Option<nat>>, order: seq<NodeId>) returns (w: Walk)
    requires forall k :: 0 <= k < |order| ==> order[k] in inputs && order[k] < |g|
    ensures w == Teardowns(g, inputs, order)
  {
    var calls: seq<Call> := [];
    for i := 0 to |order|
      invariant Teardowns(g, inputs, order[..i]) == Walk(calls, true)
    {
      TeardownsStep(g, inputs, order, i);
      var n := order[i];
      if g[n].Producer? {
        if inputs[n].None? {
          TeardownsInterrupted(g, inputs, order, i + 1);
          return Walk(calls, false);
        }
        calls := calls + [Teardown(inputs[n].value)];
      }
    }
    assert order[..|order|] == order;
    w := Walk(calls, true);
  }

  /** The loop of `suspend`: each listed producer's cached teardown, called in order,
      until one is missing or cached as null and the call throws. */
  method CollectSuspensions(inputs: map<NodeId, Option<nat>>, producers: seq<NodeId>) returns (w: Walk)
    ensures w == Suspensions(inputs, producers)
  {
    var calls: seq<Call> := [];
    for i := 0 to |producers|
      invariant Suspensions(inputs, producers[..i]) == Walk(calls, true)
    {
      var p := producers[i];
      assert producers[..i + 1][..i] == producers[..i];
      if p !in inputs || inputs[p].None? {
        SuspensionsInterrupted(inputs, producers, i + 1);
        return Walk(calls, false);
      }
      calls := calls + [Teardown(inputs[p].value)];
    }
    assert producers[..|producers|] == producers;
    w := Walk(calls, true);
  }

  /** `Teardowns` over one more entry of the cache order. */
  lemma TeardownsStep(g: Graph, inputs: map<NodeId, Option<nat>>, order: seq<NodeId>, i: nat)
    requires forall k :: 0 <= k < |order| ==> order[k] in inputs && order[k] < |g|
    requires i < |order|
    ensures var w := Teardowns(g, inputs, order[..i]);
            var n := order[i];
            Teardowns(g, inputs, order[..i + 1]) ==
              if !w.complete || !g[n].Producer? then w
              else if inputs[n].None? then Walk(w.calls, false)
              else Walk(w.calls + [Teardown(inputs[n].value)], true)
  {
    var p := order[..i + 1];
    assert p[..|p| - 1] == order[..i] && p[|p| - 1] == order[i];
  }

  /** Once a walk is interrupted, the rest of the entries add nothing. */
  lemma {:induction false} TeardownsInterrupted(g: Graph, inputs: map<NodeId, Option<nat>>, order: seq<NodeId>, i: nat)
    requires forall k :: 0 <= k < |order| ==> order[k] in inputs && order[k] < |g|
    requires i <= |order| && !Teardowns(g, inputs, order[..i]).complete
    ensures Teardowns(g, inputs, order) == Teardowns(g, inputs, order[..i])
    decreases |order| - i
  {
    if i < |order| {
      var init := order[..|order| - 1];
      assert init[..i] == order[..i];
      TeardownsInterrupted(g, inputs, init, i);
    } else {
      assert order[..i] == order;
    }
  }

  lemma {:induction false} SuspensionsInterrupted(inputs: map<NodeId, Option<nat>>, producers: seq<NodeId>, i: nat)
    requires i <= |producers| && !Suspensions(inputs, producers[..i]).complete
    ensures Suspensions(inputs, producers) == Suspensions(inputs, producers[..i])
    decreases |producers| - i
  {
    if i < |producers| {
      var init := producers[..|producers| - 1];
      assert init[..i] == producers[..i];
      SuspensionsInterrupted(inputs, init, i);
    } else {
      assert producers[..i] == producers;
    }
  }

  /** Each teardown `stop` calls comes from an earlier entry of the walk. */
  lemma {:induction false} TeardownFromEntry(g: Graph, c: Caches, order: seq<NodeId>, k: nat)
    requires Consistent(g, c)
    requires forall i :: 0 <= i < |order| ==> order[i] in c.inputs && order[i] < |g|
    requires k < |Teardowns(g, c.inputs, order).calls|
    ensures var call := Teardowns(g, c.inputs, order).calls[k];
            call.Teardown? && exists i :: 0 <= i < |order| && c.inputs[order[i]] == Some(call.call)
    decreases |order|
  {
    var init := order[..|order| - 1];
    var w := Teardowns(g, c.inputs, init);
    assert forall i :: 0 <= i < |init| ==> init[i] == order[i];
    if k < |w.calls| {
      TeardownFromEntry(g, c, init, k);
    }
  }

  /** Restoring a suspended producer calls its setup again exactly as it was first
      called, with the output it was first given. */
  lemma RestoreRepeatsSetup(g: Graph, c: Caches, producers: seq<NodeId>, k: nat)
    requires Consistent(g, c)
    requires k < |producers| && producers[k] in c.outputs
    ensures Restores(c.outputs, producers)[k] == c.log[c.inputs[producers[k]].value]
  {
    RestoresAt(c.outputs, producers, k);
  }

  lemma {:induction false} RestoresAt(outputs: map<NodeId, Hook>, producers: seq<NodeId>, k: nat)
    requires k < |producers|
    ensures Restores(outputs, producers)[k]
            == Setup(producers[k], if producers[k] in outputs then Some(outputs[producers[k]]) else None)
    decreases |producers|
  {
    if k < |producers| - 1 {
      RestoresAt(outputs, producers[..|producers| - 1], k);
    }
  }

  /** A suspension completes exactly when every listed producer is cached with a live
      instance, and then calls each one's teardown in order. */
  lemma {:induction false} SuspensionsComplete(inputs: map<NodeId, Option<nat>>, producers: seq<NodeId>)
    ensures var w := Suspensions(inputs, producers);
            && (w.complete <==> forall k :: 0 <= k < |producers| ==> producers[k] in inputs && inputs[producers[k]].Some?)
            && (w.complete ==>
                  && |w.calls| == |producers|
                  && forall k :: 0 <= k < |producers| ==> w.calls[k] == Teardown(inputs[producers[k]].value))
    decreases |producers|
  {
    if |producers| > 0 {
      var init := producers[..|producers| - 1];
      SuspensionsComplete(inputs, init);
      assert forall k :: 0 <= k < |init| ==> init[k] == producers[k];
    }
  }
}
