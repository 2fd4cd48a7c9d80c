/** The lazy, depth-first resolution that `start` runs over the registry.

    `resolve` mutates the pipeline's `inputs` and `outputs` maps and calls opaque setup
    callbacks; here that state is the `Caches` value it threads through. Each setup call
    is recorded in `log`, and the function a setup returns is named by the index of that
    call in the log (`Returned(k)`). Each call of the rescheduler's handler creates a
    fan-out point, recorded in `points`. */
module Resolver {
  import opened Results
  import opened JsArrays
  import opened PipelineGraph

  /** A push function or event hook. */
  datatype Hook =
    | Returned(call: nat)   // the function returned by the setup call at `log[call]`
    | FanOut(point: nat)    // the push of rescheduler fan-out point `point`

  /** What the pipeline does to the outside world, in order. */
  datatype Call =
    | Setup(node: NodeId, push: Option<Hook>)   // `node.setup(push)`; `None` for a consumer's `setup()`
    | Teardown(call: nat)                       // calls the function returned by `log[call]`
    | NoConsumerWarning(node: NodeId)           // `console.warn('No consumer found for', node)`
    | StopListener(listener: nat)               // runs a listener registered with `onStop`

  datatype PipelineError =
    | AlreadyStarted        // 'Pipeline already started'
    | NotStarted            // 'Pipeline not started yet'
    | NoConsumer            // 'No consumer'
    | ContextNotAvailable   // 'Pipeline context not available'
    | NotAFunction          // a TypeError: calling a teardown that is not cached

  /** `inputs` (a Map whose key order is `order`), `outputs`, the rescheduler's fan-out
      points and the call log. */
  datatype Caches = Caches(
    inputs: map<NodeId, Option<nat>>,
    order: seq<NodeId>,
    outputs: map<NodeId, Hook>,
    points: seq<seq<Hook>>,
    log: seq<Call>)

  /** What one `resolve(source)` returns or throws, and the caches afterwards. */
  datatype Step = Step(result: Result<nat, PipelineError>, after: Caches)

  /** The live children's input hooks (`next`) and the caches afterwards. */
  datatype Fold = Fold(next: seq<Hook>, after: Caches)

  /** The push handed to a source's setup and the caches afterwards. */
  datatype Wrapped = Wrapped(push: Hook, after: Caches)

  /** `resolve(s)`, where `sources` and `transformers` are the registry's entries split by kind. */
  function Resolve(g: Graph, sources: seq<NodeId>, transformers: seq<NodeId>, c: Caches, s: NodeId): Step
    requires WellFormed(g) && s < |g| && !g[s].Transformer?
    decreases |g| - s, 1, 0
  {
    if s in c.inputs then
      (match c.inputs[s]
       case Some(h) => Step(Ok(h), c)
       case None => Step(Err(NoConsumer), c))
    else if g[s].Consumer? then
      var h := |c.log|;
      Step(Ok(h), c.(inputs := c.inputs[s := Some(h)], order := c.order + [s], log := c.log + [Setup(s, None)]))
    else
      var kids := Children(g, sources, s);
      assert forall k :: 0 <= k < |kids| ==> kids[k] in kids;
      var f := ResolveEach(g, sources, transformers, c, s, kids);
      Settle(f.after, s, TransformersOf(g, transformers, s), f.next)
  }

  /** The rest of `resolve(s)` once its children are resolved and `next` holds the live
      ones: throw 'No consumer' if there are none, else create the fan-out, wrap it in the
      transformers of `s`, and call the setup of `s`. */
  function Settle(c: Caches, s: NodeId, ts: seq<NodeId>, next: seq<Hook>): Step {
    if |next| == 0 then
      Step(Err(NoConsumer), c.(inputs := c.inputs[s := None], order := c.order + [s],
                               log := c.log + [NoConsumerWarning(s)]))
    else
      var w := Wrap(c.(points := c.points + [next]), ts, FanOut(|c.points|));
      var c1 := w.after;
      var h := |c1.log|;
      Step(Ok(h), c1.(inputs := c1.inputs[s := Some(h)], order := c1.order + [s],
                      outputs := c1.outputs[s := w.push], log := c1.log + [Setup(s, Some(w.push))]))
  }

  /** `children.map(child => { try { return resolve(child) } catch { return null } }).filter(x => !!x)`. */
  function ResolveEach(g: Graph, sources: seq<NodeId>, transformers: seq<NodeId>, c: Caches, s: NodeId, kids: seq<NodeId>): Fold
    requires WellFormed(g) && s < |g|
    requires forall k :: 0 <= k < |kids| ==> s < kids[k] < |g| && !g[kids[k]].Transformer?
    decreases |g| - s, 0, |kids|
  {
    if |kids| == 0 then Fold([], c)
    else
      var st := Resolve(g, sources, transformers, c, kids[0]);
      var rest := ResolveEach(g, sources, transformers, st.after, s, kids[1..]);
      Fold((if st.result.Ok? then [Returned(st.result.value)] else []) + rest.next, rest.after)
  }

  /** `ts.reduceRight((push, { setup }) => setup(dedup(push)), inner)`. */
  function Wrap(c: Caches, ts: seq<NodeId>, inner: Hook): Wrapped
    decreases |ts|
  {
    if |ts| == 0 then Wrapped(inner, c)
    else
      var w := Wrap(c, ts[1..], inner);
      var c1 := w.after;
      Wrapped(Returned(|c1.log|), c1.(points := c1.points + [[w.push]],
                                      log := c1.log + [Setup(ts[0], Some(FanOut(|c1.points|)))]))
  }

  // ---------------------------------------------------------------------------
  // Invariants of the caches

  /** `log[h]` is the setup call of `n` (so `Returned(h)` is what that setup returned). */
  predicate Instance(log: seq<Call>, n: NodeId, h: nat) {
    h < |log| && log[h].Setup? && log[h].node == n
  }

  /** The caches only grow: earlier log entries, points, key order and cached values stay. */
  ghost predicate Extends(c: Caches, c': Caches) {
    && |c.log| <= |c'.log| && (forall k :: 0 <= k < |c.log| ==> c'.log[k] == c.log[k])
    && |c.points| <= |c'.points| && (forall k :: 0 <= k < |c.points| ==> c'.points[k] == c.points[k])
    && |c.order| <= |c'.order| && (forall k :: 0 <= k < |c.order| ==> c'.order[k] == c.order[k])
    && (forall n :: n in c.inputs ==> n in c'.inputs && c'.inputs[n] == c.inputs[n])
    && (forall n :: n in c.outputs ==> n in c'.outputs && c'.outputs[n] == c.outputs[n])
  }

  /** `order` lists the keys of `inputs` once each; a cached instance is what the node's
      own setup returned; a cached output is the push that setup was given. */
  ghost predicate Consistent(g: Graph, c: Caches) {
    && Distinct(c.order)
    && (forall n :: n in c.order <==> n in c.inputs)
    && (forall k :: 0 <= k < |c.order| ==> c.order[k] in c.inputs)
    && (forall n :: n in c.inputs ==> n < |g| && !g[n].Transformer?)
    && (forall n :: n in c.inputs && c.inputs[n].Some? ==> Instance(c.log, n, c.inputs[n].value))
    && (forall n :: n in c.outputs ==>
          n in c.inputs && c.inputs[n].Some? && c.log[c.inputs[n].value].push == Some(c.outputs[n]))
  }

  /** `n`'s setup may only have been called because its owner was resolved between `c`
      and `c'`, successfully. */
  ghost predicate NewlyResolved(g: Graph, c: Caches, c': Caches, n: NodeId) {
    n < |g| && Owner(g, n) !in c.inputs && Owner(g, n) in c'.inputs && c'.inputs[Owner(g, n)].Some?
  }

  /** Between `c` and `c'`, every setup call is of a node whose owner was newly and
      successfully resolved, and no node's setup is called twice. */
  ghost predicate FreshSetups(g: Graph, c: Caches, c': Caches) {
    && (forall k :: |c.log| <= k < |c'.log| && c'.log[k].Setup? ==> NewlyResolved(g, c, c', c'.log[k].node))
    && (forall i, j :: |c.log| <= i < j < |c'.log| && c'.log[i].Setup? && c'.log[j].Setup? ==>
          c'.log[i].node != c'.log[j].node)
  }

  /** Every node resolved between `c` and `c'` is at least `s`. */
  ghost predicate NewKeysFrom(c: Caches, c': Caches, s: NodeId) {
    forall n :: n in c'.inputs && n !in c.inputs ==> n >= s
  }

  /** The input hooks of the kids that are cached with a live instance, in order. */
  function Live(inputs: map<NodeId, Option<nat>>, kids: seq<NodeId>): seq<Hook> {
    if |kids| == 0 then []
    else
      (if kids[0] in inputs && inputs[kids[0]].Some? then [Returned(inputs[kids[0]].value)] else [])
      + Live(inputs, kids[1..])
  }

  // ---------------------------------------------------------------------------
  // Soundness of resolution

  lemma ExtendsTrans(c1: Caches, c2: Caches, c3: Caches)
    requires Extends(c1, c2) && Extends(c2, c3)
    ensures Extends(c1, c3)
  {
  }

  lemma FreshTrans(g: Graph, c1: Caches, c2: Caches, c3: Caches)
    requires Extends(c1, c2) && Extends(c2, c3)
    requires FreshSetups(g, c1, c2) && FreshSetups(g, c2, c3)
    ensures FreshSetups(g, c1, c3)
  {
    forall k | |c1.log| <= k < |c3.log| && c3.log[k].Setup?
      ensures NewlyResolved(g, c1, c3, c3.log[k].node)
    {
      if k < |c2.log| {
        assert c3.log[k] == c2.log[k];
        assert NewlyResolved(g, c1, c2, c2.log[k].node);
      } else {
        assert NewlyResolved(g, c2, c3, c3.log[k].node);
      }
    }
    forall i, j | |c1.log| <= i < j < |c3.log| && c3.log[i].Setup? && c3.log[j].Setup?
      ensures c3.log[i].node != c3.log[j].node
    {
      if j < |c2.log| {
        assert c3.log[i] == c2.log[i] && c3.log[j] == c2.log[j];
      } else if i >= |c2.log| {
      } else {
        assert c3.log[i] == c2.log[i];
        assert NewlyResolved(g, c1, c2, c2.log[i].node);
        assert NewlyResolved(g, c2, c3, c3.log[j].node);
      }
    }
  }

  /** Extending the log and points preserves the caches' invariant. */
  lemma ConsistentExtends(g: Graph, c: Caches, c': Caches)
    requires Consistent(g, c)
    requires c'.inputs == c.inputs && c'.order == c.order && c'.outputs == c.outputs
    requires |c.log| <= |c'.log| && forall k :: 0 <= k < |c.log| ==> c'.log[k] == c.log[k]
    ensures Consistent(g, c')
  {
  }

  /** The transformer chain: only setup calls of the listed transformers, each once; the
      caches' maps are untouched. */
  lemma {:induction false} WrapSound(g: Graph, c: Caches, ts: seq<NodeId>, inner: Hook, s: NodeId)
    requires Distinct(ts)
    requires forall k :: 0 <= k < |ts| ==> IsTransformerOf(g, ts[k], s)
    ensures var c' := Wrap(c, ts, inner).after;
            && Extends(c, c')
            && c'.inputs == c.inputs && c'.order == c.order && c'.outputs == c.outputs
            && (forall k :: |c.log| <= k < |c'.log| ==>
                  c'.log[k].Setup? && c'.log[k].node in ts && IsTransformerOf(g, c'.log[k].node, s))
            && (forall i, j :: |c.log| <= i < j < |c'.log| ==> c'.log[i].node != c'.log[j].node)
    decreases |ts|
  {
    if |ts| > 0 {
      WrapSound(g, c, ts[1..], inner, s);
      assert ts[0] !in ts[1..];
      assert IsTransformerOf(g, ts[0], s);
    }
  }

  /** What the first-registered transformer returns receives the raw events; each
      transformer forwards to a fan-out point holding only the next one's hook, and the
      last one to `inner`. */
  ghost predicate Chain(log: seq<Call>, points: seq<seq<Hook>>, ts: seq<NodeId>, inner: Hook, push: Hook)
    decreases |ts|
  {
    if |ts| == 0 then push == inner
    else
      && push.Returned? && push.call < |log|
      && log[push.call].Setup? && log[push.call].node == ts[0]
      && log[push.call].push.Some? && log[push.call].push.value.FanOut?
      && var p := log[push.call].push.value.point;
         p < |points| && |points[p]| == 1 && Chain(log, points, ts[1..], inner, points[p][0])
  }

  lemma {:induction false} ChainExtends(log: seq<Call>, points: seq<seq<Hook>>, log': seq<Call>, points': seq<seq<Hook>>,
                                        ts: seq<NodeId>, inner: Hook, push: Hook)
    requires Chain(log, points, ts, inner, push)
    requires |log| <= |log'| && forall k :: 0 <= k < |log| ==> log'[k] == log[k]
    requires |points| <= |points'| && forall k :: 0 <= k < |points| ==> points'[k] == points[k]
    ensures Chain(log', points', ts, inner, push)
    decreases |ts|
  {
    if |ts| > 0 {
      var p := log[push.call].push.value.point;
      ChainExtends(log, points, log', points', ts[1..], inner, points[p][0]);
    }
  }

  /** `reduceRight` builds the chain, outermost transformer first. */
  lemma {:induction false} WrapChain(c: Caches, ts: seq<NodeId>, inner: Hook)
    ensures var w := Wrap(c, ts, inner); Chain(w.after.log, w.after.points, ts, inner, w.push)
    ensures Extends(c, Wrap(c, ts, inner).after)
    ensures var c' := Wrap(c, ts, inner).after;
            c'.inputs == c.inputs && c'.order == c.order && c'.outputs == c.outputs
    decreases |ts|
  {
    if |ts| > 0 {
      WrapChain(c, ts[1..], inner);
      var w := Wrap(c, ts[1..], inner);
      var c1 := w.after;
      var c2 := Wrap(c, ts, inner).after;
      ChainExtends(c1.log, c1.points, c2.log, c2.points, ts[1..], inner, w.push);
      assert c2.points[|c1.points|] == [w.push];
    }
  }

  /** `inputs.set(s, …)` (and, for a wired source, `outputs.set(s, …)`) after `call`:
      the instance is what `call` returns when `ok`, and null otherwise. */
  function Cache(c: Caches, s: NodeId, ok: bool, call: Call): Caches {
    c.(inputs := c.inputs[s := if ok then Some(|c.log|) else None],
       order := c.order + [s],
       outputs := if ok && call.Setup? && call.push.Some? then c.outputs[s := call.push.value] else c.outputs,
       log := c.log + [call])
  }

  /** Recording a newly resolved node keeps the caches consistent and makes at most the
      one setup call of that node. */
  lemma CacheSound(g: Graph, c: Caches, s: NodeId, ok: bool, call: Call)
    requires s < |g| && !g[s].Transformer?
    requires Consistent(g, c) && s !in c.inputs
    requires ok <==> call.Setup?
    requires call.Setup? ==> call.node == s
    ensures var c' := Cache(c, s, ok, call);
            Extends(c, c') && Consistent(g, c') && FreshSetups(g, c, c')
  {
    CacheExtends(c, s, ok, call);
    CacheConsistent(g, c, s, ok, call);
  }

  lemma CacheExtends(c: Caches, s: NodeId, ok: bool, call: Call)
    requires s !in c.inputs && s !in c.outputs
    ensures Extends(c, Cache(c, s, ok, call))
  {
  }

  lemma CacheConsistent(g: Graph, c: Caches, s: NodeId, ok: bool, call: Call)
    requires s < |g| && !g[s].Transformer?
    requires Consistent(g, c) && s !in c.inputs
    requires ok <==> call.Setup?
    requires call.Setup? ==> call.node == s
    ensures Consistent(g, Cache(c, s, ok, call))
  {
    var c' := Cache(c, s, ok, call);
    OrderSnoc(c.order, c.inputs, s, c'.inputs[s]);
    assert forall n :: n in c'.inputs ==> n < |g| && !g[n].Transformer?;
    forall n | n in c'.inputs && c'.inputs[n].Some?
      ensures Instance(c'.log, n, c'.inputs[n].value)
    {
      if n != s {
        assert c'.log[c.inputs[n].value] == c.log[c.inputs[n].value];
      }
    }
  }

  /** Appending a new key `s` to the key order of a map keeps the order in step with the
      map's keys. */
  lemma OrderSnoc<V>(order: seq<NodeId>, m: map<NodeId, V>, s: NodeId, v: V)
    requires Distinct(order) && s !in m
    requires forall n :: n in order <==> n in m
    requires forall k :: 0 <= k < |order| ==> order[k] in m
    ensures Distinct(order + [s])
    ensures forall n :: n in order + [s] <==> n in m[s := v]
    ensures forall k :: 0 <= k < |order + [s]| ==> (order + [s])[k] in m[s := v]
  {
    assert s !in order;
  }

  /** The setup calls `Wrap` made, then that of `s`, are fresh when `s` is newly resolved. */
  lemma WrapThenCacheFresh(g: Graph, c: Caches, c3: Caches, c': Caches, s: NodeId)
    requires s < |g| && !g[s].Transformer? && s !in c.inputs
    requires Extends(c, c3) && Extends(c3, c') && c3.inputs == c.inputs
    requires forall k :: |c.log| <= k < |c3.log| ==> c3.log[k].Setup? && IsTransformerOf(g, c3.log[k].node, s)
    requires forall i, j :: |c.log| <= i < j < |c3.log| ==> c3.log[i].node != c3.log[j].node
    requires |c'.log| == |c3.log| + 1 && c'.log[|c3.log|].Setup? && c'.log[|c3.log|].node == s
    requires s in c'.inputs && c'.inputs[s].Some?
    ensures FreshSetups(g, c, c')
  {
    forall k | |c.log| <= k < |c'.log| && c'.log[k].Setup?
      ensures NewlyResolved(g, c, c', c'.log[k].node)
    {
      if k < |c3.log| {
        assert c'.log[k] == c3.log[k];
      }
    }
    forall i, j | |c.log| <= i < j < |c'.log| && c'.log[i].Setup? && c'.log[j].Setup?
      ensures c'.log[i].node != c'.log[j].node
    {
      if j < |c3.log| {
        assert c'.log[i] == c3.log[i] && c'.log[j] == c3.log[j];
      } else {
        assert c'.log[i] == c3.log[i];
      }
    }
  }

  /** With live children, only `s` and its transformers are set up, each once, and `s` is
      cached with the instance its setup returned and the push it was given. */
  lemma WiredSound(g: Graph, c: Caches, s: NodeId, ts: seq<NodeId>, next: seq<Hook>)
    requires s < |g| && !g[s].Transformer? && |next| > 0
    requires Consistent(g, c) && s !in c.inputs
    requires Distinct(ts) && forall k :: 0 <= k < |ts| ==> IsTransformerOf(g, ts[k], s)
    ensures var r := Settle(c, s, ts, next);
            && Extends(c, r.after) && Consistent(g, r.after) && FreshSetups(g, c, r.after)
            && r.result.Ok? && r.after.inputs == c.inputs[s := Some(r.result.value)]
  {
    var c2 := c.(points := c.points + [next]);
    var w := Wrap(c2, ts, FanOut(|c.points|));
    WrapSound(g, c2, ts, FanOut(|c.points|), s);
    var c3 := w.after;
    ConsistentExtends(g, c, c3);
    var c' := Cache(c3, s, true, Setup(s, Some(w.push)));
    assert Settle(c, s, ts, next).after == c';
    CacheSound(g, c3, s, true, Setup(s, Some(w.push)));
    ExtendsTrans(c, c3, c');
    WrapThenCacheFresh(g, c, c3, c', s);
  }

  /** Everything `Settle` guarantees, for either branch. */
  lemma SettleSound(g: Graph, c: Caches, s: NodeId, ts: seq<NodeId>, next: seq<Hook>)
    requires s < |g| && !g[s].Transformer?
    requires Consistent(g, c) && s !in c.inputs
    requires Distinct(ts) && forall k :: 0 <= k < |ts| ==> IsTransformerOf(g, ts[k], s)
    ensures var r := Settle(c, s, ts, next);
            && Extends(c, r.after) && Consistent(g, r.after) && FreshSetups(g, c, r.after)
            && (r.result.Ok? <==> |next| > 0)
            && (r.result.Err? ==> r.result.error == NoConsumer)
            && (r.result.Err? ==> r.after.log == c.log + [NoConsumerWarning(s)])
            && r.after.inputs == c.inputs[s := if r.result.Ok? then Some(r.result.value) else None]
  {
    if |next| == 0 {
      CacheSound(g, c, s, false, NoConsumerWarning(s));
      assert Settle(c, s, ts, next).after == Cache(c, s, false, NoConsumerWarning(s));
    } else {
      WiredSound(g, c, s, ts, next);
    }
  }

  /** The heart of `start`: resolving `s` only grows the caches, keeps them consistent,
      caches an entry for `s` (null exactly when it throws 'No consumer'), and calls each
      setup at most once, only for nodes resolved successfully by this very call. */
  lemma {:induction false} ResolveSound(g: Graph, sources: seq<NodeId>, transformers: seq<NodeId>, c: Caches, s: NodeId)
    requires WellFormed(g) && s < |g| && !g[s].Transformer?
    requires Consistent(g, c) && Distinct(transformers)
    ensures var r := Resolve(g, sources, transformers, c, s);
            && Extends(c, r.after) && Consistent(g, r.after)
            && FreshSetups(g, c, r.after) && NewKeysFrom(c, r.after, s)
            && s in r.after.inputs
            && (r.result.Ok? <==> r.after.inputs[s].Some?)
            && (r.result.Ok? ==> r.after.inputs[s] == Some(r.result.value))
            && (r.result.Err? ==> r.result.error == NoConsumer)
            && (s in c.inputs ==> r.after == c)
    decreases |g| - s, 2
  {
    if s in c.inputs {
    } else if g[s].Consumer? {
      CacheSound(g, c, s, true, Setup(s, None));
      assert Resolve(g, sources, transformers, c, s).after == Cache(c, s, true, Setup(s, None));
    } else {
      ResolveSourceSound(g, sources, transformers, c, s);
    }
  }

  /** `ResolveSound` for a producer or composer that is not cached yet. */
  lemma {:induction false} ResolveSourceSound(g: Graph, sources: seq<NodeId>, transformers: seq<NodeId>, c: Caches, s: NodeId)
    requires WellFormed(g) && s < |g| && IsSource(g[s]) && s !in c.inputs
    requires Consistent(g, c) && Distinct(transformers)
    ensures var r := Resolve(g, sources, transformers, c, s);
            && Extends(c, r.after) && Consistent(g, r.after)
            && FreshSetups(g, c, r.after) && NewKeysFrom(c, r.after, s)
            && s in r.after.inputs
            && (r.result.Ok? <==> r.after.inputs[s].Some?)
            && (r.result.Ok? ==> r.after.inputs[s] == Some(r.result.value))
            && (r.result.Err? ==> r.result.error == NoConsumer)
            && (r.result.Err? ==> |c.log| < |r.after.log| && r.after.log[|r.after.log| - 1] == NoConsumerWarning(s))
    decreases |g| - s, 1
  {
    var kids := Children(g, sources, s);
    ResolveSourceUnfold(g, sources, transformers, c, s);
    ResolveEachSound(g, sources, transformers, c, s, kids);
    var f := ResolveEach(g, sources, transformers, c, s, kids);
    var ts := TransformersOf(g, transformers, s);
    FilterDistinct(transformers, t => IsTransformerOf(g, t, s));
    assert forall k :: 0 <= k < |ts| ==> ts[k] in ts;
    SettleSound(g, f.after, s, ts, f.next);
    SourceStep(g, c, f.after, Settle(f.after, s, ts, f.next), s);
  }

  /** A source not yet cached resolves its children, then settles. */
  lemma ResolveSourceUnfold(g: Graph, sources: seq<NodeId>, transformers: seq<NodeId>, c: Caches, s: NodeId)
    requires WellFormed(g) && s < |g| && IsSource(g[s]) && s !in c.inputs
    ensures var kids := Children(g, sources, s);
            && (forall k :: 0 <= k < |kids| ==> s < kids[k] < |g| && !g[kids[k]].Transformer?)
            && var f := ResolveEach(g, sources, transformers, c, s, kids);
               Resolve(g, sources, transformers, c, s) == Settle(f.after, s, TransformersOf(g, transformers, s), f.next)
  {
    var kids := Children(g, sources, s);
    assert forall k :: 0 <= k < |kids| ==> kids[k] in kids;
  }

  /** Chaining the resolution of the children with the settling of `s`. */
  lemma SourceStep(g: Graph, c: Caches, c1: Caches, r: Step, s: NodeId)
    requires Extends(c, c1) && FreshSetups(g, c, c1) && NewKeysFrom(c, c1, s + 1)
    requires Extends(c1, r.after) && Consistent(g, r.after) && FreshSetups(g, c1, r.after)
    requires r.after.inputs == c1.inputs[s := if r.result.Ok? then Some(r.result.value) else None]
    requires r.result.Err? ==> r.result.error == NoConsumer && r.after.log == c1.log + [NoConsumerWarning(s)]
    ensures && Extends(c, r.after) && Consistent(g, r.after)
            && FreshSetups(g, c, r.after) && NewKeysFrom(c, r.after, s)
            && s in r.after.inputs
            && (r.result.Ok? <==> r.after.inputs[s].Some?)
            && (r.result.Ok? ==> r.after.inputs[s] == Some(r.result.value))
            && (r.result.Err? ==> r.result.error == NoConsumer)
            && (r.result.Err? ==> |c.log| < |r.after.log| && r.after.log[|r.after.log| - 1] == NoConsumerWarning(s))
  {
    ExtendsTrans(c, c1, r.after);
    FreshTrans(g, c, c1, r.after);
  }

  /** Resolving the children in order, skipping those that throw, grows the caches the
      same way; `next` holds the live children's hooks, in the children's order. */
  lemma {:induction false} ResolveEachSound(g: Graph, sources: seq<NodeId>, transformers: seq<NodeId>, c: Caches,
                                            s: NodeId, kids: seq<NodeId>)
    requires WellFormed(g) && s < |g|
    requires forall k :: 0 <= k < |kids| ==> s < kids[k] < |g| && !g[kids[k]].Transformer?
    requires Consistent(g, c) && Distinct(transformers)
    ensures var f := ResolveEach(g, sources, transformers, c, s, kids);
            && Extends(c, f.after) && Consistent(g, f.after)
            && FreshSetups(g, c, f.after)
            && NewKeysFrom(c, f.after, s + 1)
            && (forall k :: 0 <= k < |kids| ==> kids[k] in f.after.inputs)
            && f.next == Live(f.after.inputs, kids)
    decreases |g| - s, 0, |kids|
  {
    if |kids| > 0 {
      ResolveSound(g, sources, transformers, c, kids[0]);
      var st := Resolve(g, sources, transformers, c, kids[0]);
      ResolveEachSound(g, sources, transformers, st.after, s, kids[1..]);
      var rest := ResolveEach(g, sources, transformers, st.after, s, kids[1..]);
      FoldStep(g, c, st.after, rest.after, s, kids);
    }
  }

  /** Chaining the resolution of the first child with that of the others. */
  lemma FoldStep(g: Graph, c: Caches, c1: Caches, c2: Caches, s: NodeId, kids: seq<NodeId>)
    requires |kids| > 0 && kids[0] > s && kids[0] in c1.inputs
    requires Extends(c, c1) && FreshSetups(g, c, c1) && NewKeysFrom(c, c1, kids[0])
    requires Extends(c1, c2) && FreshSetups(g, c1, c2) && NewKeysFrom(c1, c2, s + 1)
    requires forall k :: 0 <= k < |kids[1..]| ==> kids[1..][k] in c2.inputs
    ensures Extends(c, c2) && FreshSetups(g, c, c2) && NewKeysFrom(c, c2, s + 1)
    ensures forall k :: 0 <= k < |kids| ==> kids[k] in c2.inputs
    ensures c2.inputs[kids[0]] == c1.inputs[kids[0]]
  {
    ExtendsTrans(c, c1, c2);
    FreshTrans(g, c, c1, c2);
    assert forall k :: 1 <= k < |kids| ==> kids[k] == kids[1..][k - 1];
  }

  /** The only producer `resolve(s)` can newly cache is `s` itself: every other node it
      caches is reached as a child, and children are composers or consumers. */
  lemma {:induction false} ResolveCachesNoOtherProducer(g: Graph, sources: seq<NodeId>, transformers: seq<NodeId>,
                                                        c: Caches, s: NodeId)
    requires WellFormed(g) && s < |g| && !g[s].Transformer?
    requires Consistent(g, c) && Distinct(transformers)
    ensures var c' := Resolve(g, sources, transformers, c, s).after;
            forall n :: n in c'.inputs && n !in c.inputs && n < |g| && g[n].Producer? ==> n == s
    decreases |g| - s, 1
  {
    if s !in c.inputs && !g[s].Consumer? {
      var kids := Children(g, sources, s);
      ResolveSourceUnfold(g, sources, transformers, c, s);
      assert forall k :: 0 <= k < |kids| ==> kids[k] in kids;
      ResolveEachCachesNoProducer(g, sources, transformers, c, s, kids);
      var f := ResolveEach(g, sources, transformers, c, s, kids);
      var ts := TransformersOf(g, transformers, s);
      FilterDistinct(transformers, t => IsTransformerOf(g, t, s));
      assert forall k :: 0 <= k < |ts| ==> ts[k] in ts;
      SettleCachesOnlyItself(g, f.after, s, ts, f.next);
    }
  }

  /** Settling `s` adds no cache entry but that of `s`. */
  lemma SettleCachesOnlyItself(g: Graph, c: Caches, s: NodeId, ts: seq<NodeId>, next: seq<Hook>)
    requires Distinct(ts) && forall k :: 0 <= k < |ts| ==> IsTransformerOf(g, ts[k], s)
    ensures forall n :: n in Settle(c, s, ts, next).after.inputs ==> n in c.inputs || n == s
  {
    if |next| > 0 {
      WrapSound(g, c.(points := c.points + [next]), ts, FanOut(|c.points|), s);
    }
  }

  /** Resolving composers and consumers as children never caches a new producer. */
  lemma {:induction false} ResolveEachCachesNoProducer(g: Graph, sources: seq<NodeId>, transformers: seq<NodeId>,
                                                       c: Caches, s: NodeId, kids: seq<NodeId>)
    requires WellFormed(g) && s < |g|
    requires forall k :: 0 <= k < |kids| ==> s < kids[k] < |g| && !g[kids[k]].Transformer? && !g[kids[k]].Producer?
    requires Consistent(g, c) && Distinct(transformers)
    ensures var c' := ResolveEach(g, sources, transformers, c, s, kids).after;
            forall n :: n in c'.inputs && n < |g| && g[n].Producer? ==> n in c.inputs
    decreases |g| - s, 0, |kids|
  {
    if |kids| > 0 {
      ResolveCachesNoOtherProducer(g, sources, transformers, c, kids[0]);
      ResolveSound(g, sources, transformers, c, kids[0]);
      var st := Resolve(g, sources, transformers, c, kids[0]);
      ResolveEachCachesNoProducer(g, sources, transformers, st.after, s, kids[1..]);
    }
  }

  // ---------------------------------------------------------------------------
  // Consequences

  /** A source nobody live depends on is cached as null and reported last, and neither
      its own setup nor that of any transformer registered against it is called. */
  lemma DanglingSourceNeverSetUp(g: Graph, sources: seq<NodeId>, transformers: seq<NodeId>, c: Caches, s: NodeId)
    requires WellFormed(g) && s < |g| && !g[s].Transformer?
    requires Consistent(g, c) && Distinct(transformers)
    requires s !in c.inputs
    requires Resolve(g, sources, transformers, c, s).result.Err?
    ensures var c' := Resolve(g, sources, transformers, c, s).after;
            && c'.inputs[s] == None
            && |c.log| < |c'.log| && c'.log[|c'.log| - 1] == NoConsumerWarning(s)
            && forall k :: |c.log| <= k < |c'.log| && c'.log[k].Setup? ==>
                 c'.log[k].node < |g| && Owner(g, c'.log[k].node) != s
  {
    ResolveSourceSound(g, sources, transformers, c, s);
  }

  /** A cached node is never set up again: asking for it returns the cache, or throws
      'No consumer' if it is cached as null. */
  lemma CachedIsReturned(g: Graph, sources: seq<NodeId>, transformers: seq<NodeId>, c: Caches, s: NodeId)
    requires WellFormed(g) && s < |g| && !g[s].Transformer?
    requires s in c.inputs
    ensures var r := Resolve(g, sources, transformers, c, s);
            && r.after == c
            && (c.inputs[s] == None <==> r.result == Err(NoConsumer))
            && (c.inputs[s].Some? ==> r.result == Ok(c.inputs[s].value))
  {
  }

  /** What `Settle` wires: the push given to the setup of `s` leads through its
      transformers, first-registered outermost, to a fan-out point holding `next`. */
  lemma SettleWiring(c: Caches, s: NodeId, ts: seq<NodeId>, next: seq<Hook>)
    requires |next| > 0
    ensures var c' := Settle(c, s, ts, next).after;
            && s in c'.outputs && c'.log[|c'.log| - 1] == Setup(s, Some(c'.outputs[s]))
            && |c.points| < |c'.points| && c'.points[|c.points|] == next
            && Chain(c'.log, c'.points, ts, FanOut(|c.points|), c'.outputs[s])
            && c'.inputs == c.inputs[s := Some(|c'.log| - 1)]
  {
    var c2 := c.(points := c.points + [next]);
    var w := Wrap(c2, ts, FanOut(|c.points|));
    WrapChain(c2, ts, FanOut(|c.points|));
    var c3 := w.after;
    var c' := Settle(c, s, ts, next).after;
    ChainExtends(c3.log, c3.points, c'.log, c'.points, ts, FanOut(|c.points|), w.push);
    assert c'.points[|c.points|] == c2.points[|c.points|];
  }

  /** A resolved source's setup receives the transformer chain (the first-registered
      transformer's hook outermost, or the fan-out itself without transformers), ending
      in a fan-out point that lists exactly its live children, in registry order. */
  lemma ResolvedSourceWiring(g: Graph, sources: seq<NodeId>, transformers: seq<NodeId>, c: Caches, s: NodeId)
    requires WellFormed(g) && s < |g| && IsSource(g[s])
    requires Consistent(g, c) && Distinct(transformers)
    requires s !in c.inputs
    requires Resolve(g, sources, transformers, c, s).result.Ok?
    ensures var c' := Resolve(g, sources, transformers, c, s).after;
            && s in c'.outputs && c'.inputs[s].Some?
            && c'.log[c'.inputs[s].value] == Setup(s, Some(c'.outputs[s]))
            && exists p :: 0 <= p < |c'.points|
                 && c'.points[p] == Live(c'.inputs, Children(g, sources, s))
                 && c'.points[p] != []
                 && Chain(c'.log, c'.points, TransformersOf(g, transformers, s), FanOut(p), c'.outputs[s])
  {
    var kids := Children(g, sources, s);
    assert forall k :: 0 <= k < |kids| ==> kids[k] in kids;
    ResolveEachSound(g, sources, transformers, c, s, kids);
    var f := ResolveEach(g, sources, transformers, c, s, kids);
    var ts := TransformersOf(g, transformers, s);
    SettleWiring(f.after, s, ts, f.next);
    var c' := Resolve(g, sources, transformers, c, s).after;
    LiveUnchanged(f.after.inputs, c'.inputs, kids, s);
    var p := |f.after.points|;
    assert c'.points[p] == Live(c'.inputs, kids);
  }

  lemma {:induction false} LiveUnchanged(inputs: map<NodeId, Option<nat>>, inputs': map<NodeId, Option<nat>>, kids: seq<NodeId>, s: NodeId)
    requires forall k :: 0 <= k < |kids| ==> kids[k] in inputs && kids[k] != s
    requires forall n :: n in inputs && n != s ==> n in inputs' && inputs'[n] == inputs[n]
    ensures Live(inputs', kids) == Live(inputs, kids)
  {
    if |kids| > 0 {
      assert forall k :: 1 <= k < |kids| ==> kids[k] == kids[1..][k - 1];
      LiveUnchanged(inputs, inputs', kids[1..], s);
    }
  }
}
