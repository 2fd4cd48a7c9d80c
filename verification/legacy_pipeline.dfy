/** The older tracking pipeline (`createTrackingPipeline`): a set of producers, a set of
    transformers per producer and a context object. `start` sets up every producer with
    the downstream push wrapped by its transformers; `stop` calls the teardowns the last
    `start` collected.

    Producers, transformers and pushes are opaque functions identified by number. Their
    calls are recorded in a log, and the teardown a producer returned is identified by the
    position of that producer's call in the log. */
module LegacyPipeline {
  import opened Results
  import opened JsArrays
  import opened ScopeTree
  import opened ScopeRuntime

  type Producer = nat
  type Transformer = nat

  /** The token `createContext<TrackingPipeline>()` creates. */
  const TrackingPipelineToken: Token := 4

  /** A push: the one given to `start`, or what a transformer returned when called with
      the push `next`. */
  datatype Push = Downstream(id: nat) | Through(transformer: Transformer, next: Push)

  /** A call the pipeline makes: a transformer called with the push it wraps, a producer
      called with its push, or the teardown returned by the call at log position `at`. */
  datatype Call =
    | TransformerCall(transformer: Transformer, next: Push)
    | ProducerCall(producer: Producer, push: Push)
    | TeardownCall(at: nat)

  /** `set.add(x)`: appends `x` unless already present (insertion order). */
  function SetAdd(s: seq<nat>, x: nat): (r: seq<nat>)
    ensures forall y :: y in r <==> y in s || y == x
    ensures Distinct(s) ==> Distinct(r)
    ensures |s| <= |r| && r[..|s|] == s
  {
    if x in s then s else s + [x]
  }

  /** The set after adding each of `xs` in order. */
  function AddAll(s: seq<nat>, xs: seq<nat>): (r: seq<nat>)
    ensures forall y :: y in r <==> y in s || y in xs
    ensures Distinct(s) ==> Distinct(r)
    ensures |s| <= |r| && r[..|s|] == s
  {
    if |xs| == 0 then s else SetAdd(AddAll(s, xs[..|xs| - 1]), xs[|xs| - 1])
  }

  /** Adding elements already present changes nothing. */
  lemma {:induction false} AddAllPresent(s: seq<nat>, xs: seq<nat>)
    requires forall x :: x in xs ==> x in s
    ensures AddAll(s, xs) == s
  {
    if |xs| > 0 {
      var n := |xs| - 1;
      assert forall x :: x in xs[..n] ==> x in xs;
      AddAllPresent(s, xs[..n]);
      assert xs[n] in xs;
    }
  }

  /** Registering the same producers again has no effect. */
  lemma RegisterIdempotent(s: seq<nat>, xs: seq<nat>)
    ensures AddAll(AddAll(s, xs), xs) == AddAll(s, xs)
  {
    AddAllPresent(AddAll(s, xs), xs);
  }

  /** `transformers.get(p) || new Set()`, as a list in insertion order. */
  function TransformersOf(m: map<Producer, seq<Transformer>>, p: Producer): seq<Transformer> {
    if p in m then m[p] else []
  }

  /** `trans.reduceRight((next, t) => t(ctx, next), push)`: the push a producer receives. */
  function ReduceRight(trans: seq<Transformer>, push: Push): Push {
    if |trans| == 0 then push else ReduceRight(trans[..|trans| - 1], Through(trans[|trans| - 1], push))
  }

  /** The same push described from the outside in: the first-registered transformer is
      outermost, the push given to `start` innermost. */
  function Nested(trans: seq<Transformer>, push: Push): Push {
    if |trans| == 0 then push else Through(trans[0], Nested(trans[1..], push))
  }

  /** `reduceRight` makes the first-registered transformer the outermost: it receives the
      producer's raw events. */
  lemma {:induction false} ReduceRightNests(trans: seq<Transformer>, push: Push)
    ensures ReduceRight(trans, push) == Nested(trans, push)
    decreases |trans|
  {
    if |trans| > 0 {
      var n := |trans| - 1;
      ReduceRightNests(trans[..n], Through(trans[n], push));
      NestedLast(trans, push);
    }
  }

  lemma {:induction false} NestedLast(trans: seq<Transformer>, push: Push)
    requires |trans| > 0
    ensures Nested(trans, push) == Nested(trans[..|trans| - 1], Through(trans[|trans| - 1], push))
    decreases |trans|
  {
    if |trans| > 1 {
      assert trans[1..][..|trans| - 2] == trans[..|trans| - 1][1..];
      NestedLast(trans[1..], push);
    }
  }

  /** The transformer calls `reduceRight` makes: from the last-registered to the first,
      each with the push built so far. */
  function WrapCalls(trans: seq<Transformer>, push: Push): seq<Call> {
    if |trans| == 0 then []
    else [TransformerCall(trans[|trans| - 1], push)] + WrapCalls(trans[..|trans| - 1], Through(trans[|trans| - 1], push))
  }

  /** The calls `start(push)` makes for one producer. */
  function SetupCalls(m: map<Producer, seq<Transformer>>, p: Producer, push: Push): seq<Call> {
    var trans := TransformersOf(m, p);
    WrapCalls(trans, push) + [ProducerCall(p, ReduceRight(trans, push))]
  }

  /** The calls `start(push)` makes for the producers `ps`, in order. */
  function StartCalls(ps: seq<Producer>, m: map<Producer, seq<Transformer>>, push: Push): seq<Call> {
    if |ps| == 0 then [] else StartCalls(ps[..|ps| - 1], m, push) + SetupCalls(m, ps[|ps| - 1], push)
  }

  /** The producers called in a log, in order. */
  function ProducersCalled(log: seq<Call>): seq<Producer> {
    if |log| == 0 then []
    else (if log[0].ProducerCall? then [log[0].producer] else []) + ProducersCalled(log[1..])
  }

  lemma {:induction false} ProducersCalledAppend(a: seq<Call>, b: seq<Call>)
    ensures ProducersCalled(a + b) == ProducersCalled(a) + ProducersCalled(b)
  {
    if |a| == 0 {
      assert a + b == b;
    } else {
      assert (a + b)[0] == a[0] && (a + b)[1..] == a[1..] + b;
      ProducersCalledAppend(a[1..], b);
      Assoc(if a[0].ProducerCall? then [a[0].producer] else [], ProducersCalled(a[1..]), ProducersCalled(b));
    }
  }

  lemma {:induction false} WrapCallsNoProducer(trans: seq<Transformer>, push: Push)
    ensures ProducersCalled(WrapCalls(trans, push)) == []
    decreases |trans|
  {
    if |trans| > 0 {
      var n := |trans| - 1;
      WrapCallsNoProducer(trans[..n], Through(trans[n], push));
      ProducersCalledAppend([TransformerCall(trans[n], push)], WrapCalls(trans[..n], Through(trans[n], push)));
    }
  }

  /** `start` calls every registered producer exactly once, in registration order. */
  lemma {:induction false} StartCallsEachProducer(ps: seq<Producer>, m: map<Producer, seq<Transformer>>, push: Push)
    ensures ProducersCalled(StartCalls(ps, m, push)) == ps
    decreases |ps|
  {
    if |ps| > 0 {
      var n := |ps| - 1;
      var p := ps[n];
      var trans := TransformersOf(m, p);
      var pre := StartCalls(ps[..n], m, push);
      var wrap := WrapCalls(trans, push);
      var last := [ProducerCall(p, ReduceRight(trans, push))];
      assert StartCalls(ps, m, push) == pre + (wrap + last);
      StartCallsEachProducer(ps[..n], m, push);
      ProducersCalledAppend(pre, wrap + last);
      ProducersCalledAppend(wrap, last);
      WrapCallsNoProducer(trans, push);
      assert last[1..] == [];
      assert ps[..n] + [p] == ps;
    }
  }

  /** The teardown calls `destroys.map((kill) => kill())` makes. */
  function Teardowns(destroys: seq<nat>): (r: seq<Call>)
    ensures |r| == |destroys|
    ensures forall k :: 0 <= k < |r| ==> r[k] == TeardownCall(destroys[k])
  {
    if |destroys| == 0 then [] else [TeardownCall(destroys[0])] + Teardowns(destroys[1..])
  }

  /** The state `createTrackingPipeline` closes over. */
  class TrackingPipeline<V> {
    var producers: seq<Producer>
    var transformers: map<Producer, seq<Transformer>>
    /** The `document` entry of the context object: the host's `Document`, an opaque
        value identified by number. */
    var document: nat
    /** The symbol-keyed entries of the context object. */
    var ctx: map<nat, V>
    /** The log positions of the calls that returned the teardowns the last `start`
        collected; empty before the first `start`, so `stop` does nothing. */
    var onStop: seq<nat>
    var log: seq<Call>

    ghost predicate Valid()
      reads this
    {
      && Distinct(producers)
      && (forall p :: p in transformers ==> Distinct(transformers[p]))
      && (forall k :: 0 <= k < |onStop| ==> onStop[k] < |log| && log[onStop[k]].ProducerCall?)
    }

    /** `createTrackingPipeline({ document = window.document, ...options })`: `ctx` starts
        as `{ document, ...options }`, with the host's document when none is given. */
    constructor (document: Option<nat>, windowDocument: nat, options: map<nat, V>)
      ensures Valid() && producers == [] && transformers == map[] && ctx == options
      ensures this.document == (if document.Some? then document.value else windowDocument)
      ensures onStop == [] && log == []
    {
      producers, transformers, ctx := [], map[], options;
      this.document := if document.Some? then document.value else windowDocument;
      onStop, log := [], [];
    }

    /** `define(key, value)`: a later definition of the same key replaces the earlier. */
    method Define(key: nat, value: V)
      modifies this
      ensures ctx == old(ctx)[key := value] && document == old(document)
      ensures producers == old(producers) && transformers == old(transformers)
      ensures onStop == old(onStop) && log == old(log)
    {
      ctx := ctx[key := value];
    }

    /** `register(newProducers)`: adds each to the producer set. */
    method Register(newProducers: seq<Producer>)
      requires Valid()
      modifies this
      ensures Valid()
      ensures producers == AddAll(old(producers), newProducers)
      ensures transformers == old(transformers) && ctx == old(ctx) && document == old(document)
      ensures onStop == old(onStop) && log == old(log)
    {
      for i := 0 to |newProducers|
        invariant Valid()
        invariant producers == AddAll(old(producers), newProducers[..i])
        invariant transformers == old(transformers) && ctx == old(ctx) && document == old(document)
        invariant onStop == old(onStop) && log == old(log)
      {
        producers := SetAdd(producers, newProducers[i]);
        assert newProducers[..i + 1][..i] == newProducers[..i];
      }
      assert newProducers[..|newProducers|] == newProducers;
    }

    /** `transform(producer, transformer)`: adds the transformer to the producer's set,
        creating the set on first use. */
    method Transform(p: Producer, t: Transformer)
      requires Valid()
      modifies this
      ensures Valid()
      ensures transformers == old(transformers)[p := SetAdd(TransformersOf(old(transformers), p), t)]
      ensures producers == old(producers) && ctx == old(ctx) && document == old(document)
      ensures onStop == old(onStop) && log == old(log)
    {
      var list := TransformersOf(transformers, p);
      list := SetAdd(list, t);
      transformers := transformers[p := list];
    }

    /** `compose(sources, composer)`: does nothing. */
    method Compose(sources: seq<Producer>, composer: nat)
    {
    }

    /** `start(push)`: sets up each producer in registration order and keeps the
        teardowns for `stop`. */
    method Start(push: nat)
      requires Valid()
      modifies this
      ensures Valid()
      ensures log == old(log) + StartCalls(producers, transformers, Downstream(push))
      ensures |onStop| == |producers|
      ensures forall k :: 0 <= k < |onStop| ==>
                && |old(log)| <= onStop[k] < |log|
                && log[onStop[k]] == ProducerCall(producers[k], ReduceRight(TransformersOf(transformers, producers[k]), Downstream(push)))
      ensures forall j, k :: 0 <= j < k < |onStop| ==> onStop[j] < onStop[k]
      ensures producers == old(producers) && transformers == old(transformers)
      ensures ctx == old(ctx) && document == old(document)
    {
      var destroys: seq<nat> := [];
      for i := 0 to |producers|
        invariant producers == old(producers) && transformers == old(transformers)
        invariant ctx == old(ctx) && document == old(document)
        invariant log == old(log) + StartCalls(producers[..i], transformers, Downstream(push))
        invariant |destroys| == i
        invariant forall k :: 0 <= k < i ==>
                    && |old(log)| <= destroys[k] < |log|
                    && log[destroys[k]] == ProducerCall(producers[k], ReduceRight(TransformersOf(transformers, producers[k]), Downstream(push)))
        invariant forall j, k :: 0 <= j < k < i ==> destroys[j] < destroys[k]
        invariant Valid()
      {
        var p := producers[i];
        var next := SetUp(p, push);
        destroys := destroys + [|log| - 1];
        assert producers[..i + 1][..i] == producers[..i];
        Assoc(old(log), StartCalls(producers[..i], transformers, Downstream(push)), SetupCalls(transformers, p, Downstream(push)));
      }
      assert producers[..|producers|] == producers;
      onStop := destroys;
    }

    /** One producer of `start`: wraps the push with its transformers (`reduceRight`),
        then calls the producer with the result. */
    method SetUp(p: Producer, push: nat) returns (next: Push)
      requires Valid()
      modifies this
      ensures Valid()
      ensures log == old(log) + SetupCalls(transformers, p, Downstream(push))
      ensures next == ReduceRight(TransformersOf(transformers, p), Downstream(push))
      ensures producers == old(producers) && transformers == old(transformers)
      ensures ctx == old(ctx) && document == old(document)
      ensures onStop == old(onStop)
    {
      var trans := TransformersOf(transformers, p);
      next := Downstream(push);
      var k := |trans|;
      assert trans[..k] == trans;
      while k > 0
        invariant 0 <= k <= |trans|
        invariant ReduceRight(trans[..k], next) == ReduceRight(trans, Downstream(push))
        invariant log + WrapCalls(trans[..k], next) == old(log) + WrapCalls(trans, Downstream(push))
        invariant Valid()
        invariant producers == old(producers) && transformers == old(transformers)
        invariant ctx == old(ctx) && document == old(document)
        invariant onStop == old(onStop) && |log| >= |old(log)|
      {
        assert trans[..k][..k - 1] == trans[..k - 1];
        Assoc(log, [TransformerCall(trans[k - 1], next)], WrapCalls(trans[..k - 1], Through(trans[k - 1], next)));
        log := log + [TransformerCall(trans[k - 1], next)];
        next := Through(trans[k - 1], next);
        k := k - 1;
      }
      assert trans[..0] == [];
      log := log + [ProducerCall(p, next)];
      Assoc(old(log), WrapCalls(trans, Downstream(push)), [ProducerCall(p, next)]);
    }

    /** `stop()`: calls the teardowns of the last `start`, and keeps them, so a second
        `stop` calls them again; before any `start` it does nothing. */
    method Stop()
      requires Valid()
      modifies this
      ensures Valid()
      ensures log == old(log) + Teardowns(onStop)
      ensures onStop == old(onStop) && producers == old(producers)
      ensures transformers == old(transformers) && ctx == old(ctx) && document == old(document)
    {
      var calls: seq<Call> := [];
      for k := 0 to |onStop|
        invariant calls == Teardowns(onStop[..k])
      {
        calls := calls + [TeardownCall(onStop[k])];
      }
      assert onStop[..|onStop|] == onStop;
      log := log + calls;
    }
  }

  /** `createTrackingPipeline({ document, ...options })`: creates the pipeline and provides it in the
      active scope. */
  method CreateTrackingPipeline<V>(rt: Runtime<TrackingPipeline<V>>, document: Option<nat>, windowDocument: nat,
                                   options: map<nat, V>)
    returns (r: Result<TrackingPipeline<V>, ScopeError>)
    requires rt.Valid()
    modifies rt
    ensures rt.Valid() && rt.current == old(rt.current) && rt.calls == old(rt.calls)
    ensures rt.current.None? ==> r == Err(ContextNotAvailable) && rt.scopes == old(rt.scopes)
    ensures rt.current.Some? ==>
              && r.Ok? && fresh(r.value) && r.value.Valid()
              && r.value.producers == [] && r.value.ctx == options && r.value.onStop == []
              && r.value.document == (if document.Some? then document.value else windowDocument)
              && rt.scopes == old(rt.scopes)[rt.current.value := Apply(old(rt.scopes)[rt.current.value], ProvideCall(TrackingPipelineToken, r.value))]
  {
    var pipeline := new TrackingPipeline(document, windowDocument, options);
    var p := rt.Provide(TrackingPipelineToken, pipeline);
    if p.Err? {
      return Err(p.error);
    }
    r := Ok(pipeline);
  }

  /** `useTrackingPipeline()`: the pipeline of the nearest ancestor scope that created one. */
  method UseTrackingPipeline<V>(rt: Runtime<TrackingPipeline<V>>) returns (r: Result<TrackingPipeline<V>, ScopeError>)
    requires rt.Valid()
    ensures rt.current.None? ==> r == Err(ContextNotAvailable)
    ensures rt.current.Some? ==>
              match Lookup(rt.scopes, rt.scopes[rt.current.value].parent, TrackingPipelineToken)
              case None => r == Err(InjectableNotAvailable)
              case Some(pipeline) => r == Ok(pipeline)
  {
    r := rt.Inject(TrackingPipelineToken);
  }
}
