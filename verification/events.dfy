/** Event identifiers and the emitter chain (`use-event.ts`).

    An emitter is a value: the root emitter a module provided (a sink, identified by a
    number), or a map applied before a further emitter. Maps are opaque functions,
    identified by number and interpreted by a `maps` parameter. The id store is an object
    shared by every getter made under the scope that provided it. */
module Events {
  import opened Results
  import opened ScopeTree
  import opened ScopeRuntime

  /** The tokens `createContext()` creates for the emitter and for the id store. */
  const EventEmitterToken: Token := 2
  const EventIdToken: Token := 3

  datatype Emitter = Sink(sink: nat) | Mapped(f: nat, next: Emitter)

  /** Where an event emitted through `em` ends up: the sink that receives it, and the
      event it receives. */
  function Deliver<E>(em: Emitter, maps: nat -> E -> E, e: E): (nat, E) {
    match em
    case Sink(k) => (k, e)
    case Mapped(f, next) => Deliver(next, maps, maps(f)(e))
  }

  /** The emitter a module sees after the modules above it, outermost first, called
      `useEventTransformer(fs[0])`, …, `useEventTransformer(fs[|fs| - 1])` below a
      module that provided `Sink(k)`. */
  function Chain(k: nat, fs: seq<nat>): Emitter {
    if |fs| == 0 then Sink(k) else Mapped(fs[|fs| - 1], Chain(k, fs[..|fs| - 1]))
  }

  /** The maps `fs` applied innermost (last) first. */
  function InnermostFirst<E>(maps: nat -> E -> E, fs: seq<nat>, e: E): E {
    if |fs| == 0 then e else maps(fs[0])(InnermostFirst(maps, fs[1..], e))
  }

  /** Through a chain of transformers, an event reaches the root sink with the nearest
      (innermost) map applied first and the outermost map last. */
  lemma {:induction false} ChainDelivers<E>(k: nat, fs: seq<nat>, maps: nat -> E -> E, e: E)
    ensures Deliver(Chain(k, fs), maps, e) == (k, InnermostFirst(maps, fs, e))
  {
    if |fs| > 0 {
      var n := |fs| - 1;
      ChainDelivers(k, fs[..n], maps, maps(fs[n])(e));
      InnermostLast(maps, fs, e);
    }
  }

  /** Peeling the innermost map off the end of the list. */
  lemma {:induction false} InnermostLast<E>(maps: nat -> E -> E, fs: seq<nat>, e: E)
    requires |fs| > 0
    ensures InnermostFirst(maps, fs, e) == InnermostFirst(maps, fs[..|fs| - 1], maps(fs[|fs| - 1])(e))
  {
    if |fs| > 1 {
      assert fs[1..][..|fs[1..]| - 1] == fs[..|fs| - 1][1..];
      InnermostLast(maps, fs[1..], e);
    }
  }

  /** `useEventEmitter()`: the emitter the nearest ancestor provided; it fails when none did. */
  method UseEventEmitter(rt: Runtime<Emitter>) returns (r: Result<Emitter, ScopeError>)
    requires rt.Valid()
    ensures rt.current.None? ==> r == Err(ContextNotAvailable)
    ensures rt.current.Some? ==>
              match Lookup(rt.scopes, rt.scopes[rt.current.value].parent, EventEmitterToken)
              case None => r == Err(InjectableNotAvailable)
              case Some(em) => r == Ok(em)
  {
    r := rt.Inject(EventEmitterToken);
  }

  /** `provideEventEmitter(emit)`. */
  method ProvideEventEmitter(rt: Runtime<Emitter>, k: nat) returns (r: Result<Unit, ScopeError>)
    requires rt.Valid()
    modifies rt
    ensures rt.Valid() && rt.current == old(rt.current) && rt.calls == old(rt.calls)
    ensures rt.current.None? ==> r == Err(ContextNotAvailable) && rt.scopes == old(rt.scopes)
    ensures rt.current.Some? ==>
              r == Ok(Unit) &&
              rt.scopes == old(rt.scopes)[rt.current.value := Apply(old(rt.scopes)[rt.current.value], ProvideCall(EventEmitterToken, Sink(k)))]
  {
    r := rt.Provide(EventEmitterToken, Sink(k));
  }

  /** `useEventTransformer(map)`: provides, to the modules below, the inherited emitter
      with `map` applied first. */
  method UseEventTransformer(rt: Runtime<Emitter>, f: nat) returns (r: Result<Unit, ScopeError>)
    requires rt.Valid()
    modifies rt
    ensures rt.Valid() && rt.current == old(rt.current) && rt.calls == old(rt.calls)
    ensures rt.current.None? ==> r == Err(ContextNotAvailable) && rt.scopes == old(rt.scopes)
    ensures rt.current.Some? ==>
              match Lookup(old(rt.scopes), old(rt.scopes)[rt.current.value].parent, EventEmitterToken)
              case None => r == Err(InjectableNotAvailable) && rt.scopes == old(rt.scopes)
              case Some(em) =>
                r == Ok(Unit) &&
                rt.scopes == old(rt.scopes)[rt.current.value := Apply(old(rt.scopes)[rt.current.value], ProvideCall(EventEmitterToken, Mapped(f, em)))]
  {
    var emit := rt.Inject(EventEmitterToken);
    if emit.Err? {
      return Err(emit.error);
    }
    r := rt.Provide(EventEmitterToken, Mapped(f, emit.value));
  }

  /** The store `setupEventIdentifier` provides. */
  class IdStore {
    var currentEventId: int

    /** `{ currentEventId: 1 }`. */
    constructor ()
      ensures currentEventId == 1
    {
      currentEventId := 1;
    }

    /** The getter `useEventIdentifier` returns: `store.currentEventId++`. */
    method Next() returns (id: int)
      modifies this
      ensures id == old(currentEventId) && currentEventId == id + 1
    {
      id := currentEventId;
      currentEventId := currentEventId + 1;
    }
  }

  /** The ids a fresh store hands out over `n` calls, by whichever getters share it. */
  function IdsFrom(first: int, n: nat): (r: seq<int>)
    ensures |r| == n
    ensures forall i :: 0 <= i < n ==> r[i] == first + i
    decreases n
  {
    if n == 0 then [] else [first] + IdsFrom(first + 1, n - 1)
  }

  /** Getters made under the same store draw from one counter: whatever mix of them makes
      `n` calls, the ids are `1, 2, …, n` when the store is fresh. */
  method DrawIds(store: IdStore, n: nat) returns (ids: seq<int>)
    modifies store
    ensures ids == IdsFrom(old(store.currentEventId), n)
    ensures store.currentEventId == old(store.currentEventId) + n
  {
    ids := [];
    var k := 0;
    while k < n
      invariant k <= n
      invariant ids == IdsFrom(old(store.currentEventId), k)
      invariant store.currentEventId == old(store.currentEventId) + k
    {
      var id := store.Next();
      ids := ids + [id];
      k := k + 1;
    }
  }

  /** One call of each of two getters, `g1` first. Getters share a counter exactly when
      they were made from the same store, that is, when their `inject` found the same
      `setupEventIdentifier`: then the second call sees the first call's increment, and
      otherwise each counter moves on its own. */
  method TwoGetters(g1: IdStore, g2: IdStore) returns (a: int, b: int)
    modifies g1, g2
    ensures a == old(g1.currentEventId)
    ensures g1 == g2 ==> b == a + 1 && g2.currentEventId == b + 1
    ensures g1 != g2 ==> && b == old(g2.currentEventId)
                         && g1.currentEventId == a + 1 && g2.currentEventId == b + 1
  {
    a := g1.Next();
    b := g2.Next();
  }

  /** `setupEventIdentifier()`. */
  method SetupEventIdentifier(rt: Runtime<IdStore>) returns (r: Result<IdStore, ScopeError>)
    requires rt.Valid()
    modifies rt
    ensures rt.Valid() && rt.current == old(rt.current) && rt.calls == old(rt.calls)
    ensures rt.current.None? ==> r == Err(ContextNotAvailable) && rt.scopes == old(rt.scopes)
    ensures rt.current.Some? ==>
              && r.Ok? && fresh(r.value) && r.value.currentEventId == 1
              && rt.scopes == old(rt.scopes)[rt.current.value := Apply(old(rt.scopes)[rt.current.value], ProvideCall(EventIdToken, r.value))]
  {
    var store := new IdStore();
    var p := rt.Provide(EventIdToken, store);
    if p.Err? {
      return Err(p.error);
    }
    r := Ok(store);
  }

  /** `useEventIdentifier()`: the store of the nearest ancestor that set one up (the
      getter it returns is `IdStore.Next` on that store). */
  method UseEventIdentifier(rt: Runtime<IdStore>) returns (r: Result<IdStore, ScopeError>)
    requires rt.Valid()
    ensures rt.current.None? ==> r == Err(ContextNotAvailable)
    ensures rt.current.Some? ==>
              match Lookup(rt.scopes, rt.scopes[rt.current.value].parent, EventIdToken)
              case None => r == Err(InjectableNotAvailable)
              case Some(store) => r == Ok(store)
  {
    r := rt.Inject(EventIdToken);
  }
}
