/** The registry of `createPipeline`: a JavaScript `Set` of descriptors, modelled as a
    sequence in insertion order without repetitions. `use(...items)` adds each item
    and, for a composer only, recursively uses the composer's dependencies. */
module Registry {
  import opened JsArrays
  import opened PipelineGraph

  /** One more than the largest id in `items`; it bounds the recursion of `use`. */
  function Bound(items: seq<NodeId>): (b: nat)
    ensures AllBelow(items, b)
  {
    if |items| == 0 then 0
    else var rest := Bound(items[1..]); if items[0] + 1 > rest then items[0] + 1 else rest
  }

  lemma {:induction false} BoundBelow(items: seq<NodeId>, x: nat)
    requires AllBelow(items, x)
    ensures Bound(items) <= x
  {
    if |items| > 0 {
      BoundBelow(items[1..], x);
    }
  }

  /** `registry.add(x)`: appends `x` unless it is already there. */
  function Insert(reg: seq<NodeId>, x: NodeId): seq<NodeId> {
    if x in reg then reg else reg + [x]
  }

  /** `use(...items)` applied to `reg`. */
  function AddAll(g: Graph, reg: seq<NodeId>, items: seq<NodeId>): seq<NodeId>
    requires WellFormed(g)
    requires AllBelow(items, |g|)
    decreases Bound(items), |items|
  {
    if |items| == 0 then reg
    else AddAll(g, AddOne(g, reg, items[0]), items[1..])
  }

  /** One iteration of `use`'s loop: add `x`, then `use(...x.deps)` if `x` is a composer. */
  function AddOne(g: Graph, reg: seq<NodeId>, x: NodeId): seq<NodeId>
    requires WellFormed(g)
    requires x < |g|
    decreases x + 1, 0
  {
    var r := Insert(reg, x);
    if g[x].Composer? then
      BoundBelow(g[x].deps, x);
      AddAll(g, r, g[x].deps)
    else r
  }

  /** Every item of `items` is in `reg`, and so are, transitively, the dependencies of
      the composers among them: exactly what `use(...items)` would add. */
  ghost predicate Covers(g: Graph, reg: seq<NodeId>, items: seq<NodeId>)
    requires WellFormed(g)
    requires AllBelow(items, |g|)
    decreases Bound(items), |items|
  {
    |items| > 0 ==> CoversOne(g, reg, items[0]) && Covers(g, reg, items[1..])
  }

  ghost predicate CoversOne(g: Graph, reg: seq<NodeId>, x: NodeId)
    requires WellFormed(g)
    requires x < |g|
    decreases x + 1, 0
  {
    x in reg && (g[x].Composer? ==> (BoundBelow(g[x].deps, x); Covers(g, reg, g[x].deps)))
  }

  /** `use` only appends: the registry keeps its order and gains no duplicate. */
  lemma {:induction false} AddAllExtends(g: Graph, reg: seq<NodeId>, items: seq<NodeId>)
    requires WellFormed(g)
    requires AllBelow(items, |g|)
    requires Distinct(reg)
    ensures var r := AddAll(g, reg, items); Distinct(r) && |reg| <= |r| && r[..|reg|] == reg
    ensures forall x :: x in AddAll(g, reg, items) ==> x in reg || x < |g|
    decreases Bound(items), |items|
  {
    if |items| > 0 {
      AddOneExtends(g, reg, items[0]);
      AddAllExtends(g, AddOne(g, reg, items[0]), items[1..]);
    }
  }

  lemma {:induction false} AddOneExtends(g: Graph, reg: seq<NodeId>, x: NodeId)
    requires WellFormed(g)
    requires x < |g|
    requires Distinct(reg)
    ensures var r := AddOne(g, reg, x); Distinct(r) && |reg| <= |r| && r[..|reg|] == reg
    ensures forall y :: y in AddOne(g, reg, x) ==> y in reg || y < |g|
    decreases x + 1, 0
  {
    var r := Insert(reg, x);
    assert Distinct(r) && r[..|reg|] == reg;
    if g[x].Composer? {
      BoundBelow(g[x].deps, x);
      AddAllExtends(g, r, g[x].deps);
    }
  }

  /** Whatever `use(...items)` covers stays covered when more is registered. */
  lemma {:induction false} CoversMono(g: Graph, reg: seq<NodeId>, reg': seq<NodeId>, items: seq<NodeId>)
    requires WellFormed(g)
    requires AllBelow(items, |g|)
    requires forall y :: y in reg ==> y in reg'
    requires Covers(g, reg, items)
    ensures Covers(g, reg', items)
    decreases Bound(items), |items|
  {
    if |items| > 0 {
      CoversOneMono(g, reg, reg', items[0]);
      CoversMono(g, reg, reg', items[1..]);
    }
  }

  lemma {:induction false} CoversOneMono(g: Graph, reg: seq<NodeId>, reg': seq<NodeId>, x: NodeId)
    requires WellFormed(g)
    requires x < |g|
    requires forall y :: y in reg ==> y in reg'
    requires CoversOne(g, reg, x)
    ensures CoversOne(g, reg', x)
    decreases x + 1, 0
  {
    if g[x].Composer? {
      BoundBelow(g[x].deps, x);
      CoversMono(g, reg, reg', g[x].deps);
    }
  }

  /** After `use(...items)` every item is registered, and every composer reached has its
      dependencies registered too. */
  lemma {:induction false} AddAllCovers(g: Graph, reg: seq<NodeId>, items: seq<NodeId>)
    requires WellFormed(g)
    requires AllBelow(items, |g|)
    ensures Covers(g, AddAll(g, reg, items), items)
    ensures forall y :: y in reg ==> y in AddAll(g, reg, items)
    decreases Bound(items), |items|
  {
    if |items| > 0 {
      var r1 := AddOne(g, reg, items[0]);
      AddOneCovers(g, reg, items[0]);
      AddAllCovers(g, r1, items[1..]);
      CoversOneMono(g, r1, AddAll(g, r1, items[1..]), items[0]);
    }
  }

  lemma {:induction false} AddOneCovers(g: Graph, reg: seq<NodeId>, x: NodeId)
    requires WellFormed(g)
    requires x < |g|
    ensures CoversOne(g, AddOne(g, reg, x), x)
    ensures forall y :: y in reg ==> y in AddOne(g, reg, x)
    decreases x + 1, 0
  {
    var r := Insert(reg, x);
    if g[x].Composer? {
      BoundBelow(g[x].deps, x);
      AddAllCovers(g, r, g[x].deps);
    }
  }

  /** `use(...items)` changes nothing once everything it would add is registered. */
  lemma {:induction false} AddAllCovered(g: Graph, reg: seq<NodeId>, items: seq<NodeId>)
    requires WellFormed(g)
    requires AllBelow(items, |g|)
    requires Covers(g, reg, items)
    ensures AddAll(g, reg, items) == reg
    decreases Bound(items), |items|
  {
    if |items| > 0 {
      AddOneCovered(g, reg, items[0]);
      AddAllCovered(g, reg, items[1..]);
    }
  }

  lemma {:induction false} AddOneCovered(g: Graph, reg: seq<NodeId>, x: NodeId)
    requires WellFormed(g)
    requires x < |g|
    requires CoversOne(g, reg, x)
    ensures AddOne(g, reg, x) == reg
    decreases x + 1, 0
  {
    if g[x].Composer? {
      BoundBelow(g[x].deps, x);
      AddAllCovered(g, reg, g[x].deps);
    }
  }

  /** Registering the same items twice is the same as registering them once. */
  lemma UseIdempotent(g: Graph, reg: seq<NodeId>, items: seq<NodeId>)
    requires WellFormed(g)
    requires AllBelow(items, |g|)
    ensures AddAll(g, AddAll(g, reg, items), items) == AddAll(g, reg, items)
  {
    AddAllCovers(g, reg, items);
    AddAllCovered(g, AddAll(g, reg, items), items);
  }

  /** Registering a composer registers each of its dependencies. */
  lemma UseComposerRegistersDeps(g: Graph, reg: seq<NodeId>, c: NodeId)
    requires WellFormed(g)
    requires c < |g| && g[c].Composer?
    ensures var r := AddAll(g, reg, [c]); c in r && forall d :: d in g[c].deps ==> d in r
  {
    AddAllCovers(g, reg, [c]);
    BoundBelow(g[c].deps, c);
    CoversMembers(g, AddAll(g, reg, [c]), g[c].deps);
  }

  lemma {:induction false} CoversMembers(g: Graph, reg: seq<NodeId>, items: seq<NodeId>)
    requires WellFormed(g)
    requires AllBelow(items, |g|)
    requires Covers(g, reg, items)
    ensures forall x :: x in items ==> x in reg
    decreases |items|
  {
    if |items| > 0 {
      CoversMembers(g, reg, items[1..]);
    }
  }

  /** `y` is one of `items`, or, transitively, a dependency of a composer among them:
      what `use(...items)` reaches. */
  ghost predicate Reaches(g: Graph, items: seq<NodeId>, y: NodeId)
    requires WellFormed(g)
    requires AllBelow(items, |g|)
    decreases Bound(items), |items|
  {
    |items| > 0 && (ReachesOne(g, items[0], y) || Reaches(g, items[1..], y))
  }

  ghost predicate ReachesOne(g: Graph, x: NodeId, y: NodeId)
    requires WellFormed(g)
    requires x < |g|
    decreases x + 1, 0
  {
    y == x || (g[x].Composer? && (BoundBelow(g[x].deps, x); Reaches(g, g[x].deps, y)))
  }

  /** `use(...items)` adds exactly what it reaches: every entry afterwards was there
      before or is reached from the items, and everything reached is registered. */
  lemma UseAddsExactlyReached(g: Graph, reg: seq<NodeId>, items: seq<NodeId>)
    requires WellFormed(g)
    requires AllBelow(items, |g|)
    ensures forall y :: y in AddAll(g, reg, items) <==> y in reg || Reaches(g, items, y)
  {
    AddAllOnlyReached(g, reg, items);
    AddAllCovers(g, reg, items);
    forall y | Reaches(g, items, y)
      ensures y in AddAll(g, reg, items)
    {
      CoveredReached(g, AddAll(g, reg, items), items, y);
    }
  }

  lemma {:induction false} AddAllOnlyReached(g: Graph, reg: seq<NodeId>, items: seq<NodeId>)
    requires WellFormed(g)
    requires AllBelow(items, |g|)
    ensures forall y :: y in AddAll(g, reg, items) ==> y in reg || Reaches(g, items, y)
    decreases Bound(items), |items|
  {
    if |items| > 0 {
      AddOneOnlyReached(g, reg, items[0]);
      AddAllOnlyReached(g, AddOne(g, reg, items[0]), items[1..]);
    }
  }

  lemma {:induction false} AddOneOnlyReached(g: Graph, reg: seq<NodeId>, x: NodeId)
    requires WellFormed(g)
    requires x < |g|
    ensures forall y :: y in AddOne(g, reg, x) ==> y in reg || ReachesOne(g, x, y)
    decreases x + 1, 0
  {
    if g[x].Composer? {
      BoundBelow(g[x].deps, x);
      AddAllOnlyReached(g, Insert(reg, x), g[x].deps);
    }
  }

  /** A registry that covers `items` holds everything they reach. */
  lemma {:induction false} CoveredReached(g: Graph, reg: seq<NodeId>, items: seq<NodeId>, y: NodeId)
    requires WellFormed(g)
    requires AllBelow(items, |g|)
    requires Covers(g, reg, items) && Reaches(g, items, y)
    ensures y in reg
    decreases Bound(items), |items|
  {
    if ReachesOne(g, items[0], y) {
      CoveredReachedOne(g, reg, items[0], y);
    } else {
      CoveredReached(g, reg, items[1..], y);
    }
  }

  lemma {:induction false} CoveredReachedOne(g: Graph, reg: seq<NodeId>, x: NodeId, y: NodeId)
    requires WellFormed(g)
    requires x < |g|
    requires CoversOne(g, reg, x) && ReachesOne(g, x, y)
    ensures y in reg
    decreases x + 1, 0
  {
    if y != x {
      BoundBelow(g[x].deps, x);
      CoveredReached(g, reg, g[x].deps, y);
    }
  }

  /** Consumers and transformers are registered alone: their dependencies are not. */
  lemma UseLeafRegistersOnlyItself(g: Graph, reg: seq<NodeId>, x: NodeId)
    requires WellFormed(g)
    requires x < |g| && !g[x].Composer?
    ensures AddAll(g, reg, [x]) == Insert(reg, x)
  {
    assert [x][1..] == [];
  }
}
