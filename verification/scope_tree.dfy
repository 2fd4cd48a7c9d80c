/** The scope tree of the module runtime.

    Every `mount` creates a scope (a `ModuleContext`) whose parent is the scope that was
    active, and the module instance it returns is identified with that scope. Scopes live
    in an arena and are named by their index. A parent exists before its children are
    created, so every parent index is smaller than its child's, and every index in a
    `children` list is larger than its owner's.

    This module holds the pure parts: the `inject` walk up the parents, the member lookup
    of an instance, and `destroy` as a function of the arena. Injection tokens, hooks and
    exposed methods are opaque, so they are numbers. */
module ScopeTree {
  import opened Results
  import opened JsArrays

  /** A `Context<T>` token (a fresh `Symbol`). */
  type Token = nat
  /** An opaque `FnHook`. */
  type Hook = nat
  /** An opaque exposed method. */
  type Fn = nat

  datatype Scope<V> = Scope(
    parent: Option<nat>,
    providers: map<Token, V>,
    mountHooks: seq<Hook>,
    destroyHooks: seq<Hook>,
    children: seq<nat>,
    exposed: map<string, Fn>)

  /** The context `mount` creates: empty hooks, providers, children and exposed table. */
  function Fresh<V>(parent: Option<nat>): Scope<V> {
    Scope(parent, map[], [], [], [], map[])
  }

  /** Parents come first; a `children` list has no repetition and holds only scopes whose
      parent is its owner. */
  ghost predicate WellFormed<V>(s: seq<Scope<V>>) {
    forall i :: 0 <= i < |s| ==>
      && (s[i].parent.Some? ==> s[i].parent.value < i)
      && Distinct(s[i].children)
      && forall k :: 0 <= k < |s[i].children| ==>
           i < s[i].children[k] < |s| && s[s[i].children[k]].parent == Some(i)
  }

  /** `s'` differs from `s` at most by having dropped entries from `children` lists and
      by having emptied `destroyHooks` lists. */
  ghost predicate Shrinks<V>(s: seq<Scope<V>>, s': seq<Scope<V>>) {
    && |s'| == |s|
    && forall i :: 0 <= i < |s| ==>
         && s'[i].parent == s[i].parent
         && s'[i].providers == s[i].providers
         && s'[i].mountHooks == s[i].mountHooks
         && s'[i].exposed == s[i].exposed
         && Distinct(s'[i].children)
         && (s'[i].destroyHooks == s[i].destroyHooks || s'[i].destroyHooks == [])
         && forall c :: c in s'[i].children ==> c in s[i].children
  }

  lemma ShrinksWellFormed<V>(s: seq<Scope<V>>, s': seq<Scope<V>>)
    requires WellFormed(s) && Shrinks(s, s')
    ensures WellFormed(s')
  {
    forall i, k | 0 <= i < |s'| && 0 <= k < |s'[i].children|
      ensures i < s'[i].children[k] < |s'| && s'[s'[i].children[k]].parent == Some(i)
    {
      var c := s'[i].children[k];
      assert c in s'[i].children;
      assert c in s[i].children;
      var k' :| 0 <= k' < |s[i].children| && s[i].children[k'] == c;
    }
  }

  lemma ShrinksTrans<V>(s: seq<Scope<V>>, s': seq<Scope<V>>, s'': seq<Scope<V>>)
    requires Shrinks(s, s') && Shrinks(s', s'')
    ensures Shrinks(s, s'')
  {
  }

  /** Every entry of `kids` is a scope above `id` whose parent is `id`. */
  ghost predicate ChildrenOf<V>(s: seq<Scope<V>>, id: nat, kids: seq<nat>) {
    id < |s| && forall k :: 0 <= k < |kids| ==> id < kids[k] < |s| && s[kids[k]].parent == Some(id)
  }

  /** Children that are still waiting to be destroyed keep their place and parent. */
  lemma KidsStay<V>(s: seq<Scope<V>>, s': seq<Scope<V>>, id: nat, kids: seq<nat>)
    requires Shrinks(s, s') && ChildrenOf(s, id, kids)
    ensures ChildrenOf(s', id, kids) && ChildrenOf(s', id, if kids == [] then [] else kids[1..])
  {
  }

  /** Removing one entry keeps a list free of repetitions and adds nothing to it. */
  lemma RemoveAtShrinks(xs: seq<nat>, k: nat)
    requires Distinct(xs) && k < |xs|
    ensures var r := xs[..k] + xs[k + 1..];
            Distinct(r) && xs[k] !in r
            && forall x :: x in r <==> x in xs && x != xs[k]
  {
    var r := xs[..k] + xs[k + 1..];
    assert forall j :: 0 <= j < |r| ==> r[j] == if j < k then xs[j] else xs[j + 1];
    forall x | x in xs && x != xs[k] ensures x in r {
      var j :| 0 <= j < |xs| && xs[j] == x;
      if j < k { assert r[j] == x; } else { assert r[j - 1] == x; }
    }
  }

  // ---------------------------------------------------------------------------------
  // inject

  /** `inject(t)` started at `at`: the value of the first scope on the way up that
      provides `t`. */
  function Lookup<V>(s: seq<Scope<V>>, at: Option<nat>, t: Token): Option<V>
    requires WellFormed(s)
    requires at.Some? ==> at.value < |s|
    decreases if at.Some? then at.value + 1 else 0
  {
    match at
    case None => None
    case Some(i) =>
      if t in s[i].providers then Some(s[i].providers[t]) else Lookup(s, s[i].parent, t)
  }

  /** The scopes from `at` up to the root, following `parent`. */
  function Ancestors<V>(s: seq<Scope<V>>, at: Option<nat>): (r: seq<nat>)
    requires WellFormed(s)
    requires at.Some? ==> at.value < |s|
    ensures at.None? <==> r == []
    ensures at.Some? ==> r[0] == at.value
    ensures forall k :: 0 <= k < |r| ==> r[k] < |s|
    ensures forall k :: 0 <= k < |r| - 1 ==> s[r[k]].parent == Some(r[k + 1])
    ensures |r| > 0 ==> s[r[|r| - 1]].parent == None
    decreases if at.Some? then at.value + 1 else 0
  {
    match at
    case None => []
    case Some(i) => [i] + Ancestors(s, s[i].parent)
  }

  /** `inject` finds the provider nearest to its starting scope: it fails exactly when
      no scope on the path to the root provides `t`, and otherwise answers the value of
      the first one that does. */
  lemma {:induction false} LookupNearest<V>(s: seq<Scope<V>>, at: Option<nat>, t: Token)
    requires WellFormed(s)
    requires at.Some? ==> at.value < |s|
    ensures Lookup(s, at, t).None? ==>
              forall k :: 0 <= k < |Ancestors(s, at)| ==> t !in s[Ancestors(s, at)[k]].providers
    ensures Lookup(s, at, t).Some? ==>
              exists k :: 0 <= k < |Ancestors(s, at)| && FirstProvider(s, Ancestors(s, at), t, k)
                          && Lookup(s, at, t).value == s[Ancestors(s, at)[k]].providers[t]
    decreases if at.Some? then at.value + 1 else 0
  {
    if at.Some? {
      var i := at.value;
      var a := Ancestors(s, at);
      var up := Ancestors(s, s[i].parent);
      assert a == [i] + up;
      LookupNearest(s, s[i].parent, t);
      if t in s[i].providers {
        assert FirstProvider(s, a, t, 0);
      } else {
        assert Lookup(s, at, t) == Lookup(s, s[i].parent, t);
        if Lookup(s, at, t).Some? {
          var k :| 0 <= k < |up| && FirstProvider(s, up, t, k)
                   && Lookup(s, s[i].parent, t).value == s[up[k]].providers[t];
          assert a[k + 1] == up[k];
          forall j | 0 <= j < k + 1 ensures t !in s[a[j]].providers {
            if j > 0 { assert a[j] == up[j - 1]; }
          }
          assert FirstProvider(s, a, t, k + 1);
        } else {
          forall k | 0 <= k < |a| ensures t !in s[a[k]].providers {
            if k > 0 { assert a[k] == up[k - 1]; }
          }
        }
      }
    }
  }

  /** The `k`-th scope of `path` provides `t` and none before it does. */
  ghost predicate FirstProvider<V>(s: seq<Scope<V>>, path: seq<nat>, t: Token, k: nat)
    requires forall j :: 0 <= j < |path| ==> path[j] < |s|
  {
    k < |path| && t in s[path[k]].providers && forall j :: 0 <= j < k ==> t !in s[path[j]].providers
  }

  /** `inject` from `at` reads nothing but the parents and providers of scopes at or
      below `at`. */
  lemma {:induction false} LookupFrame<V>(s: seq<Scope<V>>, s': seq<Scope<V>>, n: nat, at: Option<nat>, t: Token)
    requires WellFormed(s) && WellFormed(s')
    requires n <= |s| && n <= |s'|
    requires forall i :: 0 <= i < n ==> s'[i].parent == s[i].parent && s'[i].providers == s[i].providers
    requires at.Some? ==> at.value < n
    ensures Lookup(s', at, t) == Lookup(s, at, t)
    decreases if at.Some? then at.value + 1 else 0
  {
    if at.Some? {
      LookupFrame(s, s', n, s[at.value].parent, t);
    }
  }

  /** A scope's own `provide` is invisible to its own `inject`, which starts at the
      parent. */
  lemma OwnProvideInvisible<V>(s: seq<Scope<V>>, cur: nat, t: Token, v: V, t': Token)
    requires WellFormed(s) && cur < |s|
    ensures WellFormed(s[cur := s[cur].(providers := s[cur].providers[t := v])])
    ensures Lookup(s[cur := s[cur].(providers := s[cur].providers[t := v])], s[cur].parent, t')
            == Lookup(s, s[cur].parent, t')
  {
    var s' := s[cur := s[cur].(providers := s[cur].providers[t := v])];
    assert forall i :: 0 <= i < |s| ==> s'[i].parent == s[i].parent && s'[i].children == s[i].children;
    LookupFrame(s, s', cur, s[cur].parent, t');
  }

  /** Providing in a scope makes the value visible to the injections of its children,
      and it shadows whatever the scopes above provide for the same token. */
  lemma ProvideShadows<V>(s: seq<Scope<V>>, cur: nat, t: Token, v: V, child: nat)
    requires WellFormed(s) && cur < |s| && child < |s| && s[child].parent == Some(cur)
    ensures WellFormed(s[cur := s[cur].(providers := s[cur].providers[t := v])])
    ensures Lookup(s[cur := s[cur].(providers := s[cur].providers[t := v])], s[child].parent, t) == Some(v)
  {
    var s' := s[cur := s[cur].(providers := s[cur].providers[t := v])];
    assert forall i :: 0 <= i < |s| ==> s'[i].parent == s[i].parent && s'[i].children == s[i].children;
  }

  // ---------------------------------------------------------------------------------
  // instance members

  /** What reading a property of a module instance finds: its own `destroy`, or a method
      found through its prototype, the scope's `exposed` table. */
  datatype Member = OwnDestroy | ExposedFn(f: Fn) | Missing

  function MemberOf<V>(sc: Scope<V>, name: string): Member {
    if name == "destroy" then OwnDestroy
    else if name in sc.exposed then ExposedFn(sc.exposed[name])
    else Missing
  }

  /** `expose(methods)`: `Object.assign(exposed, methods)`. */
  function Exposing<V>(sc: Scope<V>, methods: map<string, Fn>): Scope<V> {
    sc.(exposed := sc.exposed + methods)
  }

  /** After `expose`, the new methods win over earlier ones of the same name, the others
      stay reachable, and no exposed method can replace the instance's own `destroy`. */
  lemma ExposeMerges<V>(sc: Scope<V>, methods: map<string, Fn>, name: string)
    ensures MemberOf(Exposing(sc, methods), name) ==
              if name == "destroy" then OwnDestroy
              else if name in methods then ExposedFn(methods[name])
              else MemberOf(sc, name)
  {
  }

  // ---------------------------------------------------------------------------------
  // destroy

  /** The arena after a `destroy`, and the destroy hooks it called, in order. */
  datatype Teardown<V> = Teardown(scopes: seq<Scope<V>>, ran: seq<Hook>)

  /** `destroy()` of the instance of scope `id`: empty its children and destroy-hook lists,
      call the hooks, destroy the former children in order, then detach from the parent
      (the intended detach: see `DetachAsWritten` for the step as written). */
  function Destroyed<V>(s: seq<Scope<V>>, id: nat): (r: Teardown<V>)
    requires WellFormed(s) && id < |s|
    ensures Shrinks(s, r.scopes) && WellFormed(r.scopes)
    decreases |s| - id, 1
  {
    var s1 := Cleared(s, id);
    var t := DestroyedEach(s1, id, s[id].children);
    ShrinksTrans(s, s1, t.scopes);
    var r := Detach(t.scopes, id);
    ShrinksTrans(s, t.scopes, r);
    ShrinksWellFormed(s, r);
    Teardown(r, s[id].destroyHooks + t.ran)
  }

  /** The first step of `destroy`: the instance's children and destroy-hook lists are
      swapped for empty ones. */
  function Cleared<V>(s: seq<Scope<V>>, id: nat): (r: seq<Scope<V>>)
    requires WellFormed(s) && id < |s|
    ensures r == s[id := s[id].(children := [], destroyHooks := [])]
    ensures Shrinks(s, r) && WellFormed(r) && ChildrenOf(r, id, s[id].children)
  {
    var r := s[id := s[id].(children := [], destroyHooks := [])];
    assert Shrinks(s, r);
    ShrinksWellFormed(s, r);
    r
  }

  /** `for (const child of children) child.destroy()`, the arena threaded through. */
  function DestroyedEach<V>(s: seq<Scope<V>>, id: nat, kids: seq<nat>): (r: Teardown<V>)
    requires WellFormed(s) && ChildrenOf(s, id, kids)
    ensures Shrinks(s, r.scopes) && WellFormed(r.scopes)
    decreases |s| - id, 0, |kids|
  {
    if |kids| == 0 then Teardown(s, [])
    else
      var t1 := Destroyed(s, kids[0]);
      KidsStay(s, t1.scopes, id, kids);
      var t2 := DestroyedEach(t1.scopes, id, kids[1..]);
      ShrinksTrans(s, t1.scopes, t2.scopes);
      Teardown(t2.scopes, t1.ran + t2.ran)
  }

  /** `destroy` touches only the instance's own subtree, which sits above it in the arena,
      and the children list of its parent; the instance ends with no children and no
      destroy hooks. */
  lemma {:induction false} DestroyedFrame<V>(s: seq<Scope<V>>, id: nat)
    requires WellFormed(s) && id < |s|
    ensures var r := Destroyed(s, id).scopes;
            && (forall j :: 0 <= j < id && Some(j) != s[id].parent ==> r[j] == s[j])
            && (s[id].parent.Some? ==> r[s[id].parent.value].destroyHooks == s[s[id].parent.value].destroyHooks)
            && r[id].children == [] && r[id].destroyHooks == []
    decreases |s| - id, 1
  {
    var s1 := Cleared(s, id);
    DestroyedEachFrame(s1, id, s[id].children);
  }

  lemma {:induction false} DestroyedEachFrame<V>(s: seq<Scope<V>>, id: nat, kids: seq<nat>)
    requires WellFormed(s) && ChildrenOf(s, id, kids)
    ensures var r := DestroyedEach(s, id, kids).scopes;
            && (forall j :: 0 <= j < id ==> r[j] == s[j])
            && r[id].destroyHooks == s[id].destroyHooks
            && (s[id].children == [] ==> r[id].children == [])
    decreases |s| - id, 0, |kids|
  {
    if |kids| > 0 {
      var t1 := Destroyed(s, kids[0]);
      DestroyedFrame(s, kids[0]);
      KidsStay(s, t1.scopes, id, kids);
      DestroyedEachFrame(t1.scopes, id, kids[1..]);
      assert |t1.scopes[id].children| > 0 ==> t1.scopes[id].children[0] in s[id].children;
    }
  }

  /** One unfolding of `Destroyed`. */
  lemma DestroyedUnfold<V>(s: seq<Scope<V>>, id: nat)
    requires WellFormed(s) && id < |s|
    ensures var t := DestroyedEach(Cleared(s, id), id, s[id].children);
            && Destroyed(s, id).scopes == Detach(t.scopes, id)
            && Destroyed(s, id).ran == s[id].destroyHooks + t.ran
            && t.scopes[id].parent == s[id].parent
  {
  }

  /** One unfolding of `DestroyedEach`. */
  lemma DestroyedEachUnfold<V>(s: seq<Scope<V>>, id: nat, kids: seq<nat>)
    requires WellFormed(s) && ChildrenOf(s, id, kids) && |kids| > 0
    ensures var t1 := Destroyed(s, kids[0]);
            && ChildrenOf(t1.scopes, id, kids[1..])
            && DestroyedEach(s, id, kids).scopes == DestroyedEach(t1.scopes, id, kids[1..]).scopes
            && DestroyedEach(s, id, kids).ran == t1.ran + DestroyedEach(t1.scopes, id, kids[1..]).ran
  {
    KidsStay(s, Destroyed(s, kids[0]).scopes, id, kids);
  }

  /** `DestroyedEachUnfold` at the `k`-th child of a list. */
  lemma DestroyedEachStep<V>(s: seq<Scope<V>>, id: nat, kids: seq<nat>, k: nat)
    requires WellFormed(s) && k < |kids| && ChildrenOf(s, id, kids[k..])
    ensures kids[k] < |s|
    ensures var t1 := Destroyed(s, kids[k]);
            && ChildrenOf(t1.scopes, id, kids[k + 1..])
            && DestroyedEach(s, id, kids[k..]).scopes == DestroyedEach(t1.scopes, id, kids[k + 1..]).scopes
            && DestroyedEach(s, id, kids[k..]).ran == t1.ran + DestroyedEach(t1.scopes, id, kids[k + 1..]).ran
  {
    assert kids[k..][0] == kids[k] && kids[k..][1..] == kids[k + 1..];
    DestroyedEachUnfold(s, id, kids[k..]);
  }

  /** `parent.children.splice(index, 1)` on the arena. */
  function SpliceChild<V>(s: seq<Scope<V>>, p: nat, index: nat): (r: seq<Scope<V>>)
    requires WellFormed(s) && p < |s| && index < |s[p].children|
    ensures Shrinks(s, r)
    ensures forall j :: 0 <= j < |s| && j != p ==> r[j] == s[j]
    ensures r[p] == s[p].(children := s[p].children[..index] + s[p].children[index + 1..])
  {
    RemoveAtShrinks(s[p].children, index);
    s[p := s[p].(children := Splice1(s[p].children, index))]
  }

  /** The detach step as written: `indexOf(...) || -1` turns a found index of 0 into -1,
      so an instance at the head of its parent's list is not removed. */
  function DetachAsWritten<V>(s: seq<Scope<V>>, id: nat): (r: seq<Scope<V>>)
    requires WellFormed(s) && id < |s|
    ensures Shrinks(s, r)
    ensures forall j :: 0 <= j < |s| && Some(j) != s[id].parent ==> r[j] == s[j]
    ensures forall j :: 0 <= j < |s| ==> r[j].destroyHooks == s[j].destroyHooks
  {
    match s[id].parent
    case None => s
    case Some(p) =>
      var found := IndexOf(s[p].children, id);
      var index := if found == 0 then -1 else found;
      if index > -1 then SpliceChild(s, p, index) else s
  }

  /** The detach step as intended: remove the instance wherever it sits. */
  function Detach<V>(s: seq<Scope<V>>, id: nat): (r: seq<Scope<V>>)
    requires WellFormed(s) && id < |s|
    ensures Shrinks(s, r)
    ensures forall j :: 0 <= j < |s| && Some(j) != s[id].parent ==> r[j] == s[j]
    ensures forall j :: 0 <= j < |s| ==> r[j].destroyHooks == s[j].destroyHooks
  {
    match s[id].parent
    case None => s
    case Some(p) =>
      var index := IndexOf(s[p].children, id);
      if index > -1 then SpliceChild(s, p, index) else s
  }

  /** The intended detach leaves the instance out of its parent's list and keeps every
      other child. */
  lemma DetachRemoves<V>(s: seq<Scope<V>>, id: nat)
    requires WellFormed(s) && id < |s| && s[id].parent.Some?
    ensures var p := s[id].parent.value;
            var r := Detach(s, id);
            id !in r[p].children
            && (forall c :: c in r[p].children <==> c in s[p].children && c != id)
            && |r[p].children| == if id in s[p].children then |s[p].children| - 1 else |s[p].children|
  {
    var p := s[id].parent.value;
    var index := IndexOf(s[p].children, id);
    if index > -1 {
      RemoveAtShrinks(s[p].children, index);
    }
  }

  /** As written, the first child of a scope is not removed from that scope's children
      list, where the intended detach removes it. */
  lemma FirstChildStaysAttached<V>(s: seq<Scope<V>>, id: nat)
    requires WellFormed(s) && id < |s| && s[id].parent.Some?
    requires |s[s[id].parent.value].children| > 0 && s[s[id].parent.value].children[0] == id
    ensures DetachAsWritten(s, id) == s
    ensures id !in Detach(s, id)[s[id].parent.value].children
  {
    var p := s[id].parent.value;
    assert IndexOf(s[p].children, id) == 0;
    DetachRemoves(s, id);
  }

  /** A concrete case: a root with one child. Detaching the child as written leaves the
      root's list as it was; the intended detach empties it. */
  lemma OnlyChildStaysAttached()
    ensures var s: seq<Scope<int>> := [Fresh(None).(children := [1]), Fresh(Some(0))];
            WellFormed(s) && DetachAsWritten(s, 1)[0].children == [1] && Detach(s, 1)[0].children == []
  {
    var s: seq<Scope<int>> := [Fresh(None).(children := [1]), Fresh(Some(0))];
    FirstChildStaysAttached(s, 1);
    DetachRemoves(s, 1);
  }

  // ---------------------------------------------------------------------------------
  // properties of destroy

  /** The destroy hooks still waiting in the arena, as a multiset. */
  function Pending<V>(s: seq<Scope<V>>): multiset<Hook> {
    if |s| == 0 then multiset{} else Pending(s[..|s| - 1]) + multiset(s[|s| - 1].destroyHooks)
  }

  lemma {:induction false} PendingUpdate<V>(s: seq<Scope<V>>, i: nat, x: Scope<V>)
    requires i < |s|
    ensures Pending(s[i := x]) + multiset(s[i].destroyHooks) == Pending(s) + multiset(x.destroyHooks)
    decreases |s|
  {
    var s' := s[i := x];
    var n := |s| - 1;
    var a, b := multiset(s[i].destroyHooks), multiset(x.destroyHooks);
    var last := multiset(s[n].destroyHooks);
    if i < n {
      assert s'[..n] == s[..n][i := x];
      assert s'[n] == s[n];
      PendingUpdate(s[..n], i, x);
      Shift(Pending(s'[..n]), Pending(s[..n]), a, b, last);
    } else {
      assert s'[..n] == s[..n];
      Swap(Pending(s[..n]), a, b);
    }
  }

  lemma Shift<T>(p: multiset<T>, q: multiset<T>, a: multiset<T>, b: multiset<T>, c: multiset<T>)
    requires p + a == q + b
    ensures (p + c) + a == (q + c) + b
  {
    calc {
      (p + c) + a;
      (p + a) + c;
      (q + b) + c;
      (q + c) + b;
    }
  }

  lemma Chain<T>(p0: multiset<T>, p1: multiset<T>, p2: multiset<T>, m1: multiset<T>, m2: multiset<T>)
    requires p1 + m1 == p0 && p2 + m2 == p1
    ensures p2 + (m1 + m2) == p0
  {
  }

  lemma Swap<T>(p: multiset<T>, a: multiset<T>, b: multiset<T>)
    ensures (p + b) + a == (p + a) + b
  {
  }

  lemma {:induction false} PendingSame<V>(s: seq<Scope<V>>, s': seq<Scope<V>>)
    requires |s| == |s'| && forall j :: 0 <= j < |s| ==> s'[j].destroyHooks == s[j].destroyHooks
    ensures Pending(s') == Pending(s)
    decreases |s|
  {
    if |s| > 0 {
      PendingSame(s[..|s| - 1], s'[..|s| - 1]);
    }
  }

  /** No destroy hook is called unless it was waiting, and a called hook stops waiting:
      the hooks called plus the hooks still waiting are exactly the hooks that were
      waiting before. */
  lemma {:induction false} DestroyConserves<V>(s: seq<Scope<V>>, id: nat)
    requires WellFormed(s) && id < |s|
    ensures Pending(Destroyed(s, id).scopes) + multiset(Destroyed(s, id).ran) == Pending(s)
    decreases |s| - id, 1
  {
    var s1 := Cleared(s, id);
    PendingUpdate(s, id, s[id].(children := [], destroyHooks := []));
    var t := DestroyedEach(s1, id, s[id].children);
    DestroyEachConserves(s1, id, s[id].children);
    var r := Detach(t.scopes, id);
    PendingSame(t.scopes, r);
    assert Destroyed(s, id) == Teardown(r, s[id].destroyHooks + t.ran);
    var h, ran := multiset(s[id].destroyHooks), multiset(t.ran);
    assert multiset(s[id].destroyHooks + t.ran) == h + ran;
    assert Pending(s1) + h == Pending(s) by {
      assert multiset(s1[id].destroyHooks) == multiset{};
    }
    Chain(Pending(s), Pending(s1), Pending(t.scopes), h, ran);
  }

  lemma {:induction false} DestroyEachConserves<V>(s: seq<Scope<V>>, id: nat, kids: seq<nat>)
    requires WellFormed(s) && ChildrenOf(s, id, kids)
    ensures Pending(DestroyedEach(s, id, kids).scopes) + multiset(DestroyedEach(s, id, kids).ran) == Pending(s)
    decreases |s| - id, 0, |kids|
  {
    if |kids| > 0 {
      var t1 := Destroyed(s, kids[0]);
      DestroyConserves(s, kids[0]);
      KidsStay(s, t1.scopes, id, kids);
      var t2 := DestroyedEach(t1.scopes, id, kids[1..]);
      DestroyEachConserves(t1.scopes, id, kids[1..]);
      assert DestroyedEach(s, id, kids) == Teardown(t2.scopes, t1.ran + t2.ran);
      assert multiset(t1.ran + t2.ran) == multiset(t1.ran) + multiset(t2.ran);
      Chain(Pending(s), Pending(t1.scopes), Pending(t2.scopes), multiset(t1.ran), multiset(t2.ran));
    }
  }

  /** A second `destroy` of the same instance calls no hook and destroys no child. */
  lemma DestroyTwiceRunsNothing<V>(s: seq<Scope<V>>, id: nat)
    requires WellFormed(s) && id < |s|
    ensures Destroyed(Destroyed(s, id).scopes, id).ran == []
  {
    DestroyedFrame(s, id);
  }

  /** Over any two destroys, no destroy hook is called more often than it was
      registered. */
  lemma NoHookRunsTwice<V>(s: seq<Scope<V>>, a: nat, b: nat)
    requires WellFormed(s) && a < |s| && b < |s|
    ensures var t1 := Destroyed(s, a);
            var t2 := Destroyed(t1.scopes, b);
            multiset(t1.ran + t2.ran) <= Pending(s)
  {
    var t1 := Destroyed(s, a);
    DestroyConserves(s, a);
    DestroyConserves(t1.scopes, b);
  }

  /** The instance's own destroy hooks are called first, in the order they were
      registered, before anything its children register. */
  lemma DestroyHooksFirst<V>(s: seq<Scope<V>>, id: nat)
    requires WellFormed(s) && id < |s|
    ensures var r := Destroyed(s, id).ran;
            |s[id].destroyHooks| <= |r| && r[..|s[id].destroyHooks|] == s[id].destroyHooks
  {
  }
}
