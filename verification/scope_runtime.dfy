/** The module runtime: the arena of scopes, the global `current` pointer, and the
    operations that act on the active scope.

    A module function is opaque code. It is modelled as a script: the runtime calls it
    makes while it runs (`provide`, `inject`, `onMounted`, `onDestroy`, `expose`, or a
    `throw`), then the children it returns. Every call of a mount or destroy hook is
    recorded in `calls`. */
module ScopeRuntime {
  import opened Results
  import opened JsArrays
  import opened ScopeTree

  datatype ScopeError =
    | ContextNotAvailable      // 'context not available'
    | InjectableNotAvailable   // 'injectable is not available'
    | ModuleThrew              // the module function threw

  /** One runtime call made by a running module function. */
  datatype Action<V> =
    | ProvideCall(token: Token, value: V)
    | InjectCall(token: Token)
    | OnMountedCall(hook: Hook)
    | OnDestroyCall(hook: Hook)
    | ExposeCall(methods: map<string, Fn>)
    | Throw

  /** A `ModuleFn`: what it does when called, and the `ModuleFnOutput` it returns. */
  datatype ModuleFn<V> = ModuleFn(body: seq<Action<V>>, output: Output<V>)

  /** Nothing, one module function, or an array of them. */
  datatype Output<V> = Nothing | Single(child: ModuleFn<V>) | Several(children: seq<ModuleFn<V>>)

  /** The list `mountChildren` mounts. */
  function Kids<V>(o: Output<V>): seq<ModuleFn<V>> {
    match o
    case Nothing => []
    case Single(c) => [c]
    case Several(cs) => cs
  }

  /** The `ModuleFn` `NoopModule`: `() => []`. */
  function NoopModule<V>(): (m: ModuleFn<V>)
    ensures m.body == [] && Kids(m.output) == []
  {
    ModuleFn([], Several([]))
  }

  /** What an action that does not throw does to the scope of the running module. */
  function Apply<V>(sc: Scope<V>, a: Action<V>): (r: Scope<V>)
    ensures r.parent == sc.parent && r.children == sc.children
  {
    match a
    case ProvideCall(t, v) => sc.(providers := sc.providers[t := v])
    case OnMountedCall(h) => sc.(mountHooks := sc.mountHooks + [h])
    case OnDestroyCall(h) => sc.(destroyHooks := sc.destroyHooks + [h])
    case ExposeCall(m) => Exposing(sc, m)
    case InjectCall(_) => sc
    case Throw => sc
  }

  function ApplyAll<V>(sc: Scope<V>, body: seq<Action<V>>): (r: Scope<V>)
    ensures r.parent == sc.parent && r.children == sc.children
  {
    if |body| == 0 then sc else Apply(ApplyAll(sc, body[..|body| - 1]), body[|body| - 1])
  }

  /** Whether action `a` throws in a module whose parent scope is `parent`. */
  predicate Throws<V>(s: seq<Scope<V>>, parent: Option<nat>, a: Action<V>)
    requires WellFormed(s) && (parent.Some? ==> parent.value < |s|)
  {
    a.Throw? || (a.InjectCall? && Lookup(s, parent, a.token).None?)
  }

  /** The index of the first action of `body` that throws, or `|body|`. */
  function FirstThrow<V>(s: seq<Scope<V>>, parent: Option<nat>, body: seq<Action<V>>): (n: nat)
    requires WellFormed(s) && (parent.Some? ==> parent.value < |s|)
    ensures n <= |body|
    ensures forall k :: 0 <= k < n ==> !Throws(s, parent, body[k])
    ensures n < |body| ==> Throws(s, parent, body[n])
  {
    if |body| == 0 then 0
    else if Throws(s, parent, body[0]) then 0
    else 1 + FirstThrow(s, parent, body[1..])
  }

  /** Before the first throwing action, action `i` throws exactly when it is the first. */
  lemma FirstThrowAt<V>(s: seq<Scope<V>>, parent: Option<nat>, body: seq<Action<V>>, i: nat)
    requires WellFormed(s) && (parent.Some? ==> parent.value < |s|)
    requires i < |body| && i <= FirstThrow(s, parent, body)
    ensures Throws(s, parent, body[i]) <==> i == FirstThrow(s, parent, body)
  {
  }

  lemma ApplyAllSnoc<V>(sc: Scope<V>, body: seq<Action<V>>, i: nat)
    requires i < |body|
    ensures ApplyAll(sc, body[..i + 1]) == Apply(ApplyAll(sc, body[..i]), body[i])
  {
    assert body[..i + 1][..i] == body[..i];
  }

  function ErrorOf<V>(a: Action<V>): ScopeError {
    if a.Throw? then ModuleThrew else InjectableNotAvailable
  }

  /** The arena once `mount` has created the context of a new module under `parent` and
      `createModuleInstance` has pushed the new instance onto the parent's children. */
  function Attached<V>(s: seq<Scope<V>>, parent: Option<nat>): (r: seq<Scope<V>>)
    requires WellFormed(s) && (parent.Some? ==> parent.value < |s|)
    ensures |r| == |s| + 1 && WellFormed(r) && r[|s|] == Fresh(parent)
    ensures forall j :: 0 <= j < |s| && Some(j) != parent ==> r[j] == s[j]
    ensures parent.Some? ==> r[parent.value] == s[parent.value].(children := s[parent.value].children + [|s|])
  {
    var s1 := s + [Fresh(parent)];
    var r := if parent.Some? then
               s1[parent.value := s1[parent.value].(children := s1[parent.value].children + [|s|])]
             else s1;
    assert forall i :: 0 <= i < |s| ==> |s| !in s[i].children;
    r
  }

  /** Scopes `ids` are the module functions `fns` mounted one after the other under
      `parent`: each is newer than `base` and than the one before it, has `parent` as its
      parent, and holds what its own module function's calls put there. */
  ghost predicate MountedInOrder<V>(s: seq<Scope<V>>, parent: nat, ids: seq<nat>, fns: seq<ModuleFn<V>>, base: nat) {
    && |ids| == |fns|
    && (forall k :: 0 <= k < |ids| ==>
          && base <= ids[k] < |s|
          && s[ids[k]].parent == Some(parent)
          && s[ids[k]] == ApplyAll(Fresh(Some(parent)), fns[k].body).(children := s[ids[k]].children))
    && (forall k :: 0 < k < |ids| ==> ids[k - 1] < ids[k])
  }

  /** Mounting one more module after `ids` keeps the earlier ones as they were. */
  lemma MountedSnoc<V>(s: seq<Scope<V>>, s': seq<Scope<V>>, parent: nat, ids: seq<nat>, fns: seq<ModuleFn<V>>,
                       base: nat, f: ModuleFn<V>, id: nat)
    requires MountedInOrder(s, parent, ids, fns, base) && parent < base <= |s| <= id < |s'|
    requires forall j :: 0 <= j < |s| && j != parent ==> s'[j] == s[j]
    requires s'[id].parent == Some(parent)
    requires s'[id] == ApplyAll(Fresh(Some(parent)), f.body).(children := s'[id].children)
    ensures MountedInOrder(s', parent, ids + [id], fns + [f], base)
  {
    var ids', fns' := ids + [id], fns + [f];
    forall k | 0 <= k < |ids'|
      ensures base <= ids'[k] < |s'| && s'[ids'[k]].parent == Some(parent)
      ensures s'[ids'[k]] == ApplyAll(Fresh(Some(parent)), fns'[k].body).(children := s'[ids'[k]].children)
    {
      if k < |ids| {
        assert ids'[k] == ids[k] && fns'[k] == fns[k];
      }
    }
  }

  /** The mount hooks a successful `mount` of scope `id` calls, in post-order: those of
      each child's subtree, in the order of `children`, and then its own, because
      `callEvery(ctx.hooks.mount)` runs after `mountChildren`. */
  ghost function MountCalls<V>(s: seq<Scope<V>>, id: nat): seq<Hook>
    requires WellFormed(s) && id < |s|
    decreases |s| - id, 1, 0
  {
    MountCallsEach(s, s[id].children, id) + s[id].mountHooks
  }

  /** `MountCalls` of each of the scopes `ids`, all above `lo`, one after the other. */
  ghost function MountCallsEach<V>(s: seq<Scope<V>>, ids: seq<nat>, lo: nat): seq<Hook>
    requires WellFormed(s) && forall k :: 0 <= k < |ids| ==> lo < ids[k] < |s|
    decreases |s| - lo, 0, |ids|
  {
    if |ids| == 0 then []
    else MountCallsEach(s, ids[..|ids| - 1], lo) + MountCalls(s, ids[|ids| - 1])
  }

  /** Descendants' mount hooks fire before the parent's: the hooks of the subtree of the
      `k`-th child come right after those of the children before it, and all of them
      before the scope's own. */
  lemma MountCallsChildFirst<V>(s: seq<Scope<V>>, id: nat, k: nat)
    requires WellFormed(s) && id < |s| && k < |s[id].children|
    ensures var before := MountCallsEach(s, s[id].children[..k], id);
            var mine := MountCalls(s, s[id].children[k]);
            var all := MountCalls(s, id);
            && |before| + |mine| + |s[id].mountHooks| <= |all|
            && all[|before|..|before| + |mine|] == mine
            && all[|all| - |s[id].mountHooks|..] == s[id].mountHooks
  {
    var ch := s[id].children;
    assert ch[..k + 1][..k] == ch[..k];
    MountCallsEachPrefix(s, ch, id, k + 1);
  }

  /** The hooks of the first `n` scopes of `ids` come first among those of all of them. */
  lemma {:induction false} MountCallsEachPrefix<V>(s: seq<Scope<V>>, ids: seq<nat>, lo: nat, n: nat)
    requires WellFormed(s) && (forall k :: 0 <= k < |ids| ==> lo < ids[k] < |s|) && n <= |ids|
    ensures var p := MountCallsEach(s, ids[..n], lo);
            var a := MountCallsEach(s, ids, lo);
            |p| <= |a| && a[..|p|] == p
    decreases |ids|
  {
    if n < |ids| {
      var init := ids[..|ids| - 1];
      assert init[..n] == ids[..n];
      MountCallsEachPrefix(s, init, lo, n);
    } else {
      assert ids[..n] == ids;
    }
  }

  /** One more child mounted under `parent` (with the scopes above it kept) adds its
      subtree's hooks after those of the children mounted before it. */
  lemma MountCallsSnoc<V>(s: seq<Scope<V>>, s': seq<Scope<V>>, parent: nat, ids: seq<nat>, id: nat,
                          log: seq<Hook>, c: seq<Hook>, c': seq<Hook>)
    requires WellFormed(s) && WellFormed(s') && parent < |s| <= id < |s'|
    requires forall k :: 0 <= k < |ids| ==> parent < ids[k] < |s|
    requires forall j :: parent < j < |s| ==> s'[j] == s[j]
    requires c == log + MountCallsEach(s, ids, parent) && c' == c + MountCalls(s', id)
    ensures c' == log + MountCallsEach(s', ids + [id], parent)
  {
    MountCallsEachFrame(s, s', ids, parent);
    MountCallsEachSnoc(s', ids, parent, id);
    Assoc(log, MountCallsEach(s, ids, parent), MountCalls(s', id));
  }

  /** `MountCallsEach` over one more scope. */
  lemma MountCallsEachSnoc<V>(s: seq<Scope<V>>, ids: seq<nat>, lo: nat, id: nat)
    requires WellFormed(s) && lo < id < |s| && forall k :: 0 <= k < |ids| ==> lo < ids[k] < |s|
    ensures MountCallsEach(s, ids + [id], lo) == MountCallsEach(s, ids, lo) + MountCalls(s, id)
  {
    assert (ids + [id])[..|ids|] == ids;
  }

  /** The hooks a mount of `id` calls depend only on scopes `id` and above. */
  lemma {:induction false} MountCallsFrame<V>(s: seq<Scope<V>>, s': seq<Scope<V>>, id: nat)
    requires WellFormed(s) && WellFormed(s') && id < |s| <= |s'|
    requires forall j :: id <= j < |s| ==> s'[j] == s[j]
    ensures MountCalls(s', id) == MountCalls(s, id)
    decreases |s| - id, 1, 0
  {
    MountCallsEachFrame(s, s', s[id].children, id);
  }

  /** The same for a list of scopes above `lo`. */
  lemma {:induction false} MountCallsEachFrame<V>(s: seq<Scope<V>>, s': seq<Scope<V>>, ids: seq<nat>, lo: nat)
    requires WellFormed(s) && WellFormed(s') && |s| <= |s'|
    requires forall k :: 0 <= k < |ids| ==> lo < ids[k] < |s|
    requires forall j :: lo < j < |s| ==> s'[j] == s[j]
    ensures MountCallsEach(s', ids, lo) == MountCallsEach(s, ids, lo)
    decreases |s| - lo, 0, |ids|
  {
    if |ids| > 0 {
      MountCallsEachFrame(s, s', ids[..|ids| - 1], lo);
      MountCallsFrame(s, s', ids[|ids| - 1]);
    }
  }

  class Runtime<V> {
    var scopes: seq<Scope<V>>
    /** The scope of the module being mounted, or whose callback is running. */
    var current: Option<nat>
    /** Every mount and destroy hook call made, in order. */
    var calls: seq<Hook>

    ghost predicate Valid()
      reads this
    {
      WellFormed(scopes) && (current.Some? ==> current.value < |scopes|)
    }

    constructor ()
      ensures Valid() && scopes == [] && current == None && calls == []
    {
      scopes, current, calls := [], None, [];
    }

    /** `getCurrentContext()`: the active scope, or 'context not available'. */
    function CurrentContext(): (r: Result<nat, ScopeError>)
      reads this
      ensures r.Ok? <==> current.Some?
      ensures r.Ok? ==> r.value == current.value
      ensures r.Err? ==> r.error == ContextNotAvailable
    {
      if current.Some? then Ok(current.value) else Err(ContextNotAvailable)
    }

    /** `provide(t, v)`: sets `t` in the active scope's providers. */
    method Provide(t: Token, v: V) returns (r: Result<Unit, ScopeError>)
      requires Valid()
      modifies this`scopes
      ensures Valid() && current == old(current) && calls == old(calls)
      ensures current.None? ==> r == Err(ContextNotAvailable) && scopes == old(scopes)
      ensures current.Some? ==>
                r == Ok(Unit) && scopes == old(scopes)[current.value := Apply(old(scopes)[current.value], ProvideCall(t, v))]
    {
      if current.None? {
        return Err(ContextNotAvailable);
      }
      var c := current.value;
      scopes := scopes[c := scopes[c].(providers := scopes[c].providers[t := v])];
      assert forall i :: 0 <= i < |scopes| ==> scopes[i].parent == old(scopes)[i].parent && scopes[i].children == old(scopes)[i].children;
      r := Ok(Unit);
    }

    /** `inject(t)`: walks up from the active scope's parent to the first scope that
        provides `t`. */
    method Inject(t: Token) returns (r: Result<V, ScopeError>)
      requires Valid()
      ensures current.None? ==> r == Err(ContextNotAvailable)
      ensures current.Some? ==>
                match Lookup(scopes, scopes[current.value].parent, t)
                case None => r == Err(InjectableNotAvailable)
                case Some(v) => r == Ok(v)
    {
      if current.None? {
        return Err(ContextNotAvailable);
      }
      var at: Option<nat> := scopes[current.value].parent;
      while at.Some?
        invariant at.Some? ==> at.value < |scopes|
        invariant Lookup(scopes, at, t) == Lookup(scopes, scopes[current.value].parent, t)
        decreases if at.Some? then at.value + 1 else 0
      {
        if t in scopes[at.value].providers {
          return Ok(scopes[at.value].providers[t]);
        }
        at := scopes[at.value].parent;
      }
      r := Err(InjectableNotAvailable);
    }

    /** `onMounted(h)`: appends to the active scope's mount hooks. */
    method OnMounted(h: Hook) returns (r: Result<Unit, ScopeError>)
      requires Valid()
      modifies this`scopes
      ensures Valid() && current == old(current) && calls == old(calls)
      ensures current.None? ==> r == Err(ContextNotAvailable) && scopes == old(scopes)
      ensures current.Some? ==>
                r == Ok(Unit) && scopes == old(scopes)[current.value := Apply(old(scopes)[current.value], OnMountedCall(h))]
    {
      if current.None? {
        return Err(ContextNotAvailable);
      }
      var c := current.value;
      scopes := scopes[c := scopes[c].(mountHooks := scopes[c].mountHooks + [h])];
      assert forall i :: 0 <= i < |scopes| ==> scopes[i].parent == old(scopes)[i].parent && scopes[i].children == old(scopes)[i].children;
      r := Ok(Unit);
    }

    /** `onDestroy(h)`: appends to the active scope's destroy hooks. */
    method OnDestroy(h: Hook) returns (r: Result<Unit, ScopeError>)
      requires Valid()
      modifies this`scopes
      ensures Valid() && current == old(current) && calls == old(calls)
      ensures current.None? ==> r == Err(ContextNotAvailable) && scopes == old(scopes)
      ensures current.Some? ==>
                r == Ok(Unit) && scopes == old(scopes)[current.value := Apply(old(scopes)[current.value], OnDestroyCall(h))]
    {
      if current.None? {
        return Err(ContextNotAvailable);
      }
      var c := current.value;
      scopes := scopes[c := scopes[c].(destroyHooks := scopes[c].destroyHooks + [h])];
      assert forall i :: 0 <= i < |scopes| ==> scopes[i].parent == old(scopes)[i].parent && scopes[i].children == old(scopes)[i].children;
      r := Ok(Unit);
    }

    /** `expose(methods)`: merges into the active scope's exposed table. */
    method Expose(methods: map<string, Fn>) returns (r: Result<Unit, ScopeError>)
      requires Valid()
      modifies this`scopes
      ensures Valid() && current == old(current) && calls == old(calls)
      ensures current.None? ==> r == Err(ContextNotAvailable) && scopes == old(scopes)
      ensures current.Some? ==>
                r == Ok(Unit) && scopes == old(scopes)[current.value := Apply(old(scopes)[current.value], ExposeCall(methods))]
    {
      if current.None? {
        return Err(ContextNotAvailable);
      }
      var c := current.value;
      scopes := scopes[c := scopes[c].(exposed := scopes[c].exposed + methods)];
      assert forall i :: 0 <= i < |scopes| ==> scopes[i].parent == old(scopes)[i].parent && scopes[i].children == old(scopes)[i].children;
      r := Ok(Unit);
    }

    /** `callEvery(hooks)`. */
    method CallEvery(hooks: seq<Hook>)
      modifies this`calls
      ensures calls == old(calls) + hooks
      ensures scopes == old(scopes) && current == old(current)
    {
      for k := 0 to |hooks|
        invariant calls == old(calls) + hooks[..k]
        invariant scopes == old(scopes) && current == old(current)
      {
        calls := calls + [hooks[k]];
        assert hooks[..k + 1] == hooks[..k] + [hooks[k]];
      }
      assert hooks[..|hooks|] == hooks;
    }

    /** The start of `mount`: `current = { moduleFn, parent: current, ... }`, then
        `ctx.parent?.children.push(moduleInstance)`. */
    method CreateInstance() returns (id: nat)
      requires Valid()
      modifies this`scopes, this`current
      ensures id == old(|scopes|) && current == Some(id)
      ensures scopes == Attached(old(scopes), old(current))
      ensures Valid()
    {
      var parent := current;
      id := |scopes|;
      scopes := scopes + [Fresh(parent)];
      current := Some(id);
      if parent.Some? {
        var p := parent.value;
        scopes := scopes[p := scopes[p].(children := scopes[p].children + [id])];
      }
    }

    /** `mount(fn)`: creates a scope under the active one, pushes the new instance onto the
        parent's children, runs the module function, mounts the children it returns in
        order, calls the new scope's mount hooks, and in every case makes the parent active
        again. */
    method Mount(fn: ModuleFn<V>) returns (r: Result<nat, ScopeError>)
      requires Valid()
      modifies this
      decreases fn, 2
      ensures Valid() && current == old(current)
      ensures |scopes| > old(|scopes|) && scopes[old(|scopes|)].parent == old(current)
      ensures forall j :: 0 <= j < old(|scopes|) && Some(j) != old(current) ==> scopes[j] == old(scopes[j])
      ensures old(current).Some? ==>
                scopes[old(current).value] ==
                  old(scopes[current.value]).(children := old(scopes[current.value].children) + [old(|scopes|)])
      ensures var n := FirstThrow(old(scopes), old(current), fn.body);
              && scopes[old(|scopes|)] == ApplyAll(Fresh(old(current)), fn.body[..n]).(children := scopes[old(|scopes|)].children)
              && (n < |fn.body| ==> r == Err(ErrorOf(fn.body[n])))
              && (r.Ok? ==> n == |fn.body|)
      ensures r.Ok? ==> r.value == old(|scopes|)
      ensures r.Ok? ==> MountedInOrder(scopes, r.value, scopes[r.value].children, Kids(fn.output), old(|scopes|) + 1)
      ensures FirstThrow(old(scopes), old(current), fn.body) < |fn.body| ==>
                |scopes| == old(|scopes|) + 1 && calls == old(calls)
      ensures Kids(fn.output) == [] ==>
                && |scopes| == old(|scopes|) + 1
                && (r.Ok? <==> FirstThrow(old(scopes), old(current), fn.body) == |fn.body|)
                && (r.Ok? ==> calls == old(calls) + scopes[r.value].mountHooks)
      ensures |calls| >= old(|calls|) && calls[..old(|calls|)] == old(calls)
      ensures r.Ok? ==> var hooks := scopes[r.value].mountHooks;
                        |calls| >= old(|calls|) + |hooks| && calls[|calls| - |hooks|..] == hooks
      ensures r.Ok? ==> calls == old(calls) + MountCalls(scopes, r.value)
    {
      ghost var s0 := scopes;
      var parent := current;
      var id := CreateInstance();
      // `ctx.moduleFn()`
      var ran := RunModuleFn(fn.body, s0, parent);
      if ran.Err? {
        current := scopes[current.value].parent;   // the `finally`
        return Err(ran.error);
      }
      // `mountChildren(...)`
      var mounted := MountChildren(fn, Kids(fn.output));
      assert scopes[id].children[0..] == scopes[id].children;
      if mounted.Err? {
        current := scopes[current.value].parent;
        return Err(mounted.error);
      }
      // `callEvery(ctx.hooks.mount)`
      ghost var before := calls;
      CallEvery(scopes[id].mountHooks);
      assert calls[..old(|calls|)] == before[..old(|calls|)];
      Assoc(old(calls), MountCallsEach(scopes, scopes[id].children, id), scopes[id].mountHooks);
      current := scopes[current.value].parent;
      r := Ok(id);
    }

    /** The call `ctx.moduleFn()`, made with the new scope `|s0|` active and the arena as
        `Attached(s0, parent)` left it: the actions run in order until one throws. */
    method RunModuleFn(body: seq<Action<V>>, ghost s0: seq<Scope<V>>, ghost parent: Option<nat>)
      returns (r: Result<Unit, ScopeError>)
      requires WellFormed(s0) && (parent.Some? ==> parent.value < |s0|)
      requires scopes == Attached(s0, parent) && current == Some(|s0|)
      modifies this`scopes
      ensures Valid() && current == old(current) && calls == old(calls)
      ensures var n := FirstThrow(s0, parent, body);
              && scopes == old(scopes)[|s0| := ApplyAll(Fresh(parent), body[..n])]
              && (r.Ok? <==> n == |body|)
              && (r.Err? ==> r.error == ErrorOf(body[n]))
    {
      ghost var a := scopes;
      var id := |s0|;
      var i := 0;
      ghost var n := FirstThrow(s0, parent, body);
      while i < |body|
        invariant i <= n
        invariant current == Some(id)
        invariant scopes == a[id := ApplyAll(Fresh(parent), body[..i])]
        invariant WellFormed(scopes)
        invariant calls == old(calls)
      {
        FrameBelow(s0, a, scopes, id, parent);
        var x := body[i];
        FirstThrowAt(s0, parent, body, i);
        ApplyAllSnoc(Fresh(parent), body, i);
        var step := RunAction(x, s0, parent);
        if step.Err? {
          return step;
        }
        i := i + 1;
      }
      assert body[..i] == body;
      r := Ok(Unit);
    }

    /** One action of a module function, run with the new scope `|s0|` active; below it
        the arena has the parents and providers of `s0`. */
    method RunAction(x: Action<V>, ghost s0: seq<Scope<V>>, ghost parent: Option<nat>)
      returns (r: Result<Unit, ScopeError>)
      requires WellFormed(s0) && (parent.Some? ==> parent.value < |s0|)
      requires Valid() && current == Some(|s0|) && |scopes| == |s0| + 1 && scopes[|s0|].parent == parent
      requires forall j :: 0 <= j < |s0| ==> scopes[j].parent == s0[j].parent && scopes[j].providers == s0[j].providers
      modifies this`scopes
      ensures Valid()
      ensures r.Ok? <==> !Throws(s0, parent, x)
      ensures r.Err? ==> r.error == ErrorOf(x) && scopes == old(scopes)
      ensures r.Ok? ==> scopes == old(scopes)[|s0| := Apply(old(scopes)[|s0|], x)]
    {
      match x {
        case ProvideCall(t, v) =>
          r := Provide(t, v);
        case InjectCall(t) =>
          var got := Inject(t);
          LookupFrame(s0, scopes, |s0|, parent, t);
          r := if got.Err? then Err(got.error) else Ok(Unit);
        case OnMountedCall(h) =>
          r := OnMounted(h);
        case OnDestroyCall(h) =>
          r := OnDestroy(h);
        case ExposeCall(m) =>
          r := Expose(m);
        case Throw =>
          r := Err(ModuleThrew);
      }
    }

    /** `mountChildren(children)`: `mount` of each module function in order, with the
        module of `owner` active; the first one that throws stops the rest. */
    method MountChildren(ghost owner: ModuleFn<V>, kids: seq<ModuleFn<V>>) returns (r: Result<Unit, ScopeError>)
      requires Valid() && current.Some?
      requires kids == Kids(owner.output)
      modifies this
      decreases owner, 1
      ensures Valid() && current == old(current) && |scopes| >= old(|scopes|)
      ensures forall j :: 0 <= j < old(|scopes|) && j != current.value ==> scopes[j] == old(scopes[j])
      ensures scopes[current.value] ==
                old(scopes[current.value]).(children := scopes[current.value].children)
      ensures var c0 := old(scopes[current.value].children);
              |scopes[current.value].children| >= |c0| && scopes[current.value].children[..|c0|] == c0
      ensures r.Ok? ==>
                MountedInOrder(scopes, current.value, scopes[current.value].children[old(|scopes[current.value].children|)..],
                               kids, old(|scopes|))
      ensures |kids| == 0 ==> r.Ok? && scopes == old(scopes) && calls == old(calls)
      ensures |calls| >= old(|calls|) && calls[..old(|calls|)] == old(calls)
      ensures r.Ok? ==>
                calls == old(calls) + MountCallsEach(scopes, scopes[current.value].children[old(|scopes[current.value].children|)..],
                                                     current.value)
    {
      var id := current.value;
      ghost var c0 := scopes[id].children;
      var k := 0;
      while k < |kids|
        invariant k <= |kids|
        invariant Valid() && current == Some(id) && |scopes| >= old(|scopes|)
        invariant forall j :: 0 <= j < old(|scopes|) && j != id ==> scopes[j] == old(scopes[j])
        invariant scopes[id] == old(scopes[id]).(children := scopes[id].children)
        invariant |scopes[id].children| == |c0| + k && scopes[id].children[..|c0|] == c0
        invariant MountedInOrder(scopes, id, scopes[id].children[|c0|..], kids[..k], old(|scopes|))
        invariant k == 0 ==> scopes == old(scopes) && calls == old(calls)
        invariant |calls| >= old(|calls|) && calls[..old(|calls|)] == old(calls)
        invariant calls == old(calls) + MountCallsEach(scopes, scopes[id].children[|c0|..], id)
      {
        var child := MountNext(owner, kids, k, c0, old(|scopes|), old(calls));
        if child.Err? {
          return Err(child.error);
        }
        k := k + 1;
      }
      assert kids[..k] == kids;
      r := Ok(Unit);
    }

    /** One turn of the loop in `MountChildren`: `mount(kids[k])` under the active scope,
        which on success appends the new scope to the ones mounted before it. */
    method MountNext(ghost owner: ModuleFn<V>, kids: seq<ModuleFn<V>>, k: nat, ghost c0: seq<nat>, ghost base: nat,
                     ghost log: seq<Hook>)
      returns (r: Result<nat, ScopeError>)
      requires Valid() && current.Some? && current.value < base <= |scopes|
      requires kids == Kids(owner.output) && k < |kids|
      requires |scopes[current.value].children| == |c0| + k && scopes[current.value].children[..|c0|] == c0
      requires MountedInOrder(scopes, current.value, scopes[current.value].children[|c0|..], kids[..k], base)
      requires calls == log + MountCallsEach(scopes, scopes[current.value].children[|c0|..], current.value)
      modifies this
      decreases owner, 0
      ensures Valid() && current == old(current) && |scopes| >= old(|scopes|)
      ensures forall j :: 0 <= j < old(|scopes|) && j != current.value ==> scopes[j] == old(scopes[j])
      ensures scopes[current.value] == old(scopes[current.value]).(children := scopes[current.value].children)
      ensures |scopes[current.value].children| >= |c0| && scopes[current.value].children[..|c0|] == c0
      ensures r.Ok? ==>
                && |scopes[current.value].children| == |c0| + k + 1
                && MountedInOrder(scopes, current.value, scopes[current.value].children[|c0|..], kids[..k + 1], base)
                && calls == log + MountCallsEach(scopes, scopes[current.value].children[|c0|..], current.value)
      ensures |calls| >= old(|calls|) && calls[..old(|calls|)] == old(calls)
    {
      var id := current.value;
      ghost var s1, ch1 := scopes, scopes[id].children;
      r := Mount(kids[k]);
      if r.Err? {
        return;
      }
      assert kids[k].body[..|kids[k].body|] == kids[k].body;
      MountedSnoc(s1, scopes, id, ch1[|c0|..], kids[..k], base, kids[k], |s1|);
      assert scopes[id].children[|c0|..] == ch1[|c0|..] + [|s1|];
      assert kids[..k + 1] == kids[..k] + [kids[k]];
      MountCallsSnoc(s1, scopes, id, ch1[|c0|..], |s1|, log, old(calls), calls);
    }

    /** `destroy()` of the instance of scope `id`. */
    method Destroy(id: nat)
      requires Valid() && id < |scopes|
      modifies this`scopes, this`calls
      decreases |scopes| - id, 2
      ensures Valid() && current == old(current)
      ensures scopes == Destroyed(old(scopes), id).scopes
      ensures calls == old(calls) + Destroyed(old(scopes), id).ran
    {
      ghost var s0 := scopes;
      var children := scopes[id].children;
      var hooks := scopes[id].destroyHooks;
      scopes := scopes[id := scopes[id].(children := [], destroyHooks := [])];
      assert scopes == Cleared(s0, id);
      CallEvery(hooks);
      DestroyChildren(id, children);
      DestroyedUnfold(s0, id);
      Assoc(old(calls), hooks, DestroyedEach(Cleared(s0, id), id, children).ran);
      RemoveFromParent(id);
    }

    /** The last step of `destroy`: remove the instance from its parent's children list
        (as intended; the step as written, which keeps an instance at index 0, is
        `DetachAsWritten`). */
    method RemoveFromParent(id: nat)
      requires Valid() && id < |scopes|
      modifies this`scopes
      ensures scopes == Detach(old(scopes), id)
      ensures Valid() && current == old(current) && calls == old(calls)
    {
      var s := scopes;
      ShrinksWellFormed(s, Detach(s, id));
      var parent := s[id].parent;
      if parent.Some? {
        var p := parent.value;
        var index := IndexOf(s[p].children, id);
        if index > -1 {
          scopes := SpliceChild(s, p, index);
        }
      }
    }

    /** `for (const child of children) child.destroy()`. */
    method DestroyChildren(id: nat, children: seq<nat>)
      requires Valid() && ChildrenOf(scopes, id, children)
      modifies this`scopes, this`calls
      decreases |scopes| - id, 1
      ensures Valid() && current == old(current)
      ensures scopes == DestroyedEach(old(scopes), id, children).scopes
      ensures calls == old(calls) + DestroyedEach(old(scopes), id, children).ran
    {
      ghost var goal := DestroyedEach(scopes, id, children);
      for k := 0 to |children|
        invariant |scopes| == old(|scopes|) && Valid()
        invariant ChildrenOf(scopes, id, children[k..])
        invariant goal.scopes == DestroyedEach(scopes, id, children[k..]).scopes
        invariant old(calls) + goal.ran == calls + DestroyedEach(scopes, id, children[k..]).ran
      {
        DestroyNext(id, children, k, goal.scopes, old(calls) + goal.ran);
      }
      assert children[|children|..] == [];
    }

    /** One turn of the loop in `DestroyChildren`: `children[k].destroy()`, after which
        the remaining children still lead to the same teardown. */
    method DestroyNext(id: nat, children: seq<nat>, k: nat, ghost goal: seq<Scope<V>>, ghost log: seq<Hook>)
      requires Valid() && k < |children| && ChildrenOf(scopes, id, children[k..])
      requires goal == DestroyedEach(scopes, id, children[k..]).scopes
      requires log == calls + DestroyedEach(scopes, id, children[k..]).ran
      modifies this`scopes, this`calls
      decreases |scopes| - id, 0
      ensures |scopes| == old(|scopes|) && Valid() && ChildrenOf(scopes, id, children[k + 1..])
      ensures goal == DestroyedEach(scopes, id, children[k + 1..]).scopes
      ensures log == calls + DestroyedEach(scopes, id, children[k + 1..]).ran
    {
      ghost var c0, s0 := calls, scopes;
      DestroyedEachStep(scopes, id, children, k);
      Destroy(children[k]);
      HandOver(c0, calls, Destroyed(s0, children[k]).ran, DestroyedEach(s0, id, children[k..]).ran,
               DestroyedEach(scopes, id, children[k + 1..]).ran);
    }

    /** Calling the function `useAsyncMount()` returned: `mount(fn)` with the scope that
        was active when `useAsyncMount` ran made active for the duration of the call. */
    method MountFrom(saved: nat, fn: ModuleFn<V>) returns (r: Result<nat, ScopeError>)
      requires Valid() && saved < |scopes|
      modifies this
      ensures Valid() && current == old(current)
      ensures |scopes| > old(|scopes|) && scopes[old(|scopes|)].parent == Some(saved)
      ensures forall j :: 0 <= j < old(|scopes|) && j != saved ==> scopes[j] == old(scopes[j])
      ensures scopes[saved] == old(scopes[saved]).(children := old(scopes[saved].children) + [old(|scopes|)])
      ensures var n := FirstThrow(old(scopes), Some(saved), fn.body);
              && scopes[old(|scopes|)] == ApplyAll(Fresh(Some(saved)), fn.body[..n]).(children := scopes[old(|scopes|)].children)
              && (n < |fn.body| ==> r == Err(ErrorOf(fn.body[n])) && |scopes| == old(|scopes|) + 1 && calls == old(calls))
              && (r.Ok? ==> n == |fn.body|)
      ensures r.Ok? ==> r.value == old(|scopes|)
      ensures r.Ok? ==> MountedInOrder(scopes, r.value, scopes[r.value].children, Kids(fn.output), old(|scopes|) + 1)
      ensures |calls| >= old(|calls|) && calls[..old(|calls|)] == old(calls)
      ensures r.Ok? ==> var hooks := scopes[r.value].mountHooks;
                        |calls| >= old(|calls|) + |hooks| && calls[|calls| - |hooks|..] == hooks
      ensures r.Ok? ==> calls == old(calls) + MountCalls(scopes, r.value)
    {
      var previous := current;
      current := Some(saved);
      r := Mount(fn);
      current := previous;
    }
  }

  /** Calls made move from the still-to-run suffix to the log. */
  lemma HandOver<T>(c0: seq<T>, c1: seq<T>, made: seq<T>, rest0: seq<T>, rest1: seq<T>)
    requires c1 == c0 + made && rest0 == made + rest1
    ensures c1 + rest1 == c0 + rest0
  {
  }

  lemma Assoc<T>(a: seq<T>, b: seq<T>, c: seq<T>)
    ensures a + (b + c) == (a + b) + c
  {
  }

  /** The scopes below a module being run keep the parents and providers they had before
      its context was created. */
  lemma FrameBelow<V>(s0: seq<Scope<V>>, a: seq<Scope<V>>, s: seq<Scope<V>>, id: nat, parent: Option<nat>)
    requires WellFormed(s0) && (parent.Some? ==> parent.value < |s0|) && id == |s0|
    requires a == Attached(s0, parent) && |s| == |a|
    requires forall j :: 0 <= j < id ==> s[j] == a[j]
    ensures forall j :: 0 <= j < id ==> s[j].parent == s0[j].parent && s[j].providers == s0[j].providers
  {
  }
}
