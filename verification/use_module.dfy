/** `useModule(Child, isActive)`: a proxy module that mounts `Child` on demand.

    The proxy's own module function captures the active scope (`useAsyncMount`),
    defines the `update` closure, registers a destroy hook that forgets `update` and
    `instance`, and returns `[update]`, which `mountChildren` mounts as a module of its
    own whose body calls `update()`. Module bodies in the runtime are scripts, so that
    body is the method `RunProxy`, called while the proxy's scope is active, and the
    destroy hook's body is `Forget`. */
module UseModule {
  import opened Results
  import opened ScopeTree
  import opened ScopeRuntime

  class ModuleProxy<V> {
    const rt: Runtime<V>
    const child: ModuleFn<V>
    var isActive: bool
    /** The scope `mountChild` makes active: `Some` while `update` is defined. */
    var update: Option<nat>
    /** The mounted `Child`, if any. */
    var instance: Option<nat>

    /** What holds at every point: the captured scope and the instance are scopes of the
        runtime, and an instance exists only while `update` does. */
    ghost predicate Wired()
      reads this, rt
    {
      && rt.Valid()
      && (update.Some? ==> update.value < |rt.scopes|)
      && (instance.Some? ==> instance.value < |rt.scopes| && update.Some?)
    }

    /** What holds between calls: in addition, an instance exists only while active. */
    ghost predicate Valid()
      reads this, rt
    {
      Wired() && (instance.Some? ==> isActive)
    }

    /** `useModule(Child, isActive)`. */
    constructor (rt: Runtime<V>, child: ModuleFn<V>, isActive: bool)
      requires rt.Valid()
      ensures Valid() && this.rt == rt && this.child == child
      ensures this.isActive == isActive && update == None && instance == None
    {
      this.rt := rt;
      this.child := child;
      this.isActive := isActive;
      update := None;
      instance := None;
    }

    /** Nothing changed since scopes `s0`, call log `c0` and instance `i0`. */
    ghost predicate Untouched(s0: seq<Scope<V>>, c0: seq<Hook>, i0: Option<nat>)
      reads this, rt
    {
      instance == i0 && rt.scopes == s0 && rt.calls == c0
    }

    /** `instance?.destroy(); instance = undefined`, from scopes `s0`, call log `c0` and
        instance `i0`. */
    ghost predicate Dropped(s0: seq<Scope<V>>, c0: seq<Hook>, i0: Option<nat>)
      reads this, rt
    {
      && instance == None
      && WellFormed(s0) && (i0.Some? ==> i0.value < |s0|)
      && (rt.scopes, rt.calls) == DestroyedOrSame(s0, c0, i0)
    }

    /** `instance = instance || mountChild(Child)`, from scopes `s0`, call log `c0` and
        instance `i0`: an existing instance is kept and nothing runs; otherwise `Child` is
        attached as scope `|s0|` at the end of the captured scope's children, holding what
        `Child`'s calls put there up to the first that throws, no other old scope changes,
        and `Child` becomes the instance unless mounting it throws. On success the
        children it returned are mounted under it in order and its mount hooks were the
        last calls made. */
    ghost predicate MountedChild(s0: seq<Scope<V>>, c0: seq<Hook>, i0: Option<nat>, r: Result<Unit, ScopeError>)
      reads this, rt
    {
      && (i0.Some? ==> r.Ok? && Untouched(s0, c0, i0))
      && (i0.None? ==>
            && WellFormed(s0) && update.Some? && update.value < |s0| && |rt.scopes| > |s0|
            && rt.scopes[|s0|].parent == update
            && (forall j :: 0 <= j < |s0| && j != update.value ==> rt.scopes[j] == s0[j])
            && rt.scopes[update.value] == s0[update.value].(children := s0[update.value].children + [|s0|])
            && (var n := FirstThrow(s0, update, child.body);
                && rt.scopes[|s0|] == ApplyAll(Fresh(update), child.body[..n]).(children := rt.scopes[|s0|].children)
                && (n < |child.body| ==> r == Err(ErrorOf(child.body[n])) && |rt.scopes| == |s0| + 1 && rt.calls == c0)
                && (r.Ok? ==> n == |child.body|))
            && (r.Ok? ==> MountedInOrder(rt.scopes, |s0|, rt.scopes[|s0|].children, Kids(child.output), |s0| + 1))
            && |rt.calls| >= |c0| && rt.calls[..|c0|] == c0
            && (r.Ok? ==> var hooks := rt.scopes[|s0|].mountHooks;
                          |rt.calls| >= |c0| + |hooks| && rt.calls[|rt.calls| - |hooks|..] == hooks)
            && (r.Ok? ==> WellFormed(rt.scopes) && rt.calls == c0 + MountCalls(rt.scopes, |s0|))
            && (r.Ok? <==> instance.Some?)
            && (r.Ok? ==> instance == Some(|s0|)))
    }

    /** The proxy's module function, run with the proxy's scope active; `cleanup` is the
        destroy hook it registers. */
    method RunProxy(cleanup: Hook) returns (r: Result<Unit, ScopeError>)
      requires Valid()
      modifies this, rt
      ensures Valid() && rt.current == old(rt.current)
      ensures old(rt.current).None? ==> r == Err(ContextNotAvailable) && update == old(update)
      ensures old(rt.current).Some? ==> update == old(rt.current)
      ensures old(rt.current).Some? ==> cleanup in rt.scopes[update.value].destroyHooks
      ensures old(rt.current).Some? ==>
                var s1 := WithHolder(old(rt.scopes), old(rt.current).value, cleanup);
                && (isActive ==> MountedChild(s1, old(rt.calls), old(instance), r))
                && (!isActive ==> r.Ok? && Dropped(s1, old(rt.calls), old(instance)))
      ensures r.Ok? && isActive ==> instance.Some?
    {
      var ctx := rt.CurrentContext();
      if ctx.Err? {
        return Err(ctx.error);
      }
      // `const mountChild = useAsyncMount(); update = () => { ... }`
      update := Some(ctx.value);
      // `onDestroy(() => { update = undefined; instance = undefined; })`
      var _ := rt.OnDestroy(cleanup);
      // `return [update]`: mounted as a module of its own, whose body calls `update()`
      ghost var s1 := WithHolder(old(rt.scopes), ctx.value, cleanup);
      var _ := rt.Mount(NoopModule());
      assert rt.scopes[|s1| - 1].children == [];
      assert rt.scopes == s1;
      assert rt.calls == old(rt.calls);
      r := Update();
    }

    /** The `update` closure: mount `Child` under the captured scope unless an instance
        exists, or destroy the instance when inactive. */
    method Update() returns (r: Result<Unit, ScopeError>)
      requires Wired() && update.Some?
      modifies this, rt
      ensures Valid() && rt.current == old(rt.current)
      ensures isActive == old(isActive) && update == old(update)
      ensures isActive ==> MountedChild(old(rt.scopes), old(rt.calls), old(instance), r)
      ensures !isActive ==> r.Ok? && Dropped(old(rt.scopes), old(rt.calls), old(instance))
    {
      if isActive {
        if instance.None? {
          r := MountInstance();
          return;
        }
      } else {
        if instance.Some? {
          rt.Destroy(instance.value);
        }
        instance := None;
      }
      r := Ok(Unit);
    }

    /** `instance = mountChild(Child)` when there is no instance: `Child` mounted with the
        captured scope active, kept as the instance unless mounting it throws. */
    method MountInstance() returns (r: Result<Unit, ScopeError>)
      requires Wired() && update.Some? && instance.None?
      modifies this`instance, rt
      ensures Wired() && rt.current == old(rt.current)
      ensures MountedChild(old(rt.scopes), old(rt.calls), None, r)
    {
      var mounted := rt.MountFrom(update.value, child);
      if mounted.Err? {
        return Err(mounted.error);
      }
      instance := Some(mounted.value);
      r := Ok(Unit);
    }

    /** `update?.()`: nothing once the destroy hook has forgotten `update`. */
    method MaybeUpdate() returns (r: Result<Unit, ScopeError>)
      requires Wired()
      modifies this, rt
      ensures Valid() && rt.current == old(rt.current)
      ensures isActive == old(isActive) && update == old(update)
      ensures update.None? ==> r.Ok? && Untouched(old(rt.scopes), old(rt.calls), old(instance))
      ensures update.Some? && isActive ==> MountedChild(old(rt.scopes), old(rt.calls), old(instance), r)
      ensures update.Some? && !isActive ==> r.Ok? && Dropped(old(rt.scopes), old(rt.calls), old(instance))
    {
      r := Ok(Unit);
      if update.Some? {
        r := Update();
      }
    }

    /** `ChildProxy.destroy()`: nothing when already inactive; otherwise the instance is
        destroyed, running its destroy hooks and those of its subtree. */
    method Destroy() returns (r: Result<Unit, ScopeError>)
      requires Valid()
      modifies this, rt
      ensures Valid() && rt.current == old(rt.current) && !isActive && update == old(update) && r.Ok?
      ensures !old(isActive) || update.None? ==> Untouched(old(rt.scopes), old(rt.calls), old(instance))
      ensures update.Some? ==> Dropped(old(rt.scopes), old(rt.calls), old(instance))
      ensures |rt.scopes| == old(|rt.scopes|)
    {
      if !isActive {
        return Ok(Unit);
      }
      isActive := false;
      r := MaybeUpdate();
    }

    /** `ChildProxy.mount()`: nothing when already active or once forgotten; otherwise
        `Child` is mounted under the captured scope. */
    method Mount() returns (r: Result<Unit, ScopeError>)
      requires Valid()
      modifies this, rt
      ensures Valid() && rt.current == old(rt.current) && isActive && update == old(update)
      ensures old(isActive) || update.None? ==> r.Ok? && Untouched(old(rt.scopes), old(rt.calls), old(instance))
      ensures !old(isActive) && update.Some? ==> MountedChild(old(rt.scopes), old(rt.calls), old(instance), r)
    {
      if isActive {
        return Ok(Unit);
      }
      isActive := true;
      r := MaybeUpdate();
    }

    /** `ChildProxy.toggle()`. */
    method Toggle() returns (r: Result<Unit, ScopeError>)
      requires Valid()
      modifies this, rt
      ensures Valid() && rt.current == old(rt.current) && isActive == !old(isActive) && update == old(update)
      ensures update.None? ==> r.Ok? && Untouched(old(rt.scopes), old(rt.calls), old(instance))
      ensures update.Some? && isActive ==> MountedChild(old(rt.scopes), old(rt.calls), old(instance), r)
      ensures update.Some? && !isActive ==> r.Ok? && Dropped(old(rt.scopes), old(rt.calls), old(instance))
    {
      isActive := !isActive;
      r := MaybeUpdate();
    }

    /** `ChildProxy.reload()`: destroy, then mount; the proxy always ends active, with a
        new instance mounted after the old one was destroyed. */
    method Reload() returns (r: Result<Unit, ScopeError>)
      requires Valid()
      modifies this, rt
      ensures Valid() && rt.current == old(rt.current) && isActive && update == old(update)
      ensures update.None? ==> r.Ok? && Untouched(old(rt.scopes), old(rt.calls), old(instance))
      ensures update.Some? ==>
                var d := DestroyedOrSame(old(rt.scopes), old(rt.calls), old(instance));
                MountedChild(d.0, d.1, None, r)
      ensures update.Some? && r.Ok? && old(instance).Some? ==> instance.value > old(instance).value
    {
      var _ := Destroy();
      r := Mount();
    }

    /** `ChildProxy.isMounted()`: whether the proxy is meant to be mounted, which is not
        whether an instance exists (a failed mount leaves it active with none). */
    function IsMounted(): (r: bool)
      reads this
      ensures r <==> isActive
    {
      isActive
    }

    /** The body of the destroy hook registered by `RunProxy`. */
    method Forget()
      requires Wired()
      modifies this
      ensures Valid() && update == None && instance == None && isActive == old(isActive)
    {
      update := None;
      instance := None;
    }
  }

  /** The scopes and call log after `instance?.destroy()`: those of `Destroyed` when there
      is an instance, unchanged otherwise. */
  ghost function DestroyedOrSame<V>(s0: seq<Scope<V>>, c0: seq<Hook>, i0: Option<nat>): (r: (seq<Scope<V>>, seq<Hook>))
    requires WellFormed(s0) && (i0.Some? ==> i0.value < |s0|)
    ensures |r.0| == |s0| && WellFormed(r.0)
    ensures i0.None? ==> r == (s0, c0)
    ensures i0.Some? ==> |r.1| >= |c0| && r.1[..|c0|] == c0 && r.1[|c0|..] == Destroyed(s0, i0.value).ran
  {
    if i0.Some? then
      var t := Destroyed(s0, i0.value);
      (t.scopes, c0 + t.ran)
    else (s0, c0)
  }

  /** The scopes once the proxy's module function, running in scope `c`, has registered
      `cleanup` there and the `update` it returns has been attached under `c` as a module
      of its own (scope `|s0|`), before that module's body calls `update()`. */
  ghost function WithHolder<V>(s0: seq<Scope<V>>, c: nat, cleanup: Hook): (r: seq<Scope<V>>)
    requires WellFormed(s0) && c < |s0|
    ensures WellFormed(r) && |r| == |s0| + 1 && r[|s0|] == Fresh(Some(c))
    ensures forall j :: 0 <= j < |s0| && j != c ==> r[j] == s0[j]
    ensures r[c] == s0[c].(destroyHooks := s0[c].destroyHooks + [cleanup], children := s0[c].children + [|s0|])
  {
    var s1 := s0[c := Apply(s0[c], OnDestroyCall(cleanup))];
    assert forall i :: 0 <= i < |s0| ==> s1[i].parent == s0[i].parent && s1[i].children == s0[i].children;
    Attached(s1, Some(c))
  }

  /** The hook `RunProxy` registers in the captured scope runs when that scope is
      destroyed; its body, `Forget`, drops `update`, after which `Mount`, `Toggle` and
      `Reload` leave the runtime untouched. */
  lemma CleanupRunsOnDestroy<V>(s: seq<Scope<V>>, id: nat, cleanup: Hook)
    requires WellFormed(s) && id < |s| && cleanup in s[id].destroyHooks
    ensures cleanup in Destroyed(s, id).ran
  {
    DestroyHooksFirst(s, id);
    var r := Destroyed(s, id).ran;
    assert cleanup in r[..|s[id].destroyHooks|];
  }
}
