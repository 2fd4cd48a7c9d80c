/** The non-blocking dispatcher built by `createOutputsHandler`.

    One rescheduler is shared by every fan-out point created during one `start`. Each
    call of the handler with a list of hooks creates a fan-out point; pushing an event
    at a point either calls all its hooks at once or, when the current batch is over
    budget, queues the event. The deferred flush (the host's `setTimeout(reschedule, 0)`)
    is an explicit method, and the clock is an explicit `now` argument. */
module Rescheduler {
  import opened Results

  /** The time budget of a batch, in milliseconds; it is checked on every fifth
      synchronous dispatch (`countSyncHook % 5`). */
  const BudgetMs: int := 30

  /** A queued `() => push(event)` for the fan-out point `point`. */
  datatype Task<E> = Task(point: nat, event: E)

  /** Every task of `tasks` names one of the first `n` fan-out points. */
  predicate Routed<E>(tasks: seq<Task<E>>, n: nat) {
    forall k :: 0 <= k < |tasks| ==> tasks[k].point < n
  }

  /** The hook calls that dispatching `tasks` synchronously makes, in order: for each
      task, every hook of its point, in the order the hooks were given. */
  function Deliveries<H, E>(points: seq<seq<H>>, tasks: seq<Task<E>>): seq<(H, E)>
    requires Routed(tasks, |points|)
  {
    if |tasks| == 0 then []
    else Deliveries(points, tasks[..|tasks| - 1]) + Fan(points[tasks[|tasks| - 1].point], tasks[|tasks| - 1].event)
  }

  /** The calls `for (const hook of hooks) hook(event)` makes. */
  function Fan<H, E>(hooks: seq<H>, e: E): (r: seq<(H, E)>)
    ensures |r| == |hooks| && forall k :: 0 <= k < |hooks| ==> r[k] == (hooks[k], e)
  {
    if |hooks| == 0 then [] else [(hooks[0], e)] + Fan(hooks[1..], e)
  }

  lemma {:induction false} DeliveriesAppend<H, E>(points: seq<seq<H>>, a: seq<Task<E>>, b: seq<Task<E>>)
    requires Routed(a, |points|)
    requires Routed(b, |points|)
    ensures Routed(a + b, |points|)
    ensures Deliveries(points, a + b) == Deliveries(points, a) + Deliveries(points, b)
    decreases |b|
  {
    if |b| > 0 {
      var b' := b[..|b| - 1];
      assert (a + b)[..|a + b| - 1] == a + b';
      DeliveriesAppend(points, a, b');
    } else {
      assert a + b == a;
    }
  }

  /** No event is lost or reordered: whatever has been dispatched so far is a prefix of
      the arrivals, so every hook has seen a prefix of the calls it would see if all
      arrivals were dispatched synchronously. */
  lemma DeliveredPrefix<H, E>(points: seq<seq<H>>, dispatched: seq<Task<E>>, queued: seq<Task<E>>)
    requires Routed(dispatched, |points|)
    requires Routed(queued, |points|)
    ensures Routed(dispatched + queued, |points|)
    ensures var all := Deliveries(points, dispatched + queued);
            var now := Deliveries(points, dispatched);
            |now| <= |all| && all[..|now|] == now
  {
    DeliveriesAppend(points, dispatched, queued);
  }

  /** Whether an event pushed at time `now` must be queued rather than dispatched. */
  predicate MustQueue(queued: nat, countSyncHook: nat, refDate: int, now: int) {
    queued > 0 || (countSyncHook % 5 == 0 && now - refDate > BudgetMs)
  }

  class Rescheduler<H, E> {
    /** The hooks of each fan-out point, by point id. */
    var points: seq<seq<H>>
    /** Start of the current batch; `None` between batches. */
    var refDate: Option<int>
    var rescheduledTasks: seq<Task<E>>
    /** Synchronous dispatches so far (never reset). */
    var countSyncHook: nat
    /** A deferred flush is pending on the host. */
    var flushScheduled: bool
    /** Every hook call made, in order. */
    var delivered: seq<(H, E)>
    /** Tasks dispatched synchronously, in order. */
    ghost var dispatched: seq<Task<E>>
    /** Events pushed by producers (not counting replays), in order. */
    ghost var arrivals: seq<Task<E>>

    ghost predicate Valid()
      reads this
    {
      && Routed(dispatched, |points|)
      && Routed(rescheduledTasks, |points|)
      && dispatched + rescheduledTasks == arrivals
      && delivered == Deliveries(points, dispatched)
      && flushScheduled == refDate.Some?
      && (rescheduledTasks != [] ==> refDate.Some?)
    }

    constructor ()
      ensures Valid()
      ensures points == [] && refDate == None && rescheduledTasks == [] && countSyncHook == 0
      ensures !flushScheduled && delivered == [] && arrivals == []
    {
      points, refDate, rescheduledTasks, countSyncHook := [], None, [], 0;
      flushScheduled, delivered := false, [];
      dispatched, arrivals := [], [];
    }

    /** `outputHandler(...hooks)`: a new fan-out point. */
    method OutputHandler(hooks: seq<H>) returns (p: nat)
      requires Valid()
      modifies this
      ensures Valid()
      ensures p == old(|points|) && points == old(points) + [hooks]
      ensures refDate == old(refDate) && rescheduledTasks == old(rescheduledTasks)
      ensures countSyncHook == old(countSyncHook) && flushScheduled == old(flushScheduled)
      ensures delivered == old(delivered) && arrivals == old(arrivals)
    {
      p := |points|;
      DeliveriesPointsExtend(points, [hooks], dispatched);
      points := points + [hooks];
    }

    /** A producer-side `push(event)` at point `p` at time `now`. */
    method Push(p: nat, e: E, now: int) returns (queued: bool)
      requires Valid() && p < |points|
      modifies this
      ensures Valid()
      ensures arrivals == old(arrivals) + [Task(p, e)]
      ensures old(refDate) == None ==> refDate == Some(now)
      ensures old(refDate) != None ==> refDate == old(refDate)
      ensures flushScheduled && points == old(points)
      ensures queued == MustQueue(old(|rescheduledTasks|), old(countSyncHook), refDate.value, now)
      ensures queued ==> rescheduledTasks == old(rescheduledTasks) + [Task(p, e)]
                         && countSyncHook == old(countSyncHook) && delivered == old(delivered)
      ensures !queued ==> rescheduledTasks == old(rescheduledTasks) && countSyncHook == old(countSyncHook) + 1
                          && delivered == old(delivered) + Fan(points[p], e)
    {
      ghost var d0, r0 := dispatched, rescheduledTasks;
      arrivals := arrivals + [Task(p, e)];
      queued := Forward(p, e, now);
      ReplayStep(d0, r0, Task(p, e), [], dispatched, rescheduledTasks);
      assert [Task(p, e)] + [] == [Task(p, e)];
    }

    /** The body of `push`, also run when a queued task is replayed. */
    method Forward(p: nat, e: E, now: int) returns (queued: bool)
      requires p < |points|
      requires Routed(dispatched, |points|)
      requires Routed(rescheduledTasks, |points|)
      requires delivered == Deliveries(points, dispatched)
      requires flushScheduled == refDate.Some?
      requires rescheduledTasks != [] ==> refDate.Some?
      modifies this`refDate, this`flushScheduled, this`rescheduledTasks
      modifies this`countSyncHook, this`delivered, this`dispatched
      ensures Routed(dispatched, |points|)
      ensures Routed(rescheduledTasks, |points|)
      ensures delivered == Deliveries(points, dispatched)
      ensures flushScheduled && refDate.Some?
      ensures old(refDate) == None ==> refDate == Some(now)
      ensures old(refDate) != None ==> refDate == old(refDate)
      ensures points == old(points) && arrivals == old(arrivals)
      ensures queued == MustQueue(old(|rescheduledTasks|), old(countSyncHook), refDate.value, now)
      ensures queued ==> rescheduledTasks == old(rescheduledTasks) + [Task(p, e)]
                         && dispatched == old(dispatched)
                         && countSyncHook == old(countSyncHook) && delivered == old(delivered)
      ensures !queued ==> rescheduledTasks == old(rescheduledTasks) == []
                          && dispatched == old(dispatched) + [Task(p, e)]
                          && countSyncHook == old(countSyncHook) + 1
                          && delivered == old(delivered) + Fan(points[p], e)
    {
      Begin(now);
      var t := Task(p, e);
      queued := MustQueue(|rescheduledTasks|, countSyncHook, refDate.value, now);
      if queued {
        Enqueue(t);
      } else {
        Dispatch(t);
      }
    }

    /** The first push of a batch records its start and schedules the flush. */
    method Begin(now: int)
      requires flushScheduled == refDate.Some?
      modifies this`refDate, this`flushScheduled
      ensures flushScheduled && refDate.Some?
      ensures old(refDate) == None ==> refDate == Some(now)
      ensures old(refDate) != None ==> refDate == old(refDate)
    {
      if refDate == None {
        refDate := Some(now);
        flushScheduled := true;
      }
    }

    /** `this.rescheduledTasks.push(task)`. */
    method Enqueue(t: Task<E>)
      requires t.point < |points|
      requires Routed(rescheduledTasks, |points|)
      modifies this`rescheduledTasks
      ensures rescheduledTasks == old(rescheduledTasks) + [t]
      ensures Routed(rescheduledTasks, |points|)
    {
      TaskBoundsSnoc(rescheduledTasks, t, |points|);
      rescheduledTasks := rescheduledTasks + [t];
    }

    /** The synchronous branch: count the dispatch and call every hook of the point. */
    method Dispatch(t: Task<E>)
      requires t.point < |points|
      requires Routed(dispatched, |points|)
      requires delivered == Deliveries(points, dispatched)
      modifies this`countSyncHook, this`delivered, this`dispatched
      ensures dispatched == old(dispatched) + [t] && countSyncHook == old(countSyncHook) + 1
      ensures delivered == old(delivered) + Fan(points[t.point], t.event)
      ensures Routed(dispatched, |points|)
      ensures delivered == Deliveries(points, dispatched)
    {
      DeliveriesSnoc(points, dispatched, t);
      countSyncHook, delivered, dispatched := countSyncHook + 1, delivered + Fan(points[t.point], t.event), dispatched + [t];
    }

    /** The deferred `reschedule`: ends the batch and replays the queued tasks in order,
        the `k`-th replay happening at time `nows[k]`. */
    method Flush(nows: seq<int>)
      requires Valid() && flushScheduled
      requires |nows| == |rescheduledTasks|
      modifies this`refDate, this`flushScheduled, this`rescheduledTasks
      modifies this`countSyncHook, this`delivered, this`dispatched
      ensures Valid()
      ensures arrivals == old(arrivals) && points == old(points)
      ensures dispatched + rescheduledTasks == old(dispatched) + old(rescheduledTasks)
      ensures old(rescheduledTasks) == [] ==> refDate == None && !flushScheduled
      ensures old(rescheduledTasks) != [] ==> refDate == Some(nows[0]) && flushScheduled
      ensures WithinBudget(nows) ==>
                rescheduledTasks == [] && dispatched == old(dispatched) + old(rescheduledTasks)
    {
      refDate := None;
      flushScheduled := false;
      var tasks := rescheduledTasks;
      rescheduledTasks := [];
      ReplayAll(tasks, nows);
    }

    /** The loop of `reschedule`: every task of `tasks` goes through `Forward` again, in
        order, the `k`-th at time `nows[k]`. */
    method ReplayAll(tasks: seq<Task<E>>, nows: seq<int>)
      requires |nows| == |tasks| && Routed(tasks, |points|)
      requires Routed(dispatched, |points|) && delivered == Deliveries(points, dispatched)
      requires rescheduledTasks == [] && refDate == None && !flushScheduled
      modifies this`refDate, this`flushScheduled, this`rescheduledTasks
      modifies this`countSyncHook, this`delivered, this`dispatched
      ensures Routed(dispatched, |points|) && Routed(rescheduledTasks, |points|)
      ensures delivered == Deliveries(points, dispatched)
      ensures flushScheduled == refDate.Some? && (rescheduledTasks != [] ==> refDate.Some?)
      ensures dispatched + rescheduledTasks == old(dispatched) + tasks
      ensures tasks == [] ==> refDate == None
      ensures tasks != [] ==> refDate == Some(nows[0])
      ensures WithinBudget(nows) ==> rescheduledTasks == [] && dispatched == old(dispatched) + tasks
    {
      for i := 0 to |tasks|
        invariant Routed(dispatched, |points|) && Routed(rescheduledTasks, |points|)
        invariant delivered == Deliveries(points, dispatched)
        invariant flushScheduled == refDate.Some?
        invariant rescheduledTasks != [] ==> refDate.Some?
        invariant dispatched + rescheduledTasks + tasks[i..] == old(dispatched) + tasks
        invariant i == 0 ==> refDate == None
        invariant i > 0 ==> refDate == Some(nows[0])
        invariant WithinBudget(nows) ==> rescheduledTasks == []
      {
        var t := tasks[i];
        assert tasks[i..] == [t] + tasks[i + 1..];
        assert WithinBudget(nows) ==> nows[i] - nows[0] <= BudgetMs;
        Replay(t, nows[i], tasks[i + 1..]);
      }
      assert tasks[|tasks|..] == [];
    }

    /** One turn of the flush: task `t` goes through `Forward` at time `now`, with `rest`
        still to be replayed after it. */
    method Replay(t: Task<E>, now: int, ghost rest: seq<Task<E>>)
      requires t.point < |points|
      requires Routed(dispatched, |points|)
      requires Routed(rescheduledTasks, |points|)
      requires delivered == Deliveries(points, dispatched)
      requires flushScheduled == refDate.Some?
      requires rescheduledTasks != [] ==> refDate.Some?
      modifies this`refDate, this`flushScheduled, this`rescheduledTasks
      modifies this`countSyncHook, this`delivered, this`dispatched
      ensures Routed(dispatched, |points|)
      ensures Routed(rescheduledTasks, |points|)
      ensures delivered == Deliveries(points, dispatched)
      ensures flushScheduled && refDate.Some?
      ensures old(refDate) == None ==> refDate == Some(now)
      ensures old(refDate) != None ==> refDate == old(refDate)
      ensures dispatched + rescheduledTasks + rest == old(dispatched) + old(rescheduledTasks) + ([t] + rest)
      ensures old(rescheduledTasks) == [] && now - refDate.value <= BudgetMs ==>
                rescheduledTasks == [] && dispatched == old(dispatched) + [t]
    {
      ghost var d0, r0 := dispatched, rescheduledTasks;
      var _ := Forward(t.point, t.event, now);
      ReplayStep(d0, r0, t, rest, dispatched, rescheduledTasks);
    }
  }

  /** One replay moves task `t` from the pending suffix to the dispatched tasks or back
      to the queue, keeping their concatenation. */
  lemma ReplayStep<E>(d0: seq<Task<E>>, r0: seq<Task<E>>, t: Task<E>, rest: seq<Task<E>>,
                      d1: seq<Task<E>>, r1: seq<Task<E>>)
    requires (d1 == d0 && r1 == r0 + [t]) || (d1 == d0 + [t] && r1 == r0 == [])
    ensures d1 + r1 + rest == d0 + r0 + ([t] + rest)
  {
  }

  /** No replay of a flush happens more than the budget after the first one. */
  predicate WithinBudget(nows: seq<int>) {
    forall k :: 0 <= k < |nows| ==> nows[k] - nows[0] <= BudgetMs
  }

  lemma TaskBoundsSnoc<E>(tasks: seq<Task<E>>, t: Task<E>, n: nat)
    requires Routed(tasks, n)
    requires t.point < n
    ensures Routed(tasks + [t], n)
  {
  }

  /** Dispatching one more task adds that task's hook calls at the end. */
  lemma DeliveriesSnoc<H, E>(points: seq<seq<H>>, tasks: seq<Task<E>>, t: Task<E>)
    requires Routed(tasks, |points|)
    requires t.point < |points|
    ensures Routed(tasks + [t], |points|)
    ensures Deliveries(points, tasks + [t]) == Deliveries(points, tasks) + Fan(points[t.point], t.event)
  {
    assert (tasks + [t])[..|tasks|] == tasks;
  }

  lemma DeliveriesPointsExtend<H, E>(points: seq<seq<H>>, more: seq<seq<H>>, tasks: seq<Task<E>>)
    requires Routed(tasks, |points|)
    ensures Routed(tasks, |points + more|)
    ensures Deliveries(points + more, tasks) == Deliveries(points, tasks)
  {
    if |tasks| > 0 {
      DeliveriesPointsExtend(points, more, tasks[..|tasks| - 1]);
    }
  }
}
