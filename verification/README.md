# web-tracker-v3 runtime, modelled in Dafny

This project models the runtime core of the web-tracker-v3 browser tracker and proves properties of that model. The core has two engines and several small state machines built on them.

- **The tracking pipeline** (`createPipeline`):
  - descriptors of producers, transformers, composers and consumers;
  - a registry that pulls in composer dependencies;
  - a context store, locked once the pipeline starts;
  - a lazy, cached, depth-first `start` that wires each source through its transformers to a fan-out over its live dependents;
  - `stop`, `suspend` and the restore function `suspend` returns;
  - the non-blocking rescheduler shared by every fan-out point of one `start`.
- **The scope-tree runtime** (`src/lib/context.ts`):
  - `mount`, which creates a scope under the active one, runs the module function, mounts the children it returns and fires the mount hooks;
  - `provide` and `inject`, which walks up from the parent scope;
  - `onMounted`, `onDestroy` and `expose`;
  - an instance's `destroy`;
  - the `useModule` proxy.
- **The consumers built on them:**
  - the older `createTrackingPipeline`;
  - the start/stop subscriber lists;
  - event emitters and event ids;
  - the rage-click window and the every-other-event counter, each in both of its copies;
  - the anonymizing DOM composer;
  - the mouse-move throttle.

## How the model is built

**Arenas instead of references.** Pipeline descriptors and scopes are kept in arenas, and an index names each one.
- A descriptor can only name descriptors built before it, so every dependency has a smaller index than its dependent.
- A scope's parent is older than the scope itself.
- These orderings give every recursion a termination measure.

**Opaque code becomes recorded calls.** Setup callbacks, hooks, teardowns and exposed methods are opaque, and each one is a number.
- Every call the runtime makes to them is recorded in a log.
- A function returned by a setup is named by the position of that setup call in the log.
- A module function is a script: the runtime calls it makes (`provide`, `inject`, `onMounted`, `onDestroy`, `expose`, or a throw), followed by the children it returns.

**Source state becomes class state.** State the source changes in place lives in classes whose fields the methods update:
- `Pipeline`, `Rescheduler`, `Runtime`, `ModuleProxy` and the legacy `TrackingPipeline`;
- `Subscriber`, `TrackingLifeCycle` and `IdStore`;
- `Detector`, `TextVisibilityCounter` and `ThrottledMouseMove`.

Each method is proved against a function of the old state. The pure parts are functions with lemmas:
- `resolve`;
- `destroy` as a function of the arena;
- the `inject` walk;
- `reduceRight`;
- the rage-click step.

**Two global pointers.** The module-level `current` pointers are modelled as follows:
- the one in `pipeline.ts` is the `ContextSlot` object shared by all pipelines;
- the one in `context.ts` is the `current` field of `Runtime`.

**Error paths.** Errors the source throws are `Result` values with one constructor per message.

`TrackingPipeline.Pipeline.Start` calls `Launch`, which makes the pipeline the current context and runs `ResolveRegistry`. `ResolveRegistry` splits the registry into sources and transformers and calls `ResolveInOrder`, which resolves the sources in a loop; its postcondition follows from `Resolver.ResolveSound`. `Start` then returns the `dedup` handler of that `start`: a fresh `Rescheduler` whose fan-out points are exactly the ones the resolution created (`OutputsHandler`).

`ChildProxy.isMounted` is `UseModule.ModuleProxy.IsMounted`, which answers `isActive`.

**The copies in `src/composers/index.ts`.** That file holds a second `RageClickProducer` and a second `TextVisibilityProducer`, and no other file imports it.
- Both declare their setup as `(_, push)`. `resolve` calls a composer's setup with the push as its only argument, so `push` is `undefined` in both.
- The rage-click copy throws a `TypeError` on the click that should emit, before the buffer is cleared. The buffer keeps its three timestamps, so the next quick click throws again.
- The text-visibility copy throws on every second input, after its counter has moved on.
- `RageClick.Detector` and `DomComposers.TextVisibilityCounter` model both copies, and their `hasPush` field tells the copies apart (see Findings).

### Where the code and its documentation differ (the model follows the code)

**A dangling top-level source makes `start` throw.** A source with no live dependent throws 'No consumer'. When that source is one of the registry's entries, the throw escapes `start`:
- `started` stays false;
- what was cached before the throw stays cached;
- `useContext` restores the module-level pipeline context only on normal return, so after the throw it still points at the pipeline.

`TrackingPipeline.Pipeline.Start` states all three.

**Only composers pull in their dependencies.** `use` registers the dependencies of composers and of nothing else (`Registry.UseLeafRegistersOnlyItself`). What it adds is exactly the items and what they reach through composers' deps (`Registry.UseAddsExactlyReached`).

**`stop` and `suspend` throw when not started.** This includes the case where the last `start` threw part-way through.

**A failed `start` is final.** The source that made `start` throw stays cached as null, and nothing but `stop` clears the caches. `stop` throws because the pipeline is not started, and every later `start` meets that source in the cache and throws 'No consumer' again. `TrackingPipeline.Pipeline.Start` states both halves: a throw leaves a registered source cached as null, and such a source makes `start` throw.

**A started pipeline stops cleanly.** `stop` calls the cached value of every producer entry, and a producer cached as null would make that call throw a `TypeError`. That state cannot be reached while started:
- every producer that `resolve` caches is registered, because `resolve` only caches the source it was called on, its children and their transformers (`Resolver.ResolveCachesNoOtherProducer`);
- a successful `start` leaves every registered producer cached live;
- so `TrackingPipeline.Pipeline.Valid` holds `started ==>` no cached producer is null, and `TrackingPipeline.Pipeline.Stop` proves that the walk of a started pipeline completes and never throws.

The source's `TypeError` in `stop` needs a producer setup that returns something other than a function, which the model excludes (see "## Left out").

**A top-level module's own `inject` sees nothing.** `inject` starts at the parent scope, so a module's own `provide` is never visible to its own `inject` (`ScopeTree.OwnProvideInvisible`).

## Model

| member | source | states |
|---|---|---|
| PipelineGraph.Add | src/composables/use-tracking-pipeline/pipeline.ts:8-46 | A new descriptor gets the next free id and leaves earlier descriptors unchanged. It may only depend on existing sources, and the graph stays well formed: every dependency sits below its dependent and is a producer or composer. |
| PipelineGraph.DepBelow | src/composables/use-tracking-pipeline/pipeline.ts:18-46 | Every dependency of a descriptor was built before it and is a source. |
| PipelineGraph.Children | src/composables/use-tracking-pipeline/pipeline.ts:177 | A node is a child of `s` exactly when it is among the sources and is a composer or consumer whose deps include `s`. Every child sits above `s`. |
| PipelineGraph.TransformersOf | src/composables/use-tracking-pipeline/pipeline.ts:192-193 | Exactly the registered transformers whose source is `s`. |
| Registry.AddAllExtends | src/composables/use-tracking-pipeline/pipeline.ts:147-154 | `use` only appends to the registry set. It keeps earlier entries and their order, adds no duplicate, and adds only existing descriptors. `UseAddsExactlyReached` bounds it from above. |
| Registry.AddAllCovers | src/composables/use-tracking-pipeline/pipeline.ts:147-154 | After `use(...items)` every item is registered, and so are the deps of every composer reached, transitively. Nothing registered before is lost. |
| Registry.AddAllCovered | src/composables/use-tracking-pipeline/pipeline.ts:147-154 | `use` changes nothing once all it would add is registered. |
| Registry.CoversMono | src/composables/use-tracking-pipeline/pipeline.ts:147-154 | What a `use` registered stays registered under later registrations. |
| Registry.UseIdempotent | src/composables/use-tracking-pipeline/pipeline.ts:147-154 | Using the same items twice gives the same registry as using them once. |
| Registry.UseComposerRegistersDeps | src/composables/use-tracking-pipeline/pipeline.ts:151-152 | Using a composer registers it and every one of its deps. |
| Registry.UseLeafRegistersOnlyItself | src/composables/use-tracking-pipeline/pipeline.ts:148-152 | Using a producer, transformer or consumer adds that item alone, and none of its deps. |
| Registry.UseAddsExactlyReached | src/composables/use-tracking-pipeline/pipeline.ts:147-154 | After `use(...items)` a descriptor is registered iff it was registered before, or it is one of the items, or it is reached from an item through the deps of composers, transitively. Nothing else is added. |
| Registry.AddAllOnlyReached | src/composables/use-tracking-pipeline/pipeline.ts:147-154 | Every entry `use` adds is an item or a transitive dep of a composer among them. |
| Registry.CoveredReached | src/composables/use-tracking-pipeline/pipeline.ts:147-154 | Every item, and everything reached from an item through composers' deps, is registered after `use`. |
| Registry.AddAll | src/composables/use-tracking-pipeline/pipeline.ts:147-154 | `use(...items)` on a registry: each item is inserted once, at the end, and a composer's deps are used recursively. What this gives is stated by `AddAllExtends`, `AddAllCovers` and `AddAllCovered`. |
| Rescheduler.Fan | src/composables/use-tracking-pipeline/pipeline.ts:78-79 | A synchronous forward calls every hook once, in the order given, with the same event. |
| Rescheduler.Rescheduler.constructor | src/composables/use-tracking-pipeline/pipeline.ts:49-51 | A new handler has no batch start, an empty queue, a zero sync counter and no pending flush. |
| Rescheduler.Rescheduler.OutputHandler | src/composables/use-tracking-pipeline/pipeline.ts:60 | Each call of the handler adds one fan-out point holding the given hooks, and changes nothing else. |
| Rescheduler.Rescheduler.Push | src/composables/use-tracking-pipeline/pipeline.ts:61-80 | The first push of a batch records `now` and schedules a flush. The event is queued exactly when the queue is non-empty, or when the counter is a multiple of 5 and more than 30 ms have passed since the batch started. A queued event goes to the back of the queue. Otherwise every hook of the point receives the event in order and the counter increments. The invariant holds that dispatched events followed by queued ones are exactly the arrivals, in order. |
| Rescheduler.MustQueue | src/composables/use-tracking-pipeline/pipeline.ts:68 | The test of `push`: queue when tasks are already queued, or when the counter is a multiple of 5 and more than 30 ms have passed since the batch started. What it decides is stated by `Rescheduler.Rescheduler.Push` and `Forward`. |
| Rescheduler.Rescheduler.Forward | src/composables/use-tracking-pipeline/pipeline.ts:61-80 | The body of `push`, as shared by a fresh push and a replay: the same queue-or-dispatch decision, with its effect on the queue, the counter and the hook calls. |
| Rescheduler.Rescheduler.Flush | src/composables/use-tracking-pipeline/pipeline.ts:53-58 | `reschedule` ends the batch and replays the queue in order. Dispatched events followed by still-queued ones are unchanged, so nothing is dropped or reordered. An empty queue leaves no batch and no flush pending. A queue replayed within one budget window is emptied. |
| Rescheduler.Rescheduler.ReplayAll | src/composables/use-tracking-pipeline/pipeline.ts:55-57 | The loop of `reschedule` sends each task through `push` again, in order. Dispatched events followed by re-queued ones equal the events before plus the tasks. A replay that stays within the budget re-queues nothing. |
| Rescheduler.Rescheduler.Replay | src/composables/use-tracking-pipeline/pipeline.ts:57 | One replayed task either joins the dispatched events or goes back to the end of the queue, so no event is lost or reordered. On an empty queue within the budget it is dispatched. |
| Rescheduler.Rescheduler.Begin | src/composables/use-tracking-pipeline/pipeline.ts:63-66 | The first push of a batch records `now` and schedules the flush; a later push keeps the batch start. |
| Rescheduler.Rescheduler.Enqueue | src/composables/use-tracking-pipeline/pipeline.ts:71 | A deferred push goes to the back of the queue. |
| Rescheduler.Rescheduler.Dispatch | src/composables/use-tracking-pipeline/pipeline.ts:75-79 | A synchronous forward increments the counter and gives every hook of the point the event, in order. |
| Rescheduler.DeliveredPrefix | src/composables/use-tracking-pipeline/pipeline.ts:53-80 | The hook calls made so far are a prefix of those a fully synchronous delivery of all arrivals would make. |
| Resolver.ResolveSound | src/composables/use-tracking-pipeline/pipeline.ts:164-200 | `resolve(s)` only grows the caches and keeps them consistent: a cached instance is what the node's own setup returned, and a cached output is the push that setup got. It caches an entry for `s`, null exactly when it throws, and the only error is 'No consumer'. Each setup it calls belongs to a node it newly and successfully resolved, and none is called twice. A cached `s` changes nothing. |
| Resolver.ResolveSourceSound | src/composables/use-tracking-pipeline/pipeline.ts:176-199 | For an uncached producer or composer: the same guarantees, and a throw is preceded by the 'No consumer found' warning for `s`. |
| Resolver.ResolveEachSound | src/composables/use-tracking-pipeline/pipeline.ts:177-183 | Resolving the children in order, skipping those that throw, caches every child. `next` holds the hooks of exactly the live children, in registry order. |
| Resolver.SettleSound | src/composables/use-tracking-pipeline/pipeline.ts:185-199 | Once the children are resolved, `s` succeeds iff some child is live. Otherwise it logs the warning, caches null and throws 'No consumer'. |
| Resolver.WiredSound | src/composables/use-tracking-pipeline/pipeline.ts:192-198 | With live children only `s` and its transformers are set up, each once, and `s` is cached with the instance its setup returned. |
| Resolver.WrapSound | src/composables/use-tracking-pipeline/pipeline.ts:192-194 | Wrapping calls only the setups of the transformers registered against `s`, each once, and leaves the caches' maps alone. |
| Resolver.WrapChain | src/composables/use-tracking-pipeline/pipeline.ts:192-194 | `reduceRight` builds the chain: the first-registered transformer's hook is outermost and receives the raw events. Each transformer forwards to a fan-out point holding only the next hook, and the last one forwards to the fan-out of the live children. |
| Resolver.ResolveCachesNoOtherProducer | src/composables/use-tracking-pipeline/pipeline.ts:164-200 | The only producer `resolve(s)` can newly cache is `s` itself: its children are composers or consumers and its transformers are not producers. |
| Resolver.ResolveEachCachesNoProducer | src/composables/use-tracking-pipeline/pipeline.ts:177-183 | Resolving the children of `s` caches no producer that was not cached before. |
| Resolver.SettleCachesOnlyItself | src/composables/use-tracking-pipeline/pipeline.ts:185-199 | Settling `s` caches no node other than `s`. |
| Resolver.CacheSound | src/composables/use-tracking-pipeline/pipeline.ts:196-198 | Recording a newly resolved node keeps the caches consistent and makes at most that node's one setup call. |
| Resolver.DanglingSourceNeverSetUp | src/composables/use-tracking-pipeline/pipeline.ts:177-190 | A source with no live dependent is cached as null and the warning for it is logged last. Neither its own setup nor the setup of any transformer registered against it is called. |
| Resolver.CachedIsReturned | src/composables/use-tracking-pipeline/pipeline.ts:165-169 | A cached node is not set up again. Resolving it returns the cached instance, or throws 'No consumer' iff it is cached as null, and changes nothing. |
| Resolver.SettleWiring | src/composables/use-tracking-pipeline/pipeline.ts:192-198 | The setup of `s` is called with the push it caches as its output. That push leads through its transformers to a new fan-out point listing `next`. |
| Resolver.ResolvedSourceWiring | src/composables/use-tracking-pipeline/pipeline.ts:177-198 | A resolved source's setup receives the transformer chain ending in a non-empty fan-out point. That point lists exactly the hooks of its live dependents in registry order. |
| Resolver.Resolve | src/composables/use-tracking-pipeline/pipeline.ts:164-200 | `resolve(s)` on the caches: the cached value when there is one, the setup of a consumer, or the resolution of a producer or composer through its children. What it promises is stated by `ResolveSound` and `CachedIsReturned`. |
| Resolver.ResolveEach | src/composables/use-tracking-pipeline/pipeline.ts:177-183 | The children of `s` resolved in registry order, each throw caught and dropped. What it promises is stated by `ResolveEachSound`. |
| Resolver.Settle | src/composables/use-tracking-pipeline/pipeline.ts:185-199 | After the children: the 'No consumer' path when no child is live, otherwise the wiring of `s` through its transformers to a new fan-out point. What it promises is stated by `SettleSound`, `WiredSound` and `SettleWiring`. |
| Resolver.Wrap | src/composables/use-tracking-pipeline/pipeline.ts:192-194 | `reduceRight` over the transformers of `s`, each set up with a new fan-out point around the push it wraps. What it promises is stated by `WrapSound` and `WrapChain`. |
| TrackingPipeline.SourcesOf | src/composables/use-tracking-pipeline/pipeline.ts:159 | Exactly the registered entries that are not transformers. |
| TrackingPipeline.TransformersIn | src/composables/use-tracking-pipeline/pipeline.ts:160 | Exactly the registered entries that are transformers. |
| TrackingPipeline.Popped | src/composables/use-tracking-pipeline/pipeline.ts:211-212 | The stop listeners run once each, newest first. |
| TrackingPipeline.ContextSlot.constructor | src/composables/use-tracking-pipeline/pipeline.ts:3 | The module-level `current` pipeline context starts as `null`. |
| TrackingPipeline.ContextSlot.UsePipelineContext | src/composables/use-tracking-pipeline/pipeline.ts:92-95 | Throws 'Pipeline context not available' without an active pipeline. Otherwise it answers the value defined for the key, or `undefined` iff none is defined. |
| TrackingPipeline.ContextSlot.OnStop | src/composables/use-tracking-pipeline/pipeline.ts:97-100 | Throws without an active pipeline. Otherwise it appends the listener to that pipeline's stop listeners and changes nothing else. |
| TrackingPipeline.Pipeline.constructor | src/composables/use-tracking-pipeline/pipeline.ts:103-109 | A new pipeline has an empty registry, store, caches and listener list, and is not started. |
| TrackingPipeline.Pipeline.Get | src/composables/use-tracking-pipeline/pipeline.ts:113 | `get(key)` answers a value iff the key was defined, and that value is the one defined. |
| TrackingPipeline.Pipeline.Define | src/composables/use-tracking-pipeline/pipeline.ts:124-127 | While started it throws 'Pipeline already started' and the store is unchanged. Otherwise `get(key)` then answers the new value and every other key is unaffected. |
| TrackingPipeline.Pipeline.Use | src/composables/use-tracking-pipeline/pipeline.ts:147-154 | The registry becomes the result of `use` on it, and nothing else changes. |
| TrackingPipeline.Pipeline.Start | src/composables/use-tracking-pipeline/pipeline.ts:156-203 | When already started it throws 'Pipeline already started' and changes nothing. Otherwise the caches only grow, and every setup call is of a node newly resolved, none twice. It succeeds, and becomes started, iff every registered non-transformer ends cached with a live instance. On success the previous pipeline context is back. On a throw (only 'No consumer') `started` stays false, the context still points at this pipeline, and a registered source is left cached as null. A start from caches that hold such a source always throws. It returns a fresh handler whose fan-out points are exactly the ones this `start` created, with nothing pushed yet. |
| TrackingPipeline.ResolveInOrder | src/composables/use-tracking-pipeline/pipeline.ts:201 | `sources.map(resolve)` stops at the first throw. On success every source is cached live. On a throw one source is cached as null and the error is 'No consumer'. Every producer it newly caches is one of the sources. |
| TrackingPipeline.Pipeline.Launch | src/composables/use-tracking-pipeline/pipeline.ts:158-202 | The part of `start` after its guard. It resolves with this pipeline as the current context, and becomes started iff every registered non-transformer is cached live. A throw is 'No consumer', leaves a registered source cached as null and the context at this pipeline. A source already cached as null makes it throw. |
| TrackingPipeline.ResolveRegistry | src/composables/use-tracking-pipeline/pipeline.ts:158-201 | Splits the registry and resolves its sources in order. It succeeds iff every registered non-transformer ends cached live. A failure leaves one of them cached as null, and one cached as null beforehand makes it fail. If every cached producer was registered, it stays so, and on success every cached producer is live. |
| TrackingPipeline.Pipeline.OutputsHandler | src/composables/use-tracking-pipeline/pipeline.ts:48-60 | `createOutputsHandler()` called once per `start`, then called by `resolve` once per fan-out point: a fresh handler holding exactly those points, in order, with no batch, no queue, a zero counter and no deliveries. |
| TrackingPipeline.Pipeline.Stop | src/composables/use-tracking-pipeline/pipeline.ts:205-214 | When not started it throws 'Pipeline not started yet' and changes nothing. Otherwise it never throws: every cached producer is live, so the walk calls the teardowns of all cached producers in cache order and completes. It then empties `inputs`/`outputs`, runs the stop listeners newest first, empties them and clears `started`, keeping the registry and the store. |
| TrackingPipeline.Pipeline.TearDownProducers | src/composables/use-tracking-pipeline/pipeline.ts:207-208 | The teardown loop makes exactly the calls of the walk over the cached entries in cache order, and reports whether it completed. |
| TrackingPipeline.Pipeline.RunStopListeners | src/composables/use-tracking-pipeline/pipeline.ts:211-212 | Runs the listeners newest first and leaves the list empty. |
| TrackingPipeline.TeardownsOfProducers | src/composables/use-tracking-pipeline/pipeline.ts:207-208 | The walk completes iff no cached producer is null. Every call it makes is the teardown returned by some producer's own setup, and no teardown is called twice. When complete, every cached producer's teardown is called. |
| TrackingPipeline.TeardownsComplete | src/composables/use-tracking-pipeline/pipeline.ts:207-208 | The walk of `stop` over the cached entries completes exactly when no producer among them is cached as null. |
| TrackingPipeline.TeardownsSound | src/composables/use-tracking-pipeline/pipeline.ts:207-208 | Every call the walk makes is the teardown that some producer's own setup returned. |
| TrackingPipeline.TeardownsDistinct | src/composables/use-tracking-pipeline/pipeline.ts:207-208 | When the cache order has no repeats, no teardown is called twice. |
| TrackingPipeline.TeardownsCover | src/composables/use-tracking-pipeline/pipeline.ts:207-208 | A complete walk calls the teardown of every cached producer. |
| TrackingPipeline.TeardownFromEntry | src/composables/use-tracking-pipeline/pipeline.ts:207-208 | Each teardown `stop` calls is the cached instance of one of the entries it walked. |
| TrackingPipeline.Teardowns | src/composables/use-tracking-pipeline/pipeline.ts:207-208 | The walk of `stop` over the cached entries: it only calls teardowns. Its other properties are stated by `TeardownsComplete`, `TeardownsSound`, `TeardownsDistinct` and `TeardownsCover`. |
| TrackingPipeline.CollectTeardowns | src/composables/use-tracking-pipeline/pipeline.ts:207-208 | The teardown loop of `stop` makes exactly the calls of the walk `Teardowns` describes. |
| TrackingPipeline.CollectSuspensions | src/composables/use-tracking-pipeline/pipeline.ts:138-139 | The teardown loop of `suspend` makes exactly the calls of the walk `Suspensions` describes, in the order listed, and reports whether it reached the end. |
| TrackingPipeline.Pipeline.Suspend | src/composables/use-tracking-pipeline/pipeline.ts:136-141 | When not started it throws 'Pipeline not started yet'. Otherwise it calls the teardown of each listed producer in order and returns the restore function. A producer without a cached teardown stops it with a TypeError. |
| TrackingPipeline.SuspensionsComplete | src/composables/use-tracking-pipeline/pipeline.ts:138-139 | A suspension completes iff every listed producer is cached live, and then it calls exactly their teardowns, once each, in the order listed. |
| TrackingPipeline.Suspensions | src/composables/use-tracking-pipeline/pipeline.ts:138-139 | The teardown calls of `suspend`, in the order listed, cut short at the first producer without a cached teardown. What it promises is stated by `SuspensionsComplete`. |
| TrackingPipeline.Pipeline.Restore | src/composables/use-tracking-pipeline/pipeline.ts:142-144 | Inside this pipeline's context, each suspended producer's setup is called again with its cached output. The cached teardowns are not replaced, and the previous context is back afterwards. |
| TrackingPipeline.RestoreRepeatsSetup | src/composables/use-tracking-pipeline/pipeline.ts:140 | Restoring a producer repeats its first setup call exactly, with the same push. |
| TrackingPipeline.RestoresAt | src/composables/use-tracking-pipeline/pipeline.ts:140 | The `k`-th restore call sets up the `k`-th producer with its cached output, or with `undefined` when there is none. |
| TrackingPipeline.Restores | src/composables/use-tracking-pipeline/pipeline.ts:140-143 | One setup call per suspended producer, in order; `RestoresAt` says which. |
| JsArrays.IndexOf | src/composables/use-tracking-life-cycle.ts:23 | `indexOf` answers the first position of the element, or -1 exactly when it is absent. |
| JsArrays.Splice1 | src/composables/use-tracking-life-cycle.ts:24 | `splice(start, 1)` removes the element at `start`, with a negative start counted from the end. A start past the end removes nothing. |
| JsArrays.SpliceMinusOne | src/composables/use-tracking-life-cycle.ts:23-24 | Splicing at -1, as when `indexOf` misses, removes the last element. |
| ScopeTree.Ancestors | src/lib/context.ts:17 | The scopes from a start scope up to the root, each the parent of the one before. |
| ScopeTree.LookupNearest | src/lib/context.ts:15-22 | `inject` answers the value of the first scope on the path to the root that provides the token. It fails iff none does. |
| ScopeTree.Lookup | src/lib/context.ts:15-22 | The walk of `inject` up the parents from a start scope. What it answers is stated by `LookupNearest` and `LookupFrame`. |
| ScopeTree.LookupFrame | src/lib/context.ts:15-22 | `inject` depends only on the parents and providers of the scopes at or below its start. |
| ScopeTree.OwnProvideInvisible | src/lib/context.ts:10-22 | A scope's own `provide` does not change what its own `inject` finds. |
| ScopeTree.ProvideShadows | src/lib/context.ts:10-22 | A value a scope provides is what its children's `inject` finds, shadowing anything provided above. |
| ScopeTree.MemberOf | src/lib/context.ts:153 | Reading a property of a module instance: its own `destroy`, else a method of the prototype `exposed`, else nothing. What `expose` does to it is stated by `ExposeMerges`. |
| ScopeTree.Exposing | src/lib/context.ts:165 | `Object.assign(exposed, methods)` on the scope's exposed table. What it gives is stated by `ExposeMerges`. |
| ScopeTree.ExposeMerges | src/lib/context.ts:153-166 | After `expose`, reading a member gives the new method if one was given under that name, and the earlier one otherwise. The instance's own `destroy` always wins. |
| ScopeTree.Destroyed | src/lib/context.ts:137-151 | `destroy`, with the intended detach, only drops entries from `children` lists and empties destroy-hook lists, and the arena stays well formed. |
| ScopeTree.Cleared | src/lib/context.ts:138-141 | `destroy` first empties the instance's children and destroy hooks and changes nothing else. The arena stays well formed, and the old children are still children of the instance for the steps that follow. |
| ScopeTree.DestroyedEach | src/lib/context.ts:144-145 | Destroying the children in order only drops entries from `children` lists and empties destroy-hook lists. |
| ScopeTree.SpliceChild | src/lib/context.ts:150 | `children.splice(index, 1)` removes exactly the child at `index` from the parent's list and changes no other scope. |
| ScopeTree.DestroyedFrame | src/lib/context.ts:137-151 | `destroy` touches only the instance's subtree and its parent's children list. The instance ends with no children and no destroy hooks. |
| ScopeTree.DestroyConserves | src/lib/context.ts:138-145 | The hooks called plus the hooks still waiting are exactly the hooks waiting before, as multisets. |
| ScopeTree.DestroyEachConserves | src/lib/context.ts:144-145 | The same conservation for destroying a list of children in order. |
| ScopeTree.DestroyHooksFirst | src/lib/context.ts:140-145 | The instance's own destroy hooks run first, in registration order, before those of its children. |
| ScopeTree.DestroyTwiceRunsNothing | src/lib/context.ts:138-143 | A second `destroy` of the same instance calls no hook. |
| ScopeTree.NoHookRunsTwice | src/lib/context.ts:138-143 | Over any two destroys, no hook is called more often than it was registered. |
| ScopeTree.DetachAsWritten | src/lib/context.ts:148-150 | The detach step as written changes only the parent's children list and never the destroy hooks. |
| ScopeTree.FirstChildStaysAttached | src/lib/context.ts:148-150 | As written, the detach step leaves the arena unchanged for an instance at index 0 of its parent's children, which the intended detach removes. |
| ScopeTree.OnlyChildStaysAttached | src/lib/context.ts:148-150 | A concrete case: a root with one child. Detaching the child as written leaves the root listing it, and the intended detach leaves the list empty. |
| ScopeTree.Detach | src/lib/context.ts:148-150 | The intended detach changes only the parent's children list and never the destroy hooks. |
| ScopeTree.DetachRemoves | src/lib/context.ts:148-150 | The intended detach removes the instance from its parent's list wherever it sits and keeps every other child. |
| ScopeRuntime.Apply | src/lib/context.ts:10-13 | A runtime call made by a module function never changes its scope's parent or children. |
| ScopeRuntime.Fresh | src/lib/context.ts:169-176 | The context literal of `mount`: the given parent, and no providers, hooks, children or exposed methods. `Attached` and `Runtime.CreateInstance` state where it goes. |
| ScopeRuntime.Attached | src/lib/context.ts:168-176 | `mount` creates a fresh scope under the active one and appends it to the parent's children, and the arena stays well formed. |
| ScopeRuntime.NoopModule | src/lib/context.ts:184 | `NoopModule` makes no runtime call and returns no child. |
| ScopeRuntime.ApplyAll | src/lib/context.ts:155 | The calls of a module function, applied in order, never change its scope's parent or children. |
| ScopeRuntime.FirstThrow | src/lib/context.ts:155 | The position of the first call of a module function that throws: no call before it throws, and the one at it does, unless it is the end of the body. |
| ScopeRuntime.Runtime.constructor | src/lib/context.ts:3 | No scope exists and none is active. |
| ScopeRuntime.Runtime.CurrentContext | src/lib/context.ts:5-8 | `getCurrentContext()` answers the active scope, or throws 'context not available' iff none is active. |
| ScopeRuntime.Runtime.Provide | src/lib/context.ts:10-13 | Throws 'context not available' without an active scope. Otherwise it sets the token in the active scope's providers only. |
| ScopeRuntime.Runtime.Inject | src/lib/context.ts:15-22 | Throws 'context not available' without an active scope. Otherwise it answers the nearest provider's value, starting at the parent scope, or throws 'injectable is not available'. |
| ScopeRuntime.Runtime.OnMounted | src/lib/context.ts:122-125 | Throws without an active scope. Otherwise it appends the hook to that scope's mount hooks only. |
| ScopeRuntime.Runtime.OnDestroy | src/lib/context.ts:130-133 | Throws without an active scope. Otherwise it appends the hook to that scope's destroy hooks only. |
| ScopeRuntime.Runtime.Expose | src/lib/context.ts:163-166 | Throws without an active scope. Otherwise it merges the methods into that scope's exposed table only. |
| ScopeRuntime.Runtime.CallEvery | src/lib/context.ts:44-47 | Calls the hooks once each, in order. |
| ScopeRuntime.Runtime.Mount | src/lib/context.ts:168-182 | The active pointer is restored whether the module returns or throws. The new instance is the next free scope, appended to the parent's children before the module runs, so it stays there on a throw, and no other scope changes. The scope holds the effect of the module's calls up to the first throw, and the error is the throw's; a throw in the module's own calls mounts nothing else and makes no call. On success the scope's children are, in list order, one new scope per returned module function, each under it, newer than it, and holding that function's calls. On success the calls made are exactly `MountCalls` of the new scope: every descendant's mount hooks in post-order, children in list order, and then its own, last. Earlier calls stay. Without returned functions it succeeds iff no call throws. |
| ScopeRuntime.Runtime.CreateInstance | src/lib/context.ts:168-176 | `mount` makes a fresh context, with the old active scope as parent, the active one, and `createModuleInstance` appends it to the parent's children (line 154). The arena stays well formed. |
| ScopeRuntime.Runtime.RunModuleFn | src/lib/context.ts:155 | The module function's calls apply to the new scope in order until the first one that throws, and the result reports that throw. |
| ScopeRuntime.Runtime.RunAction | src/lib/context.ts:155 | One call a module function makes: it throws iff the call throws, with that call's error and nothing changed, and otherwise applies the call to the new scope only. |
| ScopeRuntime.Runtime.MountChildren | src/lib/context.ts:114-117 | Mounts the returned module functions under the active scope, in list order, changing no other existing scope. The active scope keeps its children and gains, on success, exactly one new child per function, in the order of the list, each newer than the one before, under it, and holding that function's calls. On success the calls made are the mount hooks of each new child's subtree (`MountCalls`), child after child in list order. An empty list changes nothing. |
| ScopeRuntime.Runtime.MountNext | src/lib/context.ts:114-117 | One turn of the loop: the next function is mounted, and on success its scope joins the children after those already mounted, in list order, with every other existing scope unchanged, and its subtree's mount hooks follow the calls of the earlier children. |
| ScopeRuntime.Runtime.Destroy | src/lib/context.ts:137-151 | The arena and call log become exactly what the `destroy` function gives, and the active pointer is unchanged. |
| ScopeRuntime.Runtime.RemoveFromParent | src/lib/context.ts:148-150 | Applies the intended detach step (see Findings). |
| ScopeRuntime.Runtime.DestroyChildren | src/lib/context.ts:144-145 | Destroys the children in order, with the effect of the function that specifies it. |
| ScopeRuntime.Runtime.DestroyNext | src/lib/context.ts:144-145 | One turn of the loop: destroying the next child keeps the arena and call log on course for the function `DestroyedEach`. |
| ScopeRuntime.Runtime.MountFrom | src/lib/context.ts:31-51 | The function `useAsyncMount` returns mounts under the scope saved when it was made, whatever scope is active at the call, and restores the active pointer afterwards. It has `mount`'s effect with the saved scope as parent: the new scope holds the calls up to the first throw, a throw is reported with its error and mounts nothing else, and on success the children are one new scope per returned function, in list order, and the calls made are exactly `MountCalls` of the new scope: descendants' mount hooks first, its own last. |
| ScopeRuntime.MountCalls | src/lib/context.ts:154-156 | The hooks a successful `mount` calls, in post-order: each child's subtree's hooks in the order of `children`, then the scope's own. What this order means is stated by `MountCallsChildFirst`. |
| ScopeRuntime.MountCallsChildFirst | src/lib/context.ts:155-156 | Descendants' mount hooks fire before the parent's: the hooks of the `k`-th child's subtree come right after those of the children before it, and all of them before the scope's own mount hooks, which are last. |
| ScopeRuntime.MountCallsFrame | src/lib/context.ts:154-156 | The hooks a mount of a scope calls depend only on that scope and the scopes above it, so mounting later siblings does not change them. |
| ScopeRuntime.MountCallsSnoc | src/lib/context.ts:114-117 | Mounting one more child under a scope adds that child's subtree's hooks after those of the children mounted before it. |
| UseModule.ModuleProxy.constructor | src/lib/context.ts:57-59 | A proxy starts with the given activity, no `update` and no instance. |
| UseModule.ModuleProxy.RunProxy | src/lib/context.ts:61-76 | The proxy's module captures the active scope for `update`, or throws without one. It registers its cleanup among that scope's destroy hooks and attaches the module holding `update` as that scope's last child. Its body's `update()` then has exactly `Update`'s effect on those scopes: while active, `Child` is mounted below them and becomes the instance iff the mount succeeds; while inactive it succeeds and drops the instance. |
| UseModule.ModuleProxy.Update | src/lib/context.ts:63-70 | While active, it keeps an existing instance and changes nothing. Without one, it attaches `Child` as the next free scope, parent the captured scope, at the end of that scope's children, and changes no other existing scope. The new scope holds `Child`'s calls up to the first throw, and a throw is reported with its error, stays attached and mounts nothing else. On success `Child`'s returned functions are mounted below it in list order, and the calls made are exactly `MountCalls` of the new scope: descendants' mount hooks first, its own last. An instance exists iff the mount succeeded. While inactive it leaves the scopes and the call log exactly as `destroy` of the instance leaves them, or unchanged when there is none, and forgets the instance. |
| UseModule.ModuleProxy.MountInstance | src/lib/context.ts:65 | `instance = instance \|\| mountChild(Child)` without an instance: `Child` is mounted under the captured scope with the effect `Update` states, and becomes the instance iff the mount succeeds. |
| UseModule.ModuleProxy.MaybeUpdate | src/lib/context.ts:87 | `update?.()`: before the proxy ran, or once its destroy hook has forgotten `update`, it changes nothing. Otherwise it has exactly `update`'s effect on the scopes, the call log and the instance, including the new scope's place, frame, content and children when it mounts. |
| UseModule.ModuleProxy.Destroy | src/lib/context.ts:84-88 | Ends inactive and never throws. It changes nothing when already inactive or once `update` is forgotten. Otherwise the scopes and the call log become those of `destroy` of the instance, with its subtree's destroy hooks run, and the instance is forgotten. |
| UseModule.ModuleProxy.Mount | src/lib/context.ts:90-94 | Ends active. It changes nothing when already active or once `update` is forgotten. Otherwise, without an instance, `Child` is attached as the next free scope under the captured scope, no other existing scope changes, the new scope holds `Child`'s calls up to the first throw and, on success, its returned functions' scopes in list order; it becomes the instance iff its mount succeeded. |
| UseModule.ModuleProxy.Toggle | src/lib/context.ts:96-99 | Flips `isActive`, then has exactly `update?.()`'s effect: a mount of `Child` when it turns active, with the new scope's place, frame and content as `Update` states, or the destruction of the instance when it turns inactive. |
| UseModule.ModuleProxy.Reload | src/lib/context.ts:101-105 | Always ends active. Once `update` is forgotten it changes nothing. Otherwise the old instance is destroyed first, with `destroy`'s effect, and `Child` is then attached as the next free scope under the captured scope, with the frame and content `Update` states for a mount. A new instance is newer than the one it replaces. |
| UseModule.ModuleProxy.Forget | src/lib/context.ts:71-74 | The proxy's destroy hook forgets `update` and the instance, after which `Mount`, `Toggle` and `Reload` change nothing. |
| UseModule.ModuleProxy.IsMounted | src/lib/context.ts:107-109 | `isMounted()` answers `isActive`, which `Destroy`, `Mount`, `Toggle` and `Reload` set. It does not say whether an instance exists. |
| UseModule.DestroyedOrSame | src/lib/context.ts:67-68 | `instance?.destroy()`: the arena and call log of `destroy` when there is an instance, with the hooks it runs appended to the call log; unchanged otherwise. |
| UseModule.CleanupRunsOnDestroy | src/lib/context.ts:71-74 | The cleanup the proxy registers in the captured scope is among the hooks run when that scope is destroyed. |
| UseModule.WithHolder | src/lib/context.ts:61-76 | The scopes once the proxy's module has registered its cleanup in the active scope and attached the module holding `update` as that scope's last child: one more scope, fresh, under the active one, whose destroy hooks end with the cleanup; every other scope unchanged. |
| LegacyPipeline.SetAdd | src/composables/use-tracking-pipeline.ts:49 | `Set.add` keeps the elements and their order, adds the new one iff absent, and keeps the set free of repetition. |
| LegacyPipeline.AddAll | src/composables/use-tracking-pipeline.ts:43-44 | Adding a list gives exactly the old and new elements, old order first, without repetition. |
| LegacyPipeline.AddAllPresent | src/composables/use-tracking-pipeline.ts:43-44 | Adding elements already present changes nothing. |
| LegacyPipeline.RegisterIdempotent | src/composables/use-tracking-pipeline.ts:42-45 | Registering the same producers again has no effect. |
| LegacyPipeline.ReduceRight | src/composables/use-tracking-pipeline.ts:61 | `trans.reduceRight(...)` starting from the push given to `start`, last transformer first. What it builds is stated by `ReduceRightNests`. |
| LegacyPipeline.ReduceRightNests | src/composables/use-tracking-pipeline.ts:61 | `reduceRight` makes the first-registered transformer outermost and the push given to `start` innermost. |
| LegacyPipeline.StartCallsEachProducer | src/composables/use-tracking-pipeline.ts:59-63 | `start` calls every registered producer exactly once, in registration order. |
| LegacyPipeline.Teardowns | src/composables/use-tracking-pipeline.ts:65 | One call of each collected teardown, in order. |
| LegacyPipeline.TrackingPipeline.constructor | src/composables/use-tracking-pipeline.ts:28-36 | No producers, transformers or teardowns yet. `ctx` holds the options, and its `document` entry is the given document or, when none is given, the host's `window.document`. |
| LegacyPipeline.TrackingPipeline.Define | src/composables/use-tracking-pipeline.ts:39-41 | Sets `ctx[key]`, replacing an earlier value, and changes nothing else; the `document` entry is untouched. |
| LegacyPipeline.TrackingPipeline.Register | src/composables/use-tracking-pipeline.ts:42-45 | Adds each producer to the producer set, and changes nothing else. |
| LegacyPipeline.TrackingPipeline.Transform | src/composables/use-tracking-pipeline.ts:46-51 | Adds the transformer to that producer's set, creating it on first use and ignoring duplicates. Other producers' sets are unchanged. |
| LegacyPipeline.TrackingPipeline.Compose | src/composables/use-tracking-pipeline.ts:52-54 | `compose` does nothing: its body is a TODO. It has no `modifies` clause, so it changes no state. |
| LegacyPipeline.TrackingPipeline.Start | src/composables/use-tracking-pipeline.ts:58-66 | Makes exactly the transformer and producer calls of a `start`, producer by producer. It keeps, in order, one teardown per producer: the one that producer's call returned with its wrapped push. |
| LegacyPipeline.TrackingPipeline.SetUp | src/composables/use-tracking-pipeline.ts:60-62 | Wraps the push with the producer's transformers, last first, and calls the producer with the result. |
| LegacyPipeline.TrackingPipeline.Stop | src/composables/use-tracking-pipeline.ts:65-67 | Calls the teardowns of the last `start` and keeps them, so a second `stop` calls them again. Before any `start` it calls nothing. |
| LegacyPipeline.CreateTrackingPipeline | src/composables/use-tracking-pipeline.ts:28-55 | Creates an empty pipeline with its `document` entry defaulted to the host's, and provides it in the active scope, or throws without one. The whole object is provided, where the source provides only `define`, `register`, `transform` and `compose` (see "## Left out"). |
| LegacyPipeline.UseTrackingPipeline | src/composables/use-tracking-pipeline.ts:71-73 | The pipeline of the nearest ancestor that created one, or the `inject` error. |
| LifeCycle.Unsubscribed | src/composables/use-tracking-life-cycle.ts:22-25 | Unsubscribing removes the first occurrence of the hook and keeps the others in order. A hook no longer present removes the last hook. |
| LifeCycle.OnThenUnsubscribe | src/composables/use-tracking-life-cycle.ts:20-25 | Subscribing a new hook and calling its unsubscribe gives back the list as it was. |
| LifeCycle.Subscriber.constructor | src/composables/use-tracking-life-cycle.ts:18-19 | `subscriber()` starts with no hooks. |
| LifeCycle.Subscriber.On | src/composables/use-tracking-life-cycle.ts:20-21 | `on` appends the hook. |
| LifeCycle.Subscriber.Unsubscribe | src/composables/use-tracking-life-cycle.ts:22-25 | The unsubscribe closure leaves the list as `Unsubscribed` says. |
| LifeCycle.Subscriber.Emit | src/composables/use-tracking-life-cycle.ts:27 | `emit` calls the hooks now registered, in order. |
| LifeCycle.CallEvery | src/composables/use-tracking-life-cycle.ts:13-16 | Calls every hook once, in order. |
| LifeCycle.TrackingLifeCycle.constructor | src/composables/use-tracking-life-cycle.ts:32-33 | Two distinct, empty subscriber lists. |
| LifeCycle.TrackingLifeCycle.Start | src/composables/use-tracking-life-cycle.ts:32 | `start()` runs only the `onStart` hooks, and changes neither list. |
| LifeCycle.TrackingLifeCycle.Stop | src/composables/use-tracking-life-cycle.ts:33 | `stop()` runs only the `onStop` hooks, and changes neither list. |
| LifeCycle.TrackingLifeCycle.OnStart | src/composables/use-tracking-life-cycle.ts:32-35 | `onStart` changes the start list only. |
| LifeCycle.TrackingLifeCycle.OnStop | src/composables/use-tracking-life-cycle.ts:33-36 | `onStop` changes the stop list only. |
| LifeCycle.SetupTrackingLifeCycle | src/composables/use-tracking-life-cycle.ts:31-39 | Provides two new, empty, independent lists in the active scope, or throws without one. The whole life cycle is provided, where the source provides only `onStart` and `onStop` (see "## Left out"). |
| LifeCycle.UseTrackingLifeCycle | src/composables/use-tracking-life-cycle.ts:41-43 | Fails with 'injectable is not available' iff no ancestor set the lists up, and otherwise answers the nearest one's. |
| Events.ChainDelivers | src/composables/use-event.ts:15-18 | Under nested `useEventTransformer` calls, an event reaches the root emitter with the nearest map applied first and the outermost last. |
| Events.Deliver | src/composables/use-event.ts:15-18 | Where an event emitted through an emitter ends up: the sink it reaches and the event after each map on the way. `ChainDelivers` states the order of the maps. |
| Events.UseEventEmitter | src/composables/use-event.ts:11-13 | The nearest ancestor's emitter, or failure when none provided one. |
| Events.ProvideEventEmitter | src/composables/use-event.ts:20-22 | Provides the emitter in the active scope. |
| Events.UseEventTransformer | src/composables/use-event.ts:15-18 | Provides, to the modules below, the inherited emitter with `map` applied first. It fails when none is inherited. |
| Events.IdStore.constructor | src/composables/use-event.ts:25 | A new store's counter is 1. |
| Events.IdStore.Next | src/composables/use-event.ts:30 | Returns the counter, then increments it by exactly 1. |
| Events.IdsFrom | src/composables/use-event.ts:30 | The `n` ids drawn from a counter at `first` are `first, first + 1, …`. |
| Events.DrawIds | src/composables/use-event.ts:28-31 | Any `n` calls on one store return consecutive ids from its counter, and advance it by `n`. |
| Events.TwoGetters | src/composables/use-event.ts:28-30 | Two getters share a counter exactly when they come from the same store. Then the second call sees the first call's increment; otherwise each counter moves by one on its own. |
| Events.SetupEventIdentifier | src/composables/use-event.ts:24-26 | Provides a new store whose counter is 1. |
| Events.UseEventIdentifier | src/composables/use-event.ts:28-31 | The store of the nearest ancestor that set one up, or the `inject` error. |
| RageClick.Click | src/producers/insights.ts:8-15 | Timestamps are the events' fractional `timeStamp`s in milliseconds. After a click the buffer holds at most 3 timestamps, the oldest dropped first. The click emits iff it completes 3 timestamps spanning less than 300 ms, and an emission empties the buffer. |
| RageClick.Run | src/producers/insights.ts:8-15 | The buffer never exceeds 3 timestamps, whatever clicks arrive. |
| RageClick.RunUsesThreeClicks | src/producers/insights.ts:11-13 | Each rage click uses up three clicks: three times the emissions plus the buffer never exceeds the clicks seen. |
| RageClick.ThreeQuickClicks | src/producers/insights.ts:9-14 | Three clicks within 300 ms from an empty buffer emit exactly once, on the third. |
| RageClick.TwoClicksAfterEmission | src/producers/insights.ts:13 | After an emission the next two clicks emit nothing. |
| RageClick.ClickWithoutPush | src/composers/index.ts:8-15 | One click in the copy without a push. It tries to push iff `Click` would emit, and otherwise agrees with `Click`. Its buffer is never cleared: it always holds the last `min(n, 3)` timestamps. |
| RageClick.QuickClicksThrowAgain | src/composers/index.ts:11-13 | Three quick clicks make that copy throw and keep all three timestamps, so a fourth click within 300 ms of the second throws again. The copy with a push emits once and starts over. |
| RageClick.Detector.constructor | src/producers/insights.ts:5-7 | A composer starts with an empty buffer, the event type it emits, and whether its setup received the push (`src/composers/index.ts:5-7` is the copy without one). |
| RageClick.Detector.OnClick | src/producers/insights.ts:8-15 | With a push, the in-place push, shift and splice leave the buffer `Click` gives, and the handler emits one event of its own type iff `Click` emits. Without one, the buffer is the one `ClickWithoutPush` gives, and the handler throws a `TypeError` iff `Click` would emit. |
| DomComposers.Forward | src/producers/dom.ts:37-42 | Without anonymization the event passes unchanged. With it, the copy has `anonymized: true` and every other field preserved, with none added. |
| DomComposers.AnonymizeIdempotent | src/producers/dom.ts:41 | Anonymizing an anonymized copy changes nothing. |
| DomComposers.RecordingDomSetup | src/producers/dom.ts:34-38 | Throws without an active pipeline context, and with a TypeError when no config was defined. Otherwise the handler anonymizes iff the config says so. |
| DomComposers.TextVisibilityCounter.constructor | src/producers/dom.ts:47 | The counter starts at 0, in either copy. |
| DomComposers.TextVisibilityCounter.OnInput | src/producers/dom.ts:48-50 | Calls `push` on the 2nd, 4th, … input, whatever the input, so after `n` inputs it has called it `n / 2` times. With a push each call emits 'textVisibility'. Without one (`src/composers/index.ts:21-23`) each call throws a `TypeError` after the counter has been incremented, and nothing is emitted. |
| Throttle.OnePerWindow | src/producers/pointers.ts:17-23 | Between two timer expiries at most one event is forwarded, and none while the timer is pending. From idle the first move is forwarded. |
| Throttle.ForwardedUnchanged | src/producers/pointers.ts:19-21 | Every forwarded event is one of the moves, unchanged. |
| Throttle.ThrottledMouseMove.constructor | src/producers/pointers.ts:17 | No timer is pending. |
| Throttle.ThrottledMouseMove.OnMove | src/producers/pointers.ts:18-22 | Forwards the event and arms the 400 ms timer iff none is pending. While one is pending it drops the event and keeps the timer. |
| Throttle.ThrottledMouseMove.Expire | src/producers/pointers.ts:20 | Timer expiry returns the throttle to idle. |
| Throttle.Next | src/producers/pointers.ts:18-22 | The throttle's step: timer expiry returns to idle, and a move is forwarded and arms the timer iff it is idle, or dropped while the timer is pending. |

## Left out

- **Host timers and the clock.** `Date.now`, `setTimeout(reschedule, 0)` and the 400 ms throttle timer are explicit: a `now` argument, `Rescheduler.Flush` and `ThrottledMouseMove.Expire`. The host event loop that would call them is not modelled.
- **Opaque callbacks.** Setups, transformers, hooks, teardowns, stop listeners, emitters' maps and exposed methods are numbers. What they do when called is not modelled; only that and when they are called is.
- **A re-entrant `start`.** A setup that calls back into the pipeline during `start`, such as `use` or `start`, is therefore not modelled.
- **Prototypes.** `Object.setPrototypeOf(moduleInstance, ctx.exposed)` becomes a lookup in the scope's `exposed` map (`ScopeTree.MemberOf`).
- **Context tokens.** The tokens from `createContext`/`createPipelineContext` are fixed distinct numbers rather than fresh symbols.
- **Per-consumer runtimes.** Each consumer module is modelled over a runtime whose provided values have that consumer's type, so the models of different consumers do not share one arena.
- **Console output.** `console.warn('No consumer found for', …)` appears as a log entry. `console.log` and the `__DEBUG__` branches are left out.
- **`Rescheduler.Rescheduler.Flush`:** does not state the state after a flush whose replays go over budget; only the invariant holds then. Re-queued events stay in order and no event is lost.
- **`UseModule.ModuleProxy.Update`:** the module `useModule` returns mounts its child from the `update` function it returns, as a nested module. The model runs `update` as the proxy module's own last step, with the same effect on the scopes and the calls.
- ScopeRuntime.Runtime.Mount: when a returned module function's mount throws, the call log is only said to keep the earlier calls as a prefix. The mount hooks of the siblings mounted before the throw, and of the failing module's own mounted children, are not listed.
- ScopeRuntime.Runtime.MountChildren: the same for the call log on a throw.
- **Module functions as scripts.** A `ModuleFn` is a finite value fixed in advance: its calls and the module functions it returns. This is what lets `mount` and `mountChildren` terminate by `decreases fn`. A module function that returns itself, or returns different children on different calls, cannot be written. In the source the first of these recurses through `mount` and `mountChildren` until the stack overflows.
- **What is provided.** `LegacyPipeline.CreateTrackingPipeline` provides the whole `TrackingPipeline` object, `Start` and `Stop` included. The source provides only `{define, register, transform, compose}` (src/composables/use-tracking-pipeline.ts:38-55) and hands `start`/`stop` back to the caller alone. Likewise `LifeCycle.SetupTrackingLifeCycle` provides the whole `TrackingLifeCycle`, where the source provides `{onStart, onStop}` (src/composables/use-tracking-life-cycle.ts:34-37) and returns `{start, stop}`. The model does not stop an injecting module from calling `Start` or `Stop`.
- ScopeRuntime.Runtime.Destroy: uses the intended detach rather than the detach as written, which keeps an instance at index 0 attached (see Findings).
- ScopeTree.Destroyed: uses the intended detach rather than the detach as written, as for `ScopeRuntime.Runtime.Destroy`.
- ScopeRuntime.Runtime.RemoveFromParent: applies the intended detach rather than the detach as written, as for `ScopeRuntime.Runtime.Destroy`.
- **Integer precision.** `Events.IdStore.Next` and `DomComposers.TextVisibilityCounter.OnInput` use unbounded integers. The JavaScript number precision limit (2^53) is not modelled.
- **Setups that throw.** Every setup `start` calls is taken to return. The lines below name what each resolution member then does not promise.
- Resolver.ResolveSound: assumes that no setup throws. In the source a setup's throw leaves its node uncached and propagates. When the node is a child, the `catch` at src/composables/use-tracking-pipeline/pipeline.ts:178-182 swallows it and drops the child. A later `resolve` of the same node, from another parent or from the registry loop, then calls its setup again. So "every node visited ends cached", "no setup is called twice" and "the only error is 'No consumer'" hold only when every setup returns. For example, a throwing composer between a producer and its only consumer leaves the producer cached as null, where the model resolves it.
- Resolver.ResolveSourceSound: assumes that no setup throws, as for `ResolveSound`. A throwing setup of the source itself or of one of its transformers (line 194 or 196) escapes with that setup's error, and nothing is cached for the source.
- Resolver.ResolveEachSound: assumes that no setup throws, as for `ResolveSound`. A child whose setup throws is dropped by the `catch` without being cached, where the model caches every child.
- Resolver.SettleSound: assumes that no transformer or source setup throws, as for `ResolveSound`. A throw there leaves `s` uncached, where the model always caches `s`.
- Resolver.WiredSound: assumes that no transformer or source setup throws, as for `ResolveSound`. It does not describe a wiring cut short by a throwing setup at line 194 or 196.
- TrackingPipeline.ResolveInOrder: assumes that no setup throws, as for `ResolveSound`. A setup that throws at the top of the loop escapes `start` with its own error (for instance a `TypeError`), not 'No consumer', and may leave no source cached as null.
- TrackingPipeline.Pipeline.Start: assumes that no setup throws, as for `ResolveSound`. It does not model a `start` that throws a setup's own error, repeated setup calls of a node whose earlier setup threw, or a failure that leaves no source cached as null.
- TrackingPipeline.Pipeline.Launch: the same assumption as `TrackingPipeline.Pipeline.Start`.
- TrackingPipeline.ResolveRegistry: the same assumption as `TrackingPipeline.Pipeline.Start`.
- **A setup returning a falsy value.** A consumer or source whose setup returns a falsy value would be dropped from `next` by the `!!instance` filter. Every setup is taken to return a function.
- **The newer `createTrackingPipeline` wrapper.** `src/composables/use-tracking-pipeline/use-tracking-pipeline.ts` only re-provides `define`/`suspend`/`use`, and is not part of this model.
- **Other parts of the repository.** `src/lib.ts`, the browser I/O producers (`listen`, `inputs`, `ClickProducer`, `MouseMoveProducer`, `DOMProducer`), `src/modules/**`, `src/recordings/**`, the transformers and the bootstrap files are not part of this model.

## Findings

| source | as written | input that shows it | evidently intended | confidence | as-written member | corrected member |
|---|---|---|---|---|---|---|
| src/lib/context.ts:148-150 | `indexOf(moduleInstance) \|\| -1` turns a found index of 0 into -1, so the `index > -1` test fails and the instance is not spliced out | a root with one child: detaching the child leaves it in the root's `children`, so a later `destroy` of the root calls its `destroy` again (`ScopeTree.OnlyChildStaysAttached`, `ScopeTree.FirstChildStaysAttached`) | remove the destroyed instance from its parent's `children` wherever it sits, with `?? -1` or no fallback at all; `ScopeTree.DetachRemoves` proves that the corrected step does this | high (not executed) | ScopeTree.DetachAsWritten | ScopeTree.Detach |
| src/composers/index.ts:5-18 | both composers declare their setup as `(_, push)`, but `resolve` calls a composer's setup with the push as its only argument (src/composables/use-tracking-pipeline/pipeline.ts:196), so `push` is `undefined`. The declared type agrees with this file, not with the call: src/composables/use-tracking-pipeline/types.ts:58-60 types every producer, transformer and composer setup as `(ctx, push)`, so the call sites at pipeline.ts:172, :194 and :196 and the copies in `src/producers/` are just as much at odds with the types | three clicks within 300 ms: the third throws a `TypeError` at line 12, before the splice at line 13, and a fourth click within 300 ms of the second throws again (`RageClick.QuickClicksThrowAgain`); likewise every second input of the text-visibility copy throws at line 22 | take the push as the setup's only parameter, as the copies in `src/producers/insights.ts` and `src/producers/dom.ts` do; `RageClick.ThreeQuickClicks` and `RageClick.TwoClicksAfterEmission` prove the intended window for that form | medium (not executed; the declared setup type sides with this file, so the fault may lie in `resolve`'s calls instead; no other file imports `src/composers/index.ts`) | RageClick.ClickWithoutPush | RageClick.Click |
