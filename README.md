# react-reservice: the mutation-coalescing store and the key selector

This project models the core of react-reservice, a small observable-state container for React.

A `Service` holds a context object behind a JavaScript `Proxy`. Every property write through the
proxy's `set` trap does two things. It queues a deferred callback (a promise continuation) carrying a
ticket, which is the value of the counter `queueSequence` at that write; the counter is then
incremented. Then it attempts the assignment, swallowing any exception. When the deferred callbacks run,
only the one holding ticket 0 calls every registered updater with the live context, and that dispatch
resets the counter to 0. As a result, a batch of synchronous writes produces exactly one notification,
and that notification reflects all of the batch's writes. `serviceSelector` builds the projection a
component subscribes with: either the whole context, or a fresh object holding the listed keys.

Modules:

- `Selector` (selector.dfy): `serviceSelector` as pure functions. It includes the stringification
  `${key}` of the keys.
- `Coalescing` (coalescing.dfy): the whole state of one store as a value (`State`). Each operation is a
  function on that state. The lemmas state the coalescing guarantee and the invariants.
- `Store` (store.dfy): the `Service` class with the source's fields. Its methods update those fields in
  place. Each state-changing method except the private `QueueCommand` is proved to have exactly the
  effect of the matching `Coalescing` function on `Abstract()`, so every lemma about the functions also
  holds of the class. `QueueCommand` is specified on the two fields it changes, and `GetCurrentContext`
  changes nothing.

The host's microtask queue is modelled as the sequence `pending` of tickets not yet run, oldest first.
`RunNextDeferred` runs one callback and `RunMicrotasks` runs callbacks until the queue is empty. An
updater is an opaque id. What it does when called is a parameter `r: Reactions`, which gives the writes
the updater makes through the live proxy and whether it throws. A ghost `log` records every updater call
together with the context that call was shown.

Facts about the code that shape the model:

- Updaters are called with the live proxy `this.context` (src/index.ts:62), not a copy. Updaters here
  therefore see, and can write to, the live context. A write an updater makes during a dispatch gets a
  non-zero ticket and is never dispatched itself.
- The store starts with a plain `{}` that is not a proxy (src/index.ts:12). Writes made before the first
  `context = …` assignment queue nothing.
- The `forEach` in `dispatchUpdater` has no `try` (src/index.ts:61-63). An updater that throws ends the
  dispatch before the counter is reset. The main model isolates each updater call instead; the code as
  written is modelled beside it (see Findings).
- The `set` trap swallows a failed assignment and reports success (src/index.ts:33-40). For a property
  that is non-writable and non-configurable, as after `Object.freeze`, and a different value, the proxy's
  own invariant check on `[[Set]]` (section 10.5.9 of ECMA-262) turns that success into a TypeError at
  the writer. The callback is queued all the same.

## Model

| member | source | states |
|---|---|---|
| `Selector.NatName` | src/index.ts:149 | the exact decimal text of a natural number (what `${n}` gives up to 2^53) is non-empty, all digits, and starts with `0` only for 0 (no leading zeros) |
| `Selector.IntName` | src/index.ts:149 | the text of an integer key is non-empty and starts with `-` exactly when the integer is negative |
| `Selector.NatNameInjective` | src/index.ts:149 | different natural numbers stringify differently |
| `Selector.IntNameInjective` | src/index.ts:149 | different integer keys name different properties, so none is lost in the fold |
| `Selector.Pick` | src/index.ts:148-151 | folding the keys into the accumulator yields the accumulator's names plus every stringified key; a listed name holds the context's value there, or `undefined` if the context lacks it; other names keep the accumulator's value |
| `Selector.ServiceSelector` | src/index.ts:141-152 | with no key list the result is the context itself; with a key list it is a fresh object whose names are exactly the stringified keys, each holding `context[key]`, which is `undefined` when the context lacks the key |
| `Selector.SelectionDependsOnlyOnKeys` | src/index.ts:136-152 | two contexts that agree on the listed keys give equal selections, whatever else they hold |
| `Selector.KeyNameSameKindInjective` | src/index.ts:149 | `${key}`: two keys of the same kind (integers, strings, or booleans/`null`/`undefined`) give the same property name only when they are equal |
| `Selector.KeyNamesMeetAcrossKinds` | src/index.ts:149 | `${key}` and `context[key]` use the string form, so `1` and `"1"`, `true` and `"true"` pick the same property |
| `Coalescing.Initial` | src/index.ts:10-45 | a new store has no updaters, counter 0 and an empty queue, and satisfies the store invariant |
| `Coalescing.WriteKeepsConsistent` | src/index.ts:32-51 | a write keeps the store invariant: at most one ticket 0 is queued, and one is queued exactly when the counter is positive |
| `Coalescing.WriteAllKeepsConsistent` | src/index.ts:32-51 | a run of writes keeps the store invariant |
| `Coalescing.WriteAllFrame` | src/index.ts:32-41 | a run of writes applies its assignments in order and changes neither the updaters, the interception flag nor the log (no updater is called) |
| `Coalescing.WriteAllPlain` | src/index.ts:12 | before the first `context = …` the object is a plain `{}`: writes queue nothing and leave the counter alone |
| `Coalescing.WriteAllTickets` | src/index.ts:47-51 | through the proxy, N writes add N to the counter and append the tickets c..c+N-1, c being the counter before |
| `Coalescing.SetContext` | src/index.ts:30-43 | assigning a new context installs it and turns interception on; it queues no ticket and changes neither the counter nor the updaters |
| `Coalescing.Subscribe` | src/index.ts:69-71 | the updaters become the old ones plus the new one; re-adding a registered updater changes nothing; otherwise it is appended last (Set insertion order); the invariant is kept |
| `Coalescing.Without` | src/index.ts:73-75 | removing an updater leaves exactly the other updaters, keeps a duplicate-free list duplicate-free, and leaves the list unchanged when the updater is absent |
| `Coalescing.WithoutAt` | src/index.ts:73-75 | on a duplicate-free list, removing an updater cuts out its one position and keeps the order of the rest |
| `Coalescing.Unsubscribe` | src/index.ts:73-75 | unsubscribing keeps the store invariant |
| `Coalescing.DeliverEachFrame` | src/index.ts:60-63 | calling the updaters changes neither the registered updaters nor the interception flag |
| `Coalescing.DeliverEachTickets` | src/index.ts:60-63 | writes the updaters make through the live proxy never lower the counter and only append tickets no smaller than it |
| `Coalescing.DeliverEachLog` | src/index.ts:60-63 | the `forEach` makes exactly one call per updater, in order; the first call sees the context as it was |
| `Coalescing.Drain` | src/index.ts:48-57 | running deferred callbacks until none is left terminates, leaves the queue empty, and keeps the invariant, the interception flag and the updaters |
| `Coalescing.WriteAllEffect` | src/index.ts:32-51 | N writes apply their assignments and call no updater; through the proxy they append the tickets c..c+N-1 and add N to the counter; before interception they queue nothing |
| `Coalescing.AssignEffect` | src/index.ts:33-38 | the assignment inside the trap touches only its key: an accepted one makes it hold the value, a rejected one (non-writable key, or a new key on a non-extensible object) leaves the object exactly as it was; writable existing keys are always accepted |
| `Coalescing.RefusedWriteStillQueues` | src/index.ts:33-40 | a write to a frozen property with a different value still queues its callback and advances the counter, and leaves the object unchanged |
| `Coalescing.DeliverEachEffect` | src/index.ts:60-63 | the `forEach` logs exactly one call per updater, in order; the first call sees the context as it was; writes made by the updaters only append tickets no smaller than the counter |
| `Coalescing.DeliverEachQuiet` | src/index.ts:60-63 | when the updaters write nothing, every updater is shown the same unchanged context |
| `Coalescing.RunNextKeepsConsistent` | src/index.ts:52-67 | running one deferred callback keeps the invariant; once ticket 0 has run no ticket 0 is left; any other ticket is only removed from the queue |
| `Coalescing.DrainNonZero` | src/index.ts:52-57 | callbacks holding non-zero tickets have no effect on the updaters, the context, the counter or the log |
| `Coalescing.DrainAfterDispatch` | src/index.ts:52-67 | when ticket 0 is next, draining the queue amounts to that one dispatch followed by no-ops |
| `Coalescing.DrainFromDispatch` | src/index.ts:52-67 | when ticket 0 is next, draining the queue equals one pass over the updaters followed by a counter reset, with the queue left empty |
| `Coalescing.DrainFromDispatchLog` | src/index.ts:52-67 | when ticket 0 is next, the drain calls every registered updater once, in order, the first one seeing the current context, and leaves the counter at 0 |
| `Coalescing.DrainSkipsAbsent` | src/index.ts:52-67 | when ticket 0 is next, the drain calls no updater that is not registered |
| `Coalescing.BatchQueuesTickets` | src/index.ts:47-51 | from a settled store, N synchronous writes queue exactly the tickets 0..N-1, leave the counter at N and call no updater |
| `Coalescing.BatchDispatchesOnce` | src/index.ts:47-67 | from a settled store, N >= 1 writes and then a drain give exactly one dispatch: one call per updater, in order; the first call sees the context after all N writes, even when updaters write back; the counter ends at 0 |
| `Coalescing.BatchQuietDispatch` | src/index.ts:47-67 | with updaters that write nothing, every updater in that single dispatch sees the context after all N writes |
| `Coalescing.NextWriteOpensBatch` | src/index.ts:65-66 | after the queue drains the counter is 0, so the next write gets ticket 0 and opens a new batch |
| `Coalescing.DispatchWritesNeverDispatch` | src/index.ts:60-67 | writes made by updaters during a dispatch get non-zero tickets; after the dispatch no ticket 0 is queued and the counter is 0 |
| `Coalescing.DispatchCallsEachUpdaterOnce` | src/index.ts:61-71 | in one dispatch every registered updater is called exactly once, and nothing else is called |
| `Coalescing.SubscribeIdempotent` | src/index.ts:69-71 | subscribing twice has the same effect as subscribing once |
| `Coalescing.UnsubscribeRemovesOnly` | src/index.ts:73-75 | unsubscribing removes exactly the given updater and keeps the order of the rest; removing an unregistered updater is a no-op; the context, counter, queue and log do not change |
| `Coalescing.StuckStoreStaysSilent` | src/index.ts:47-67 | as written, a store whose counter stayed positive with no ticket 0 queued stays that way: every later write gets a non-zero ticket and no callback calls an updater |
| `Coalescing.UnsubscribeBeforeDrain` | src/index.ts:47-75 | an updater unsubscribed after a batch of writes but before the deferred dispatch runs is never called by that drain; the invariant holds |
| `Coalescing.DeliverEachAsWrittenNoThrow` | src/index.ts:60-63 | with updaters that never throw, the `forEach` as written runs to the end and has exactly the effect of the isolating model |
| `Coalescing.RunNextAsWrittenNoThrow` | src/index.ts:52-67 | with updaters that never throw, a deferred callback as written has exactly the effect of `RunNext`, so the batch lemmas hold of the code as written for such updaters |
| `Coalescing.ThrowingUpdaterSilencesStore` | src/index.ts:60-67 | as written, with one throwing updater the first write is dispatched, the store is left stuck, and a second write is never delivered |
| `Coalescing.IsolatedUpdaterKeepsDelivering` | src/index.ts:60-67 | with each updater call isolated, the same input delivers both writes and the store ends settled |
| `Store.Service.constructor` | src/index.ts:10-45 | a new `Service` is the initial store: a plain `{}` with no interception, no updaters, counter 0 |
| `Store.Service.GetCurrentContext` | src/index.ts:17-19 | returns a copy equal to the current properties and changes nothing |
| `Store.Service.SetContext` | src/index.ts:30-43 | installs the new object and turns on interception; updaters, counter, queue and log are unchanged |
| `Store.Service.Subscribe` | src/index.ts:69-71 | `updaters.add`: the registered set gains the updater; an already-registered updater leaves it unchanged; nothing else changes |
| `Store.Service.Unsubscribe` | src/index.ts:73-75 | `updaters.delete`: exactly that updater is removed; an absent one is a no-op; nothing else changes |
| `Store.Service.QueueCommand` | src/index.ts:47-58 | appends one ticket equal to the counter's previous value and increments the counter by 1 |
| `Store.Service.Write` | src/index.ts:32-41 | the `set` trap: its effect is exactly `Coalescing.Write` and it keeps the invariant; through the proxy it appends one ticket equal to the old counter and adds 1 to the counter, even when the assignment is rejected; the writer sees success except when the proxy's invariant check refuses it (frozen property, different value) |
| `Store.Service.WriteEach` | src/index.ts:32-41 | a sequence of writes through the proxy has the effect of `Coalescing.WriteAll` |
| `Store.Service.DispatchUpdater` | src/index.ts:60-67 | the loop calls every updater in order with the live context, then resets the counter (the effect of `Coalescing.Dispatch`) |
| `Store.Service.RunNextDeferred` | src/index.ts:52-57 | a callback with a non-zero ticket only leaves the queue; ticket 0 dispatches and leaves counter 0 with no ticket 0 queued; the invariant is kept |
| `Store.Service.RunMicrotasks` | src/index.ts:48-57 | running the queue to empty leaves counter 0 and has the effect of `Coalescing.Drain` |
| `Store.CountBatchDelivered` | src/index.ts:30-67 | for the store `{count: 0}` with one updater, the writes `count = 1; count = 2` followed by a drain give one updater call, which sees `{count: 2}` |
| `Store.BatchOfTwoWrites` | src/index.ts:30-67 | installing `{count: 0}`, subscribing one updater and writing `count = 1; count = 2` gives exactly one updater call, which sees `{count: 2}`, and leaves the context at `{count: 2}` |

## Left out

- `useService` (src/index.ts:113-134) is React `useState`/`useEffect` glue. Its behaviour depends on how React schedules renders and effects.
- `isEqual` (src/index.ts:80-101) wraps `JSON.stringify`. Its results are those of the serializer, which is not part of this model.
- Promises and microtasks are modelled only as the FIFO queue `pending`. Rejected promises and interleaving with other host tasks are not modelled. `RunMicrotasks` stands for the host draining its microtask queue.
- Only the proxy's `set` trap is modelled. A deletion or `defineProperty` through the proxy is not intercepted in the source either, and is not modelled.
- Values are immutable and the target is never itself a proxy. The proxy has only a `set` trap (src/index.ts:31-42), so three behaviours of the source are not modelled. First, a write to a nested object (`service.context.user.name = "b"`) changes the state without reaching the trap: no ticket is queued and nothing is dispatched. Second, `getCurrentContext` (src/index.ts:18) is a shallow copy, so mutating a nested object in the snapshot mutates the store's object. Third, installing a proxy as the context (`b.context = a.context`, or `s.context = s.context`) runs two traps per write and queues two tickets, on one store or on two, where `Coalescing.WriteAllTickets` and `Store.Service.Write` state one.
- Writes through an old proxy after a later `context = …` assignment are not modelled. Such writes still queue tickets on the same store but change the old object. The model has one current object (aliasing).
- The `context` getter (src/index.ts:22-24) hands out the live proxy. Writes through it are `Write`, and reads are `GetCurrentContext`. The handle itself is not modelled.
- An updater cannot subscribe or unsubscribe updaters while a dispatch runs. A JavaScript `Set.forEach` would visit updaters added during the loop and skip deleted ones.
- Updaters are opaque ids (`Listener`). Their bodies are the parameter `Reactions`. The `log` is an observation device and does not exist in the source.
- Store.Service.DispatchUpdater: isolates a throwing updater (the intended behaviour), unlike the source's `forEach`. So do `Coalescing.Deliver`, `Coalescing.DeliverEach`, `Coalescing.Dispatch`, `Coalescing.RunNext`, `Coalescing.Drain`, every batch lemma built on them, and `Store.Service.RunNextDeferred`/`Store.Service.RunMicrotasks`. The source's behaviour is modelled separately by `Coalescing.DeliverEachAsWritten`, `Coalescing.DispatchAsWritten` and `Coalescing.RunNextAsWritten`, which agree with the main model when no updater throws (`Coalescing.RunNextAsWrittenNoThrow`; see Findings).
- A nullish entry in the updater set is skipped by `updater?.(…)` (src/index.ts:62). Updaters here are ids, never nullish, so every registered one is called.
- An updater that assigns `service.context = …` during a dispatch is not modelled. In the source the later updaters of that dispatch receive the new proxy, because `this.context` is read on each call. `Reactions` only lets an updater write properties.
- A TypeError the proxy's invariant check raises at a writer (`Store.Service.Write` returning `false`) does not stop the model's runs of writes: an updater's writes are the ones it makes, whether it catches that error or not, and a write that ends the updater is its last one.
- Coalescing.AssignEffect: a context's properties are data properties only (`Target` has no getters or setters). A setter on the object or its prototype chain, such as `set total(v)` on a class instance, runs inside the trap's assignment (src/index.ts:37) and may change other properties directly; those changes queue no ticket, and the lemma's "only `key` changes" does not hold for them.
- Store.Service.Write: as accessors are not modelled, the writer's TypeError for a non-configurable own accessor without a setter is not reported. There the trap's assignment throws and is swallowed, the trap returns `true`, and the proxy's check on `[[Set]]` (section 10.5.9 of ECMA-262, step 10.b) throws at the writer for any value. `Coalescing.Refuses` covers only the non-configurable, non-writable data property given a different value.
- Store.Service.GetCurrentContext: models a context as its own enumerable string-keyed properties only. Symbol-keyed and non-enumerable properties, which the spread `{...}` treats differently, are not modelled.
- Selector.ServiceSelector: a name the context lacks as an own property reads as `undefined`. JavaScript would find names inherited from `Object.prototype`, such as `toString`.
- Selector.ServiceSelector: keys are strings, integers, booleans, `null` and `undefined`. The following are not modelled: Symbol keys (where `${key}` throws a `TypeError`), non-integer numbers, and objects (stringified through their `toString`). Integer keys are named by their exact decimal text, which is what `${key}` gives only for magnitudes up to 2^53. Above that JavaScript prints the shortest digits that round-trip, padded with zeros: `2**64` names `"18446744073709552000"`, not `"18446744073709551616"`, and from 1e21 on it uses exponent form.
- `serviceSelector` is curried in the source (`keys => context => selection`). `Selector.ServiceSelector` takes both arguments at once.
- `queueSequence` is an unbounded integer. A JavaScript number stays exact up to 2^53 writes per batch.
- The TypeScript generic types (`ServiceContext`, `IServiceSelector`) have no behaviour.

## Findings

| source | as written | input that shows it | evidently intended | confidence | as-written member | corrected member |
|---|---|---|---|---|---|---|
| src/index.ts:60-67 | `dispatchUpdater` runs `forEach` with no `try`. An updater that throws ends the loop, so `queueSequence = 0` never runs. The counter stays positive, every later write gets a non-zero ticket, and the store never notifies again. | One subscribed updater that throws. For example, a `useService` updater whose selection holds a `BigInt`, which `JSON.stringify` rejects inside `isEqual`. Install a context, write `x = 1`, run the queue, write `x = 2`, run the queue. The second write is never delivered. | Each updater call is isolated, and the counter is reset after every dispatch, so later batches are still delivered. | not executed; high | `Coalescing.ThrowingUpdaterSilencesStore` | `Coalescing.BatchDispatchesOnce` |
