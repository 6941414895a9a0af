# Read-through cache: lookup coordination and the invalidation barrier

This project models the core of MongoDB's `ReadThroughCache<Key, Value>`
(`src/mongo/util/read_through_cache.h`) and proves properties of it in Dafny.
The cache answers `acquireAsync(key)` from an eviction cache when it can. On a
miss it makes sure at most one lookup per key is in flight. Every caller that
asks while that lookup runs joins it, and all of them get one shared outcome.
`invalidate`, `invalidateIf`, `invalidateAll` and `insertOrAssignAndGet` act as
a barrier. A lookup round that was in flight when its key was invalidated never
delivers its outcome, whether a value, "not found" or an error; the loop in
`_doLookupWhileNotValid` runs a new round instead. The one exception is a
cancellation-class error, which ends the loop whatever the round.

The model has three layers:

- `types.dfy` (module `CacheTypes`): the values. A stored value with its
  fetch time, a value handle (set, or empty for "not found"), the status a
  lookup round completes with, the outcome handed to waiters, a cancel token,
  and the per-key lookup state.
- `lookup_spec.dfy` (module `LookupSpec`): the cache as an abstract state
  machine. `State` holds the eviction cache as a map, the in-progress map, and
  a count of scheduled rounds. There is one function per atomic step (see below).
  Most steps are one region of the source that runs under `_mutex`.
  `AcquireAsync` and `DoLookupWhileNotValid` each span several regions, as
  listed below. Traces of events (`Apply`, `Run`) support the
  whole-history properties: deduplication, one shared outcome for all waiters,
  and the invalidation barrier.
- `read_through_cache.dfy` (module `ReadThrough`): the source's two classes.
  `InProgressLookup` has the fields `valid`, `cancelToken`, `waiters` and the
  shared promise slot `sharedPromise`. `ReadThroughCache` has the fields
  `cache` and `inProgressLookups`, a map from keys to lookup objects. Each
  method's postcondition equates the new abstract state `Abs()` with the
  `LookupSpec` function applied to the old one. A caller's future is either
  ready (a hit) or a reference to the lookup object, so all joiners read the
  same slot. `SignalWaiters` requires the slot to be empty. A lookup that has
  left the map is never modified again.
- `scenarios.dfy` (module `Scenarios`): client code that drives a fresh cache
  through concrete scenarios and states what the callers see.

Concurrency becomes events. Each locked region is one atomic step. The
completion of a lookup round is a call of `DoLookupWhileNotValid(key, status,
now)`: the caller supplies the round's status (found v, not found, an error,
or an error classified as a cancellation) and the time `_now()` would return.
Three groups of adjacent regions are merged into one step each:

- The lock-free fast path of `acquireAsync` and its re-check under the mutex
  are one step.
- The retry branch of `_doLookupWhileNotValid`, which unlocks at line 345, and
  the locked part of `asyncLookupRound` on lines 422-430 are one step. An
  invalidation that falls between them only requests cancellation of a round
  that has already completed. A round started after it is a round after the
  invalidation, so the merge changes no outcome.
- On a miss, `acquireAsync`'s locked region (lines 219-236) and the first pass
  of the loop are one step. That first pass is the locked test at lines
  341-346 and the locked part of `asyncLookupRound` (lines 422-430). In the
  source, an `invalidate`, `invalidateIf` or `insertOrAssignAndGet` of the key
  can run after the unlock at line 236 and before the lock at line 341. It
  finds the lookup with no round and not valid, so it only clears `valid`
  again; the first round is then scheduled after it and its outcome is
  published. The model has no state between those regions. The nearest order
  it has is the acquire followed by the invalidation. There the first round is
  invalidated, its completion is discarded, and a second round runs. Waiters
  get the same kind of outcome, a round scheduled after the invalidation, but
  the model uses one more lookup round than the source does.

Ghost state states the barrier. Rounds are numbered in the order they are
scheduled. Each lookup records its current round and its epoch. The epoch is
the round counter at the lookup's creation or at its last invalidation,
whichever came later. The preserved invariant `LookupSpec.Inv` says that a
scheduled lookup is valid exactly when its round is at least its epoch, and
exactly when no cancellation was requested for that round.

What the model shows about the comment on `_inProgressLookups` at lines
382-384 ("a single key may only be on this map or in `_cache`, but never in
both"): it does not hold. `insertOrAssignAndGet` on a key whose lookup is in
flight stores the value and leaves the invalidated lookup in the map. The
lemma `LookupSpec.InsertDuringLookupKeepsBoth` and the scenario
`Scenarios.InsertDuringLookup` show this state. A later completion that is not
a cancellation is discarded and retried. If the retried round finds a value,
that value replaces the inserted one. A cancellation-class completion, a
retried round that finds nothing, or a retried round that fails leaves the
inserted value cached. The model therefore does not assume the two maps are disjoint. What it
does prove is that a miss creates a lookup only for a key that is in neither
map.

## Model

| member | source | states |
|---|---|---|
| `LookupSpec.Created` | src/mongo/util/read_through_cache.h:417-417 | A new InProgressLookup is not valid, has no cancel token and no waiter (field initialisers at 461-464). |
| `LookupSpec.AsyncLookupRound` | src/mongo/util/read_through_cache.h:419-433 | Scheduling a round makes the lookup valid and installs a fresh, uncancelled token for that round, leaving its waiters and epoch alone. |
| `LookupSpec.AddWaiter` | src/mongo/util/read_through_cache.h:435-437 | addWaiter adds exactly one subscriber and changes nothing else. |
| `LookupSpec.InvalidateAndCancel` | src/mongo/util/read_through_cache.h:443-447 | Invalidation clears `valid`, requests cancellation of the current token when there is one, and moves the epoch to the next round id. |
| `LookupSpec.InvalidateAndCancelIdempotent` | src/mongo/util/read_through_cache.h:443-447 | Invalidating (and cancelling) twice is the same as once. |
| `LookupSpec.FinalResult` | src/mongo/util/read_through_cache.h:355-363 | Waiters get an error exactly when the round failed, with that status; otherwise a handle that is set exactly when a value was found, holding that value stamped with the current time. |
| `LookupSpec.DoLookupWhileNotValid` | src/mongo/util/read_through_cache.h:340-369 | The loop starts another round exactly when the status is not a cancellation and the lookup is not valid; that keeps the entry and cache and schedules round `rounds`. Otherwise the entry is removed, a found value is cached with `now`, nothing else is cached, and the waiters get `FinalResult`. The invariant is preserved. |
| `LookupSpec.AcquireAsync` | src/mongo/util/read_through_cache.h:214-241 | Hit: returns the cached value and changes nothing. Join: only adds a waiter. Miss: the key was in neither map; exactly one entry is added, with one waiter; exactly one round is scheduled and the entry is valid; nothing else changes. |
| `LookupSpec.FirstLoopEntrySchedules` | src/mongo/util/read_through_cache.h:230-238 | The emplaced lookup is not valid and the loop-entry status is not a cancellation, so the first pass schedules a round and makes the lookup valid. |
| `LookupSpec.InsertOrAssignAndGet` | src/mongo/util/read_through_cache.h:256-261 | Stores (v, t) and returns its handle; invalidates the key's in-progress lookup but keeps it in the map; other keys are untouched. |
| `LookupSpec.Invalidate` | src/mongo/util/read_through_cache.h:273-278 | Removes the key from the cache and invalidates its in-progress lookup; other keys are untouched. |
| `LookupSpec.InvalidateIf` | src/mongo/util/read_through_cache.h:280-288 | Exactly the cached keys satisfying the predicate are removed, and exactly the in-progress keys satisfying it are invalidated; the rest keep their values and state. |
| `LookupSpec.InvalidateAll` | src/mongo/util/read_through_cache.h:290-292 | Empties the cache and invalidates every in-progress lookup. |
| `LookupSpec.InvalidateIsInvalidateIfEqual` | src/mongo/util/read_through_cache.h:273-288 | invalidate(k) has the same effect as invalidateIf with the predicate "equals k". |
| `LookupSpec.FinishedRoundWasValidOrCanceled` | src/mongo/util/read_through_cache.h:344-366 | When the loop finishes, the lookup was valid or the status was a cancellation. Any outcome other than a cancellation error (a value, "not found" or another error) only comes from a valid lookup whose round started at or after its last invalidation. An invalid lookup ends only with the cancellation error, which meets the corrected signalWaiters precondition. |
| `LookupSpec.AsWrittenSignalInvariantFails` | src/mongo/util/read_through_cache.h:449-451 | After acquire, invalidate and a cancellation-class completion, the loop finishes with the lookup not valid, so `invariant(_valid)` fails. |
| `LookupSpec.InsertThenAcquireHits` | src/mongo/util/read_through_cache.h:214-261 | After insertOrAssignAndGet(k, v, t), acquireAsync(k) is a hit on (v, t) and changes nothing. |
| `LookupSpec.InsertDuringLookupKeepsBoth` | src/mongo/util/read_through_cache.h:382-384 | Inserting while a lookup is in flight leaves the key both cached and in the in-progress map, with the lookup invalidated and its cancellation requested. |
| `LookupSpec.FailureIsNotMemoized` | src/mongo/util/read_through_cache.h:204-208 | For a key that was not cached when the loop finished with an error or "not found", the key is in neither map afterwards, and the next acquire schedules a new round. |
| `LookupSpec.Apply` | src/mongo/util/read_through_cache.h:214-369 | One event (acquire, insert, invalidate, invalidateIf, invalidateAll, round completion) preserves the invariant and the fact that every lookup has a round scheduled; only a round completion publishes. |
| `LookupSpec.Run` | src/mongo/util/read_through_cache.h:214-369 | A trace preserves the invariant and the fact that every lookup has a round scheduled. |
| `LookupSpec.ReachableStatesAreConsistent` | src/mongo/util/read_through_cache.h:214-369 | Every state reached from an empty cache satisfies the invariant, and every lookup in it has a round scheduled. |
| `LookupSpec.JoinMany` | src/mongo/util/read_through_cache.h:225-227 | While a lookup for an uncached key is in progress, n acquires add n waiters and change nothing else. |
| `LookupSpec.AcquiresDeduplicate` | src/mongo/util/read_through_cache.h:225-238 | n acquires of a key in neither map schedule exactly one round and leave one valid lookup with n waiters; nothing is published. |
| `LookupSpec.AllWaitersShareOneOutcome` | src/mongo/util/read_through_cache.h:449-451 | n acquires followed by the single round's completion produce exactly one publication, to n waiters, of that round's outcome. |
| `LookupSpec.InvalidationBarrier` | src/mongo/util/read_through_cache.h:263-278 | After any event that invalidates k, every outcome later published for k (a value, "not found" or an error) comes from a round scheduled after that event, never from the round in flight at the time. The only exception is a cancellation-class error. |
| `LookupSpec.PublishedRoundsIncrease` | src/mongo/util/read_through_cache.h:350-366 | From any consistent state, the publications for one key come from strictly increasing rounds, all at or above a bound the state guarantees. A key is published again only from a round scheduled after its previous publication. |
| `LookupSpec.PublishedOncePerRound` | src/mongo/util/read_through_cache.h:449-451 | From an empty cache, in any trace, two publications for the same key come from different rounds, the earlier from the lower round: no lookup round is published twice. |
| `ReadThrough.InProgressLookup.constructor` | src/mongo/util/read_through_cache.h:417-417 | The object starts in the `Created` state with an empty promise slot. |
| `ReadThrough.InProgressLookup.AsyncLookupRound` | src/mongo/util/read_through_cache.h:419-433 | Sets `valid` and the new cancel token, as `LookupSpec.AsyncLookupRound` says. |
| `ReadThrough.InProgressLookup.AddWaiter` | src/mongo/util/read_through_cache.h:435-437 | Returns a future on this object's promise and counts the waiter. |
| `ReadThrough.InProgressLookup.InvalidateAndCancelCurrentLookupRound` | src/mongo/util/read_through_cache.h:443-447 | Clears `valid` and calls tryCancel on the token, as `LookupSpec.InvalidateAndCancel` says. |
| `ReadThrough.InProgressLookup.SignalWaiters` | src/mongo/util/read_through_cache.h:449-452 | Sets the shared promise, and only when it was not yet set. The precondition is the corrected one: valid, or the outcome is an error. |
| `ReadThrough.ReadThroughCache.constructor` | src/mongo/util/read_through_cache.h:320-327 | A new cache has no cached value and no lookup. |
| `ReadThrough.ReadThroughCache.DoLookupWhileNotValid` | src/mongo/util/read_through_cache.h:340-369 | Moves the abstract state as `LookupSpec.DoLookupWhileNotValid`. When it finishes, it has removed the lookup and set that lookup's promise to the returned outcome. |
| `ReadThrough.ReadThroughCache.StartNextRound` | src/mongo/util/read_through_cache.h:344-348 | The retry branch: the completed round's status is discarded. The lookup gets a new round and is valid again, as the spec function's NextRound case says; the map keeps its objects. |
| `ReadThrough.ReadThroughCache.FinishLookup` | src/mongo/util/read_through_cache.h:350-366 | The finishing branch: the lookup leaves the map, a found value is cached, and the lookup's promise holds the outcome, as the spec function's Finished case says. |
| `ReadThrough.ReadThroughCache.JoinLookup` | src/mongo/util/read_through_cache.h:225-227 | The key's lookup gets one more waiter, and the caller gets the future on that object. |
| `ReadThrough.ReadThroughCache.EmplaceLookup` | src/mongo/util/read_through_cache.h:230-234 | Adds a fresh lookup for the key, with one waiter, and returns the future on it. |
| `ReadThrough.ReadThroughCache.AcquireAsync` | src/mongo/util/read_through_cache.h:214-241 | Moves the abstract state as `LookupSpec.AcquireAsync`. A hit returns a ready future. Otherwise it returns the future on the key's lookup: the existing object, or a fresh one. Every other lookup object stays in place. |
| `ReadThrough.ReadThroughCache.InvalidateInProgress` | src/mongo/util/read_through_cache.h:258-259 | Invalidates the key's in-progress lookup, if any, and no other. |
| `ReadThrough.ReadThroughCache.InsertOrAssignAndGet` | src/mongo/util/read_through_cache.h:256-261 | Moves the abstract state and returns the handle as `LookupSpec.InsertOrAssignAndGet`; keeps every lookup object. |
| `ReadThrough.ReadThroughCache.Invalidate` | src/mongo/util/read_through_cache.h:273-278 | Moves the abstract state as `LookupSpec.Invalidate`; keeps every lookup object. |
| `ReadThrough.ReadThroughCache.InvalidateIf` | src/mongo/util/read_through_cache.h:280-288 | Invalidates the matching in-progress lookups, then drops the matching cached keys. The state moves as `LookupSpec.InvalidateIf`; keeps every lookup object. |
| `ReadThrough.ReadThroughCache.InvalidateMatchingInProgress` | src/mongo/util/read_through_cache.h:282-285 | After the loop, every lookup whose key satisfies the predicate is invalidated and cancelled, and every other lookup is unchanged. |
| `ReadThrough.ReadThroughCache.InvalidateAll` | src/mongo/util/read_through_cache.h:290-292 | Moves the abstract state as `LookupSpec.InvalidateAll`. |
| `Scenarios.MissThenHit` | src/mongo/util/read_through_cache.h:214-241 | The waiter of a miss gets the looked-up value; a second acquire is a ready hit with nothing in flight; exactly one lookup round was scheduled in all. |
| `Scenarios.InvalidateDuringFlight` | src/mongo/util/read_through_cache.h:344-347 | A round invalidated in flight is retried; the waiter gets, and the cache holds, the retried round's value. |
| `Scenarios.InsertBypass` | src/mongo/util/read_through_cache.h:256-261 | An inserted value is returned and then acquired as a ready hit; no lookup round is ever scheduled. |
| `Scenarios.InsertDuringLookup` | src/mongo/util/read_through_cache.h:256-261 | Inserting during a lookup leaves the key in both maps; the lookup's next completion is retried and its value reaches the waiter. |
| `Scenarios.ErrorThenRetry` | src/mongo/util/read_through_cache.h:204-208 | A failed lookup fails its waiter, caches nothing, and the next acquire starts a new, unresolved lookup. |
| `Scenarios.NotFoundIsNotCached` | src/mongo/util/read_through_cache.h:204-208 | "Not found" resolves to an empty handle and the next acquire looks the key up again. |
| `Scenarios.JoinersShareOneOutcome` | src/mongo/util/read_through_cache.h:226-227 | Waiters that joined before and after an invalidation all get the same outcome: the post-invalidation round's value. |
| `Scenarios.CancelationAfterInvalidate` | src/mongo/util/read_through_cache.h:344-366 | A cancellation-class completion after an invalidation fails the waiter with that error and leaves the key in neither map. |
| `Scenarios.SelectiveInvalidation` | src/mongo/util/read_through_cache.h:280-292 | invalidateIf removes only the selected key; invalidateAll empties the cache. |
| `Scenarios.PublishedOnce` | src/mongo/util/read_through_cache.h:449-451 | A published outcome never changes afterwards, even when the key is invalidated and looked up again. |

## Left out

- `CancelToken` and `_asyncWork` (lines 56-79): their bodies are not part of this model. Scheduling is the round counter plus a fresh token. `tryCancel` only sets the token's `cancelRequested` flag. Whether cancellation wins the race shows up only in the status the caller passes to `DoLookupWhileNotValid`.
- The thread pool, clients and operation contexts: I/O and execution environment, outside the state machine.
- `_mutex`, `_cancelTokenMutex` and their lock levels (lines 90-97): each locked region is one atomic method. Real interleaving, lock ordering and deadlock freedom are not modelled.
- The future/promise machinery (`SharedSemiFuture`, `onCompletion`, `getAsync`): it is replaced by a waiter count and one result slot per lookup. Continuations are not modelled.
- `acquire(opCtx, key)` (lines 249-251): it only blocks on the future from `acquireAsync`.
- `InvalidatingLRUCache` internals: they are not part of this model. The eviction cache is a plain map. There is no size bound and no eviction. Handle validity (`isValid`) is not tracked. `getCacheInfo` is not modelled.
- `_lookupFn`, `_now()` and `ErrorCodes::isCancelationError`: they are external. The lookup result is the status argument, the time is the `now` argument, and the classification is the `isCancelation` flag of `Status`.
- `ReadThrough.ReadThroughCache.AcquireAsync`: passes `MinTime` as `now` to the first loop entry. That pass always schedules a round (`LookupSpec.FirstLoopEntrySchedules`), so the time is never read.
- The placeholder statuses 461541 (the initial value of `swValueHandle`) and 461542 (the loop's ready return value): nothing observes them. The loop-entry status 461540 is kept as `LoopEntryStatus`.
- The pinned `ValueHandle` constructors (lines 124-128): they serve one special caller and never go through the cache.
- The destructor's `invariant(_inProgressLookups.empty())` (line 330): object lifetime is not modelled.
- The gap between `acquireAsync`'s unlock at line 236 and the loop's lock at line 341: the model has no state there. An invalidation that the source runs in that gap is modelled as coming after the first round was scheduled. The outcome is of the same kind, but the model schedules one extra round.
- The order in which `invalidateIf` visits the in-progress map: the loop picks keys in any order. Entries are independent, so the result does not depend on the order.

## Findings

| source | as written | input that shows it | evidently intended | confidence | as-written member | corrected member |
|---|---|---|---|---|---|---|
| src/mongo/util/read_through_cache.h:344-366, 449-451 | The loop finishes on any cancellation-class status, whatever `_valid` is. `signalWaiters` then asserts `invariant(_valid)`. | `acquireAsync(k)`; `invalidate(k)` while the round runs; the round completes with a cancellation-class error. `_valid` is then false when `signalWaiters` runs. | A cancellation ends the loop with that error. The invariant should only forbid publishing a value out of an invalidated round: `_valid` or the outcome is an error. | medium: it depends on which statuses the external classification calls cancellations; not executed | `LookupSpec.AsWrittenSignalInvariantFails` | `LookupSpec.FinishedRoundWasValidOrCanceled` |
