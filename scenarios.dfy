/**
 * Client code of ReadThroughCache: each method drives a fresh cache through
 * one scenario and states, from the methods' contracts alone, what its
 * callers observe. The "round completed" steps are the completions the
 * thread pool would deliver.
 */
module Scenarios {
  import opened CacheTypes
  import opened ReadThrough

  /**
   * Miss then hit: the first acquire of "A" schedules one round; once it
   * completes with "v1" the waiter gets "v1", and a second acquire is a
   * ready hit that schedules nothing: one lookup round in all.
   */
  method MissThenHit() returns (first: Option<WaiterResult<string>>, second: Future<string, string>, inFlight: bool,
                                 ghost scheduled: nat)
    ensures first == Some(Resolved(Handle(StoredValue("v1", 1))))
    ensures second == ReadyFuture(Resolved(Handle(StoredValue("v1", 1))))
    ensures !inFlight
    ensures scheduled == 1
  {
    var c := new ReadThroughCache<string, string>();
    var f := c.AcquireAsync("A");
    var step := c.DoLookupWhileNotValid("A", LookupOk(Some("v1")), 1);
    first := f.Peek();
    second := c.AcquireAsync("A");
    inFlight := "A" in c.inProgressLookups;
    scheduled := c.rounds;
  }

  /**
   * Invalidate during flight: "B" is invalidated while its first round runs;
   * that round's "stale" result is discarded and a new round is scheduled,
   * whose "fresh" result is what the waiter gets and what is cached.
   */
  method InvalidateDuringFlight() returns (retried: LoopStep<string>, seen: Option<WaiterResult<string>>, cached: bool)
    ensures retried == NextRound
    ensures seen == Some(Resolved(Handle(StoredValue("fresh", 2))))
    ensures cached
  {
    var c := new ReadThroughCache<string, string>();
    var f := c.AcquireAsync("B");
    c.Invalidate("B");
    retried := c.DoLookupWhileNotValid("B", LookupOk(Some("stale")), 1);
    var step := c.DoLookupWhileNotValid("B", LookupOk(Some("fresh")), 2);
    seen := f.Peek();
    cached := "B" in c.cache && c.cache["B"] == StoredValue("fresh", 2);
  }

  /** Insert bypass: a value inserted for "C" is then acquired without any lookup round. */
  method InsertBypass() returns (handle: ValueHandle<string>, acquired: Future<string, string>, inFlight: bool,
                                  ghost scheduled: nat)
    ensures handle == Handle(StoredValue("v2", 0))
    ensures acquired == ReadyFuture(Resolved(Handle(StoredValue("v2", 0))))
    ensures !inFlight
    ensures scheduled == 0
  {
    var c := new ReadThroughCache<string, string>();
    handle := c.InsertOrAssignAndGet("C", "v2", 0);
    acquired := c.AcquireAsync("C");
    inFlight := "C" in c.inProgressLookups;
    scheduled := c.rounds;
  }

  /**
   * Insert while a lookup is in flight: the key ends up both cached and in
   * the in-progress map; the lookup's next completion is discarded and
   * retried, and the retried round's value then replaces the inserted one.
   */
  method InsertDuringLookup() returns (both: bool, retried: LoopStep<string>, seen: Option<WaiterResult<string>>)
    ensures both
    ensures retried == NextRound
    ensures seen == Some(Resolved(Handle(StoredValue("looked-up", 3))))
  {
    var c := new ReadThroughCache<string, string>();
    var f := c.AcquireAsync("C");
    var handle := c.InsertOrAssignAndGet("C", "inserted", 1);
    both := "C" in c.cache && "C" in c.inProgressLookups;
    retried := c.DoLookupWhileNotValid("C", LookupOk(Some("old")), 2);
    var step := c.DoLookupWhileNotValid("C", LookupOk(Some("looked-up")), 3);
    seen := f.Peek();
  }

  /**
   * Error then retry: a failing lookup for "D" fails its waiter, caches
   * nothing, and the next acquire starts a new lookup instead of replaying
   * the failure.
   */
  method ErrorThenRetry() returns (seen: Option<WaiterResult<string>>, cached: bool, second: Future<string, string>, pending: Option<WaiterResult<string>>)
    ensures seen == Some(Errored(Status(2, false)))
    ensures !cached
    ensures second.SharedFuture? && pending == None
  {
    var c := new ReadThroughCache<string, string>();
    var f := c.AcquireAsync("D");
    var step := c.DoLookupWhileNotValid("D", LookupFailed(Status(2, false)), 1);
    seen := f.Peek();
    cached := "D" in c.cache;
    second := c.AcquireAsync("D");
    pending := second.Peek();
  }

  /** Not found: the waiter gets an empty handle and a later acquire looks the key up again. */
  method NotFoundIsNotCached() returns (seen: Option<WaiterResult<string>>, second: Future<string, string>)
    ensures seen == Some(Resolved(EmptyHandle))
    ensures second.SharedFuture?
  {
    var c := new ReadThroughCache<string, string>();
    var f := c.AcquireAsync("N");
    var step := c.DoLookupWhileNotValid("N", LookupOk(None), 1);
    seen := f.Peek();
    second := c.AcquireAsync("N");
  }

  /**
   * Joiners share one outcome: two callers join before an invalidation of
   * "E" and one after; all three hold the same lookup and all get the value
   * of the round scheduled after the invalidation.
   */
  method JoinersShareOneOutcome() returns (r1: Option<WaiterResult<string>>, r2: Option<WaiterResult<string>>, r3: Option<WaiterResult<string>>)
    ensures r1 == r2 == r3 == Some(Resolved(Handle(StoredValue("fresh", 2))))
  {
    var c := new ReadThroughCache<string, string>();
    var f1 := c.AcquireAsync("E");
    var f2 := c.AcquireAsync("E");
    c.Invalidate("E");
    var f3 := c.AcquireAsync("E");
    var s1 := c.DoLookupWhileNotValid("E", LookupOk(Some("stale")), 1);
    var s2 := c.DoLookupWhileNotValid("E", LookupOk(Some("fresh")), 2);
    r1, r2, r3 := f1.Peek(), f2.Peek(), f3.Peek();
  }

  /**
   * A cancellation-class completion after an invalidation ends the loop: the
   * waiter gets that error and nothing is cached (this is the path on which
   * the source's invariant(_valid) does not hold).
   */
  method CancelationAfterInvalidate() returns (seen: Option<WaiterResult<string>>, cached: bool, inFlight: bool)
    ensures seen == Some(Errored(Status(3, true)))
    ensures !cached && !inFlight
  {
    var c := new ReadThroughCache<string, string>();
    var f := c.AcquireAsync("F");
    c.Invalidate("F");
    var step := c.DoLookupWhileNotValid("F", LookupFailed(Status(3, true)), 1);
    seen := f.Peek();
    cached := "F" in c.cache;
    inFlight := "F" in c.inProgressLookups;
  }

  /** invalidateIf affects exactly the keys it selects; invalidateAll empties the cache. */
  method SelectiveInvalidation() returns (keptX: bool, droppedY: bool, empty: bool)
    ensures keptX && droppedY && empty
  {
    var c := new ReadThroughCache<string, string>();
    var hx := c.InsertOrAssignAndGet("X", "x", 0);
    var hy := c.InsertOrAssignAndGet("Y", "y", 0);
    c.InvalidateIf((k: string) => k == "Y");
    keptX := "X" in c.cache;
    droppedY := "Y" !in c.cache;
    c.InvalidateAll();
    empty := c.cache == map[];
  }

  /**
   * A published result never changes: after "G" is published, invalidated
   * and looked up again with another value, the first waiter still holds the
   * first value and the second waiter the second.
   */
  method PublishedOnce() returns (first: Option<WaiterResult<string>>, second: Option<WaiterResult<string>>)
    ensures first == Some(Resolved(Handle(StoredValue("g1", 1))))
    ensures second == Some(Resolved(Handle(StoredValue("g2", 2))))
  {
    var c := new ReadThroughCache<string, string>();
    var f1 := AcquireAndResolve(c, "G", "g1", 1);
    c.Invalidate("G");
    var f2 := AcquireAndResolve(c, "G", "g2", 2);
    first, second := f1.Peek(), f2.Peek();
  }

  /**
   * Acquire a key that is neither cached nor being looked up, and complete
   * its single round with value `v` at time `now`.
   */
  method AcquireAndResolve(c: ReadThroughCache<string, string>, key: string, v: string, now: Time)
    returns (f: Future<string, string>)
    requires c.Invariant() && key !in c.cache && key !in c.inProgressLookups
    modifies c, c.inProgressLookups.Values
    ensures c.Invariant()
    ensures f.SharedFuture? && fresh(f.lookup)
    ensures f.Peek() == Some(Resolved(Handle(StoredValue(v, now))))
    ensures c.cache == old(c.cache)[key := StoredValue(v, now)]
    ensures c.inProgressLookups == old(c.inProgressLookups)
  {
    f := c.AcquireAsync(key);
    var step := c.DoLookupWhileNotValid(key, LookupOk(Some(v)), now);
  }
}
