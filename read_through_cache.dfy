/**
 * ReadThroughCache and its InProgressLookup as classes. Each public method is
 * one region that runs under the cache's mutex; its postcondition ties the
 * new abstract state (`Abs()`) to the LookupSpec function for that region and
 * says which lookup objects the caller's futures still refer to.
 */
module ReadThrough {
  import opened CacheTypes
  import LookupSpec

  /**
   * The coordinator of one in-flight key. `sharedPromise` is the one result
   * slot every future handed out by `AddWaiter` reads.
   */
  class InProgressLookup<K, V> {
    const key: K
    var valid: bool
    var cancelToken: Option<CancelToken>
    var waiters: nat
    var sharedPromise: Option<WaiterResult<V>>
    ghost var round: nat
    ghost var epoch: nat

    ghost function View(): LookupState
      reads this
    {
      LookupState(valid, cancelToken, waiters, round, epoch)
    }

    constructor (key: K, ghost epoch: nat)
      ensures this.key == key
      ensures View() == LookupSpec.Created(epoch)
      ensures sharedPromise == None
    {
      this.key := key;
      valid := false;
      cancelToken := None;
      waiters := 0;
      sharedPromise := None;
      round := 0;
      this.epoch := epoch;
    }

    /** Schedule round `round` of the lookup; the lookup is valid from now on. */
    method AsyncLookupRound(ghost round: nat)
      modifies this
      ensures View() == LookupSpec.AsyncLookupRound(old(View()), round)
      ensures sharedPromise == old(sharedPromise)
    {
      valid := true;
      cancelToken := Some(CancelToken(false));
      this.round := round;
    }

    /** Hand out one more future on the shared promise. */
    method AddWaiter() returns (future: Future<K, V>)
      modifies this
      ensures future == SharedFuture(this)
      ensures View() == LookupSpec.AddWaiter(old(View()))
      ensures sharedPromise == old(sharedPromise)
    {
      waiters := waiters + 1;
      future := SharedFuture(this);
    }

    /** The current round's result becomes unusable and its cancellation is requested. */
    method InvalidateAndCancelCurrentLookupRound(ghost rounds: nat)
      modifies this
      ensures View() == LookupSpec.InvalidateAndCancel(old(View()), rounds)
      ensures sharedPromise == old(sharedPromise)
    {
      valid := false;
      if cancelToken.Some? {
        cancelToken := Some(cancelToken.value.TryCancel());
      }
      epoch := rounds;
    }

    /**
     * Set the shared promise, which only happens once. The precondition is the
     * corrected one: the source asks for `valid` alone.
     */
    method SignalWaiters(result: WaiterResult<V>)
      requires sharedPromise == None
      requires LookupSpec.SignalWaitersAllowed(View(), result)
      modifies this
      ensures sharedPromise == Some(result)
      ensures View() == old(View())
    {
      sharedPromise := Some(result);
    }
  }

  /**
   * SharedSemiFuture<ValueHandle>: either ready at once (a cache hit) or a
   * subscription to an in-progress lookup's shared promise.
   */
  datatype Future<K, V> = ReadyFuture(result: WaiterResult<V>) | SharedFuture(lookup: InProgressLookup<K, V>) {
    /** The result this future resolves to, if it has been set. */
    function Peek(): Option<WaiterResult<V>>
      reads if SharedFuture? then {lookup} else {}
    {
      if ReadyFuture? then Some(result) else lookup.sharedPromise
    }
  }

  class ReadThroughCache<K(==), V> {
    var cache: map<K, StoredValue<V>>
    var inProgressLookups: map<K, InProgressLookup<K, V>>
    ghost var rounds: nat

    ghost function Abs(): LookupSpec.State<K, V>
      reads this, inProgressLookups.Values
    {
      LookupSpec.State(cache, map k | k in inProgressLookups :: inProgressLookups[k].View(), rounds)
    }

    /**
     * Each lookup in the map is the one for its key and has not signalled its
     * waiters yet, and the abstract state satisfies the state machine's
     * invariant.
     */
    ghost predicate Invariant()
      reads this, inProgressLookups.Values
    {
      && (forall k :: k in inProgressLookups ==>
            inProgressLookups[k].key == k && inProgressLookups[k].sharedPromise == None)
      && LookupSpec.Inv(Abs())
      && LookupSpec.RoundsInFlight(Abs())
    }

    constructor ()
      ensures Invariant()
      ensures Abs() == LookupSpec.Empty()
      ensures cache == map[] && inProgressLookups == map[]
    {
      cache := map[];
      inProgressLookups := map[];
      rounds := 0;
    }

    /**
     * One pass of the "while not valid" loop for `key`, entered with the status
     * of the round that just completed (or the loop-entry status).
     */
    method DoLookupWhileNotValid(key: K, sw: RoundStatus<V>, now: Time) returns (step: LoopStep<V>)
      requires Invariant() || (LookupSpec.Inv(Abs()) && InvariantExceptCreated(key))
      requires key in inProgressLookups
      modifies this, inProgressLookups.Values
      ensures (Abs(), step) == LookupSpec.DoLookupWhileNotValid(old(Abs()), key, sw, now)
      ensures step.NextRound? ==> inProgressLookups == old(inProgressLookups)
      ensures step.Finished? ==>
        && inProgressLookups == old(inProgressLookups) - {key}
        && old(inProgressLookups[key]).sharedPromise == Some(step.result)
      ensures Invariant()
    {
      if !sw.IsCancelationError() && !inProgressLookups[key].valid {
        StartNextRound(key, sw, now);
        step := NextRound;
      } else {
        var result := FinishLookup(key, sw, now);
        step := Finished(result);
      }
    }

    /** The retry branch: `sw` is discarded and the next round of the key's lookup is scheduled. */
    method StartNextRound(key: K, ghost sw: RoundStatus<V>, ghost now: Time)
      requires Invariant() || (LookupSpec.Inv(Abs()) && InvariantExceptCreated(key))
      requires key in inProgressLookups && !sw.IsCancelationError() && !inProgressLookups[key].valid
      modifies this, inProgressLookups[key]
      ensures (Abs(), NextRound) == LookupSpec.DoLookupWhileNotValid(old(Abs()), key, sw, now)
      ensures inProgressLookups == old(inProgressLookups)
      ensures Invariant()
    {
      var lookup := inProgressLookups[key];
      assert forall k :: k in inProgressLookups && k != key ==> inProgressLookups[k] != lookup;
      lookup.AsyncLookupRound(rounds);
      rounds := rounds + 1;
      assert Abs().inProgress == old(Abs()).inProgress[key := LookupSpec.AsyncLookupRound(old(lookup.View()), old(rounds))];
    }

    /**
     * The finishing branch: detach the key's lookup, cache a found value
     * stamped with `now`, and signal the waiters with the outcome.
     */
    method FinishLookup(key: K, sw: RoundStatus<V>, now: Time) returns (result: WaiterResult<V>)
      requires Invariant() || (LookupSpec.Inv(Abs()) && InvariantExceptCreated(key))
      requires key in inProgressLookups && (sw.IsCancelationError() || inProgressLookups[key].valid)
      modifies this, inProgressLookups[key]
      ensures (Abs(), Finished(result)) == LookupSpec.DoLookupWhileNotValid(old(Abs()), key, sw, now)
      ensures inProgressLookups == old(inProgressLookups) - {key}
      ensures old(inProgressLookups[key]).sharedPromise == Some(result)
      ensures Invariant()
    {
      var lookup := inProgressLookups[key];
      ghost var before := Abs();
      inProgressLookups := inProgressLookups - {key};
      match sw {
        case LookupOk(Some(v)) =>
          cache := cache[key := StoredValue(v, now)];
          result := Resolved(Handle(StoredValue(v, now)));
        case LookupOk(None) =>
          result := Resolved(EmptyHandle);
        case LookupFailed(status) =>
          result := Errored(status);
      }
      LookupSpec.FinishedRoundWasValidOrCanceled(before, key, sw, now);
      lookup.SignalWaiters(result);
      assert Abs().inProgress == before.inProgress - {key};
    }

    /**
     * Invariant(), except that the lookup for `key` may have been created and
     * given its first waiter but not yet been scheduled: the state between the
     * two halves of acquireAsync's miss path.
     */
    ghost predicate InvariantExceptCreated(key: K)
      reads this, inProgressLookups.Values
    {
      && (forall k :: k in inProgressLookups ==>
            inProgressLookups[k].key == k && inProgressLookups[k].sharedPromise == None)
      && (forall k :: k in inProgressLookups && k != key ==> inProgressLookups[k].cancelToken.Some?)
      && key in inProgressLookups && !inProgressLookups[key].valid
    }

    /**
     * acquireAsync: a hit returns a ready future; otherwise the caller gets a
     * future on the key's in-progress lookup, created (and its first round
     * scheduled) if there was none.
     */
    method AcquireAsync(key: K) returns (future: Future<K, V>)
      requires Invariant()
      modifies this, inProgressLookups.Values
      ensures Invariant()
      ensures Abs() == LookupSpec.AcquireAsync(old(Abs()), key).0
      ensures key in old(cache) ==> future == ReadyFuture(Resolved(Handle(old(cache)[key])))
      ensures key !in old(cache) ==> key in inProgressLookups && future == SharedFuture(inProgressLookups[key])
      ensures key !in old(cache) && key !in old(inProgressLookups) ==> fresh(inProgressLookups[key])
      ensures inProgressLookups.Keys == old(inProgressLookups.Keys) + (if key in old(cache) then {} else {key})
      ensures forall k :: k in old(inProgressLookups) ==> inProgressLookups[k] == old(inProgressLookups[k])
      ensures fresh(inProgressLookups.Values - old(inProgressLookups.Values))
    {
      if key in cache {
        return ReadyFuture(Resolved(Handle(cache[key])));
      }
      if key in inProgressLookups {
        future := JoinLookup(key);
        return;
      }
      future := EmplaceLookup(key);
      ghost var emplaced := Abs();
      LookupSpec.FirstLoopEntrySchedules(old(Abs()), key, MinTime);
      var step := DoLookupWhileNotValid(key, LookupFailed(LoopEntryStatus), MinTime);
      assert emplaced == old(Abs()).(inProgress := old(Abs()).inProgress[key := LookupSpec.AddWaiter(LookupSpec.Created(old(rounds)))]);
    }

    /** The locked part of acquireAsync's join path: one more waiter on the key's lookup. */
    method JoinLookup(key: K) returns (future: Future<K, V>)
      requires Invariant() && key in inProgressLookups
      modifies inProgressLookups[key]
      ensures Invariant()
      ensures Abs() == old(Abs()).(inProgress := old(Abs()).inProgress[key := LookupSpec.AddWaiter(old(Abs()).inProgress[key])])
      ensures future == SharedFuture(inProgressLookups[key])
    {
      var lookup := inProgressLookups[key];
      assert forall k :: k in inProgressLookups && k != key ==> inProgressLookups[k] != lookup;
      future := lookup.AddWaiter();
      ghost var target := old(Abs()).(inProgress := old(Abs()).inProgress[key := LookupSpec.AddWaiter(old(Abs()).inProgress[key])]);
      forall k | k in inProgressLookups
        ensures inProgressLookups[k].View() == target.inProgress[k]
      {
      }
      assert Abs() == target;
    }

    /**
     * The part of invalidate and insertOrAssignAndGet that touches the
     * in-progress map: invalidate and cancel the key's current round, if any.
     */
    method InvalidateInProgress(key: K)
      requires Invariant()
      modifies inProgressLookups.Values
      ensures Invariant()
      ensures Abs().inProgress == LookupSpec.Invalidate(old(Abs()), key).inProgress
    {
      if key in inProgressLookups {
        var lookup := inProgressLookups[key];
        assert forall k :: k in inProgressLookups && k != key ==> inProgressLookups[k] != lookup;
        lookup.InvalidateAndCancelCurrentLookupRound(rounds);
        forall k | k in inProgressLookups
          ensures inProgressLookups[k].View() == LookupSpec.Invalidate(old(Abs()), key).inProgress[k]
        {
        }
      }
      assert LookupSpec.Inv(LookupSpec.Invalidate(old(Abs()), key));
    }

    /**
     * The locked part of acquireAsync's miss path: emplace a new lookup for
     * `key` and take the first future on it.
     */
    method EmplaceLookup(key: K) returns (future: Future<K, V>)
      requires Invariant() && key !in inProgressLookups
      modifies this
      ensures Abs() == old(Abs()).(inProgress := old(Abs()).inProgress[key := LookupSpec.AddWaiter(LookupSpec.Created(old(rounds)))])
      ensures LookupSpec.Inv(Abs()) && InvariantExceptCreated(key)
      ensures inProgressLookups == old(inProgressLookups)[key := inProgressLookups[key]]
      ensures fresh(inProgressLookups[key]) && future == SharedFuture(inProgressLookups[key])
    {
      var lookup := new InProgressLookup(key, rounds);
      inProgressLookups := inProgressLookups[key := lookup];
      future := lookup.AddWaiter();
      ghost var emplaced := old(Abs()).(inProgress := old(Abs()).inProgress[key := LookupSpec.AddWaiter(LookupSpec.Created(old(rounds)))]);
      forall k | k in inProgressLookups
        ensures inProgressLookups[k].View() == emplaced.inProgress[k]
      {
      }
      assert Abs() == emplaced;
    }

    /** insertOrAssignAndGet: invalidate the key's in-progress round, if any, and store (v, t). */
    method InsertOrAssignAndGet(key: K, v: V, t: Time) returns (handle: ValueHandle<V>)
      requires Invariant()
      modifies this, inProgressLookups.Values
      ensures Invariant()
      ensures (Abs(), handle) == LookupSpec.InsertOrAssignAndGet(old(Abs()), key, v, t)
      ensures inProgressLookups == old(inProgressLookups)
    {
      InvalidateInProgress(key);
      cache := cache[key := StoredValue(v, t)];
      handle := Handle(StoredValue(v, t));
      ghost var target := LookupSpec.InsertOrAssignAndGet(old(Abs()), key, v, t).0;
      assert target.inProgress == LookupSpec.Invalidate(old(Abs()), key).inProgress;
      assert Abs() == target;
    }

    /** invalidate: invalidate the key's in-progress round, if any, and drop the key from the cache. */
    method Invalidate(key: K)
      requires Invariant()
      modifies this, inProgressLookups.Values
      ensures Invariant()
      ensures Abs() == LookupSpec.Invalidate(old(Abs()), key)
      ensures inProgressLookups == old(inProgressLookups)
    {
      InvalidateInProgress(key);
      cache := cache - {key};
    }

    /** invalidateIf: invalidate every in-progress and every cached key satisfying `pred`. */
    method InvalidateIf(pred: K -> bool)
      requires Invariant()
      modifies this, inProgressLookups.Values
      ensures Invariant()
      ensures Abs() == LookupSpec.InvalidateIf(old(Abs()), pred)
      ensures inProgressLookups == old(inProgressLookups)
    {
      InvalidateMatchingInProgress(pred);
      ghost var target := LookupSpec.InvalidateIf(old(Abs()), pred);
      forall k | k in inProgressLookups
        ensures inProgressLookups[k].View() == target.inProgress[k]
      {
      }
      cache := map k | k in cache && !pred(k) :: cache[k];
      assert Abs().inProgress == target.inProgress;
      assert Abs().cache == target.cache;
    }

    /**
     * The loop of invalidateIf over the in-progress map: invalidate and cancel
     * the current round of every lookup whose key satisfies `pred`.
     */
    method InvalidateMatchingInProgress(pred: K -> bool)
      requires Invariant()
      modifies inProgressLookups.Values
      ensures forall k :: k in inProgressLookups ==>
        inProgressLookups[k].key == k && inProgressLookups[k].sharedPromise == None
      ensures forall k :: k in inProgressLookups ==>
        inProgressLookups[k].View() ==
          if pred(k)
          then LookupSpec.InvalidateAndCancel(old(inProgressLookups[k].View()), rounds)
          else old(inProgressLookups[k].View())
    {
      var pending := inProgressLookups.Keys;
      while pending != {}
        invariant pending <= inProgressLookups.Keys
        invariant forall k :: k in inProgressLookups ==>
          inProgressLookups[k].key == k && inProgressLookups[k].sharedPromise == None
        invariant forall k :: k in inProgressLookups ==>
          inProgressLookups[k].View() ==
            if k !in pending && pred(k)
            then LookupSpec.InvalidateAndCancel(old(inProgressLookups[k].View()), rounds)
            else old(inProgressLookups[k].View())
        decreases pending
      {
        var k :| k in pending;
        if pred(k) {
          var lookup := inProgressLookups[k];
          assert forall k' :: k' in inProgressLookups && k' != k ==> inProgressLookups[k'] != lookup;
          lookup.InvalidateAndCancelCurrentLookupRound(rounds);
        }
        pending := pending - {k};
      }
    }

    /** invalidateAll: invalidateIf with a predicate that accepts every key. */
    method InvalidateAll()
      requires Invariant()
      modifies this, inProgressLookups.Values
      ensures Invariant()
      ensures Abs() == LookupSpec.InvalidateAll(old(Abs()))
      ensures inProgressLookups == old(inProgressLookups)
    {
      InvalidateIf((k: K) => true);
    }
  }
}
