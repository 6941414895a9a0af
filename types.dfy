/**
 * Value types shared by the read-through cache model: what the eviction
 * cache stores, what callers get back, what one lookup round produces, and
 * the per-key lookup state as the abstract state machine sees it.
 */
module CacheTypes {

  datatype Option<T> = None | Some(value: T)

  /** Wall-clock time (Date_t). It is only carried as diagnostic metadata. */
  type Time = int

  /** The time a caller passes for `now` on a path that never reads it. */
  const MinTime: Time := 0

  /** StoredValue: a value together with the wall-clock time it was fetched. */
  datatype StoredValue<V> = StoredValue(value: V, updateWallClockTime: Time)

  /**
   * ValueHandle: either set (its operator bool is true) and referring to a
   * stored value, or empty (the "not found in the backing store" answer).
   */
  datatype ValueHandle<V> = EmptyHandle | Handle(stored: StoredValue<V>) {
    predicate IsSet() { Handle? }
  }

  /**
   * A non-OK status. Whether its code belongs to the cancellation category
   * (ErrorCodes::isCancelationError) is decided outside the cache, so it is
   * carried as a flag.
   */
  datatype Status = Status(code: int, isCancelation: bool)

  /**
   * StatusWith<LookupResult>: how one lookup round completed. `found` is None
   * when the lookup function did not find the key in the backing store.
   */
  datatype RoundStatus<V> = LookupOk(found: Option<V>) | LookupFailed(status: Status) {
    predicate IsCancelationError() { LookupFailed? && status.isCancelation }
  }

  /** The non-OK, non-cancellation status the first loop entry is given. */
  const LoopEntryStatus: Status := Status(461540, false)

  /** StatusWith<ValueHandle>: the single outcome every waiter observes. */
  datatype WaiterResult<V> = Resolved(handle: ValueHandle<V>) | Errored(status: Status) {
    predicate IsCancelationError() { Errored? && status.isCancelation }
  }

  /**
   * The handle of one scheduled lookup round. `TryCancel` only records that
   * cancellation was requested; whether it wins the race against the round
   * shows up in the status the round completes with.
   */
  datatype CancelToken = CancelToken(cancelRequested: bool) {
    function TryCancel(): CancelToken { CancelToken(true) }
  }

  /**
   * The state of one in-progress lookup. `valid`, `cancelToken` and
   * `waiters` are the InProgressLookup's own state (the number of futures
   * handed out by addWaiter). `round` numbers the round currently scheduled
   * and `epoch` is the round counter at the lookup's creation or its last
   * invalidation, whichever is later; both exist only to state the
   * invalidation barrier.
   */
  datatype LookupState = LookupState(
    valid: bool,
    cancelToken: Option<CancelToken>,
    waiters: nat,
    round: nat,
    epoch: nat)

  /** What one pass of the "while not valid" loop did. */
  datatype LoopStep<V> = NextRound | Finished(result: WaiterResult<V>)

  /** Which of its three branches acquireAsync took. */
  datatype AcquireKind<V> = Hit(stored: StoredValue<V>) | Joined | Scheduled
}
