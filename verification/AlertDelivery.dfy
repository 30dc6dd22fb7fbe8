/** Sizing of the delivery queues, the backoff between delivery attempts, and the attempt loop itself. */
module AlertDelivery {
  import opened Doubling

  const DEFAULT_DELIVERY_QUEUE_CAPACITY := 64
  const DEFAULT_DELIVERY_WORKER_COUNT := 2

  function Sum(xs: seq<nat>): nat {
    if xs == [] then 0 else Sum(xs[..|xs| - 1]) + xs[|xs| - 1]
  }

  lemma SumSnoc(xs: seq<nat>, x: nat)
    ensures Sum(xs + [x]) == Sum(xs) + x
  {
    assert (xs + [x])[..|xs|] == xs;
  }

  /** The quotient and remainder, as the product they come from. */
  function Share(total: nat, workers: nat): (r: (nat, nat))
    requires 0 < workers <= total
    ensures Times(r.0, workers) + r.1 == total && r.1 < workers && r.0 >= 1
  {
    (total / workers, total % workers)
  }

  /** The configured total is spread over the workers as evenly as possible, and every worker gets a place. */
  method NewDeliveryQueues(configuredCapacity: int, configuredWorkers: int) returns (capacities: seq<nat>)
    ensures |capacities| == (if configuredWorkers > 0 then configuredWorkers else DEFAULT_DELIVERY_WORKER_COUNT)
    ensures var total := if configuredCapacity > 0 then configuredCapacity else DEFAULT_DELIVERY_QUEUE_CAPACITY;
            Sum(capacities) == if total < |capacities| then |capacities| else total
    ensures forall i :: 0 <= i < |capacities| ==> capacities[i] >= 1
    ensures forall i, j :: 0 <= i < j < |capacities| ==> capacities[j] <= capacities[i] <= capacities[j] + 1
  {
    hide Times, Share;
    var total: nat := if configuredCapacity > 0 then configuredCapacity else DEFAULT_DELIVERY_QUEUE_CAPACITY;
    var workers: nat := if configuredWorkers > 0 then configuredWorkers else DEFAULT_DELIVERY_WORKER_COUNT;
    if total < workers {
      total := workers;
    }
    var (base, remainder) := Share(total, workers);
    capacities := [];
    TimesNext(base, 0);
    for index := 0 to workers
      invariant |capacities| == index
      invariant Sum(capacities) == Times(base, index) + if index < remainder then index else remainder
      invariant forall i :: 0 <= i < index ==> capacities[i] == if i < remainder then base + 1 else base
    {
      var capacity := base;
      if index < remainder {
        capacity := capacity + 1;
      }
      SumSnoc(capacities, capacity);
      TimesNext(base, index);
      capacities := capacities + [capacity];
    }
  }

  // ---------- Backoff ----------

  /** Doubling k times, capped; a delay one nanosecond short of the maximum is rounded up to it. */
  function Backoff(initial: int, maximum: int, k: nat): int {
    if k >= 1 && Times(initial, Pow2(k)) == maximum - 1 then maximum else Min(maximum, Times(initial, Pow2(k)))
  }

  /**
   * The delay is the initial one doubled for every attempt after the first, at least what the receiver asked
   * for, and at most the maximum, except exactly where the doubled delay is one short of the maximum.
   */
  method RetryDelay(initial: int, maximum: int, attempt: int, retryAfter: int) returns (delay: int)
    requires initial > 0 && maximum > 0
    ensures var k: nat := if attempt <= 1 then 0 else attempt - 1;
            && delay == Min(maximum, Max(retryAfter, Backoff(initial, maximum, k)))
            && (delay == Min(maximum, Max(retryAfter, Times(initial, Pow2(k)))) <==>
                  !(k >= 1 && Times(initial, Pow2(k)) == maximum - 1 && retryAfter < maximum))
    ensures delay <= maximum
  {
    hide Times;
    delay := initial;
    TimesOne(initial);
    ghost var k: nat := if attempt <= 1 then 0 else attempt - 1;
    var i := 0;
    while i < attempt - 1
      invariant 0 <= i <= k && delay == Times(initial, Pow2(i))
      invariant i >= 1 ==> delay < maximum - 1
    {
      if delay >= maximum / 2 {
        DoublesPast(initial, maximum, i, k);
        delay := maximum;
        break;
      }
      TimesDouble(initial, i);
      delay := delay * 2;
      i := i + 1;
    }
    if retryAfter > delay {
      delay := retryAfter;
    }
    if delay > maximum {
      return maximum;
    }
  }

  /** Once doubling would reach the last value below the maximum, the capped delay is the maximum. */
  lemma DoublesPast(initial: int, maximum: int, i: nat, k: nat)
    requires initial > 0 && maximum > 0 && i < k && Times(initial, Pow2(i)) >= maximum / 2
    ensures Backoff(initial, maximum, k) == maximum
  {
    assert Times(initial, Pow2(i + 1)) == 2 * Times(initial, Pow2(i)) by { TimesDouble(initial, i); }
    hide Times;
    DoublingGrows(initial, i + 1, k);
  }

  // ---------- Attempts ----------

  datatype Attempt = Attempt(success: bool, retryable: bool, retryAfter: int)

  /**
   * What the attempts meet, by the number of attempts made before: the action as resolved, the outcome,
   * cancellation, and the wait afterwards.
   */
  datatype World = World(
    resolves: nat -> bool, current: nat -> bool, send: nat -> Attempt, canceled: nat -> bool, waits: nat -> bool)

  datatype Outcome = Delivered | FailureRecorded(attempts: nat) | Unresolved | Outdated | Canceled

  /** The sends are the answers to the attempts, each made on a resolved, unchanged action. */
  ghost predicate AsSent(w: World, sends: seq<Attempt>) {
    forall i :: 0 <= i < |sends| ==> sends[i] == w.send(i) && w.resolves(i) && w.current(i)
  }

  /** The first n sends failed in a way worth retrying, and the work was not canceled. */
  ghost predicate Retried(w: World, sends: seq<Attempt>, n: int) {
    forall i :: 0 <= i < n && i < |sends| ==> !sends[i].success && sends[i].retryable && !w.canceled(i) && w.waits(i)
  }

  /**
   * One notification: sent until it succeeds, fails for good or runs out of attempts, and a failure is
   * recorded exactly when the last attempt failed for good or was the last one allowed.
   */
  method Deliver(w: World, maxAttempts: nat) returns (sends: seq<Attempt>, outcome: Outcome)
    requires maxAttempts > 0
    ensures |sends| <= maxAttempts && AsSent(w, sends) && Retried(w, sends, |sends| - 1)
    ensures outcome.Delivered? <==> sends != [] && sends[|sends| - 1].success
    ensures outcome.FailureRecorded? <==>
              sends != [] && !sends[|sends| - 1].success && !w.canceled(|sends| - 1) &&
              (!sends[|sends| - 1].retryable || |sends| == maxAttempts)
    ensures outcome.FailureRecorded? ==> outcome.attempts == |sends|
    ensures outcome.Canceled? <==>
              sends != [] && !sends[|sends| - 1].success &&
              (w.canceled(|sends| - 1) || (sends[|sends| - 1].retryable && |sends| < maxAttempts && !w.waits(|sends| - 1)))
    ensures outcome.Unresolved? <==> |sends| < maxAttempts && Retried(w, sends, |sends|) && !w.resolves(|sends|)
    ensures outcome.Outdated? <==>
              |sends| < maxAttempts && Retried(w, sends, |sends|) && w.resolves(|sends|) && !w.current(|sends|)
  {
    sends := [];
    var attempt := 1;
    while attempt <= maxAttempts
      invariant 1 <= attempt <= maxAttempts && |sends| == attempt - 1
      invariant AsSent(w, sends) && Retried(w, sends, |sends|)
    {
      if !w.resolves(attempt - 1) {
        return sends, Unresolved;
      }
      if !w.current(attempt - 1) {
        return sends, Outdated;
      }
      var result := w.send(attempt - 1);
      sends := sends + [result];
      if result.success {
        return sends, Delivered;
      }
      if !result.retryable || attempt == maxAttempts || w.canceled(attempt - 1) {
        return sends, if w.canceled(attempt - 1) then Canceled else FailureRecorded(attempt);
      }
      if !w.waits(attempt - 1) {
        return sends, Canceled;
      }
      attempt := attempt + 1;
    }
    assert false;
  }
}
