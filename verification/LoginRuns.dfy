/** What the login throttle guarantees over every sequence of calls. */
module LoginRuns {
  import opened Doubling
  import opened Lists
  import opened LoginThrottling

  const EMPTY := Throttle(map[], [], [], ZERO_TIME)

  ghost predicate IsRun(cfg: Config, states: seq<Throttle>, calls: seq<Call>) {
    && Enabled(cfg) && |states| == |calls| + 1 && states[0] == EMPTY
    && forall n :: 0 <= n < |calls| ==> Steps(cfg, states[n], calls[n], states[n + 1])
  }

  /** A clock that does not run backwards. */
  ghost predicate InOrder(calls: seq<Call>) {
    forall m, n :: 0 <= m < n < |calls| ==> calls[m].now <= calls[n].now
  }

  // ---------- Accounting ----------

  /** Map and list agree, in-flight counts are the active attempts, and every entry keeps its bounds. */
  ghost predicate Kept(cfg: Config, s: Throttle) {
    Mirrors(s.lru, s.entries) && Counted(s.entries, s.attempts) && AllSound(cfg, s.entries)
  }

  lemma BeginKept(cfg: Config, s: Throttle, keys: seq<string>, now: int, d: Decision, t: Throttle)
    requires Enabled(cfg) && Kept(cfg, s) && Steps(cfg, s, Begin(keys, now, d), t)
    ensures Kept(cfg, t)
  {
    hide Mirrors, Counted, AllSound, Purge, ReservedAll, SeenAll, NoneRefuses, Fits;
    PurgingCounts(cfg, Table(s.entries, s.lru), s.attempts, now);
    var p := Purge(cfg, Table(s.entries, s.lru), now).entries;
    if d.allowed {
      ReservingCounts(cfg, p, t.entries, s.attempts, keys, now);
    } else {
      RefusingCounts(cfg, p, t.entries, s.attempts, keys, now);
    }
  }

  lemma StepKept(cfg: Config, s: Throttle, call: Call, t: Throttle)
    requires Enabled(cfg) && Kept(cfg, s) && Steps(cfg, s, call, t)
    ensures Kept(cfg, t)
  {
    hide Mirrors, Counted, AllSound, FailedAll, FinishedAll, Turns, Purge;
    match call
    case Begin(keys, now, d) => BeginKept(cfg, s, keys, now, d, t);
    case Fail(id, now, _) =>
      if Active(s.attempts, id) {
        FailingCounts(cfg, s.entries, t.entries, s.attempts, id, now);
      }
    case Finish(id, success, now) =>
      if Active(s.attempts, id) {
        FinishingCounts(cfg, s.entries, t.entries, s.attempts, id, success, now);
      }
  }

  /** In every run the accounting is exact after every call. */
  lemma {:induction false} RunKept(cfg: Config, states: seq<Throttle>, calls: seq<Call>, n: nat)
    requires IsRun(cfg, states, calls) && n < |states|
    ensures Kept(cfg, states[n])
  {
    hide Kept, Steps;
    if n == 0 {
      NothingKept(cfg);
    } else {
      RunKept(cfg, states, calls, n - 1);
      StepKept(cfg, states[n - 1], calls[n - 1], states[n]);
    }
  }

  lemma NothingKept(cfg: Config)
    ensures Kept(cfg, EMPTY)
  {
  }

  /** An attempt is finished at most once: it never becomes active again, and no call on it has any effect. */
  lemma {:induction false} FinishedStaysFinished(cfg: Config, states: seq<Throttle>, calls: seq<Call>, i: nat, n: nat, id: nat)
    requires IsRun(cfg, states, calls) && i <= n < |states| && id < |states[i].attempts| && !states[i].attempts[id].active
    ensures id < |states[n].attempts| && !states[n].attempts[id].active
    ensures n < |calls| && !calls[n].Begin? && calls[n].id == id ==> states[n + 1] == states[n]
    decreases n
  {
    hide Mirrors, Turns, FailedAll, FinishedAll;
    if i < n {
      FinishedStaysFinished(cfg, states, calls, i, n - 1, id);
      assert Steps(cfg, states[n - 1], calls[n - 1], states[n]);
    }
    if n < |calls| {
      assert Steps(cfg, states[n], calls[n], states[n + 1]);
    }
  }

  // ---------- A failure that blocks, blocks ----------

  /** A success of an attempt that holds the identity clears it. */
  predicate Clears(s: Throttle, call: Call, k: string) {
    call.Finish? && call.success && Active(s.attempts, call.id) && k in s.attempts[call.id].keys
  }

  /** The failure of an active attempt on an identity. */
  predicate Fails(s: Throttle, call: Call, k: string) {
    call.Fail? && Active(s.attempts, call.id) && k in s.attempts[call.id].keys
  }

  /** The identity has at least so many failures and is blocked at least until then. */
  ghost predicate Blocked(s: Throttle, k: string, failures: int, until: int) {
    && Mirrors(s.lru, s.entries) && k in s.entries
    && s.entries[k].failures >= failures && s.entries[k].blockedUntil >= until
  }

  lemma BlockedBegin(cfg: Config, s: Throttle, call: Call, t: Throttle, k: string, failures: int, until: int)
    requires call.Begin? && Steps(cfg, s, call, t) && Blocked(s, k, failures, until) && call.now < until
    ensures Blocked(t, k, failures, until) && (k in call.keys ==> !call.answer.allowed)
  {
    hide Mirrors, Purge, Absent, Distinct;
    PurgeDropsStale(cfg, Table(s.entries, s.lru), call.now);
    var p := Purge(cfg, Table(s.entries, s.lru), call.now).entries;
    assert k in p && p[k] == s.entries[k];
    assert Refuses(cfg, p[k], call.now);
  }

  lemma BlockedFail(cfg: Config, s: Throttle, call: Call, t: Throttle, k: string, failures: int, since: int)
    requires call.Fail? && Steps(cfg, s, call, t) && failures > 0 && DelaySpec(cfg, failures) > 0 && since <= call.now
    requires Blocked(s, k, failures, since + DelaySpec(cfg, failures))
    ensures Blocked(t, k, failures, since + DelaySpec(cfg, failures))
  {
    hide Mirrors, DelaySpec;
    DelayGrows(cfg, failures, s.entries[k].failures + 1);
  }

  lemma BlockedFinish(cfg: Config, s: Throttle, call: Call, t: Throttle, k: string, failures: int, until: int)
    requires call.Finish? && Steps(cfg, s, call, t) && Blocked(s, k, failures, until) && failures > 0 && !Clears(s, call, k)
    ensures Blocked(t, k, failures, until)
  {
    hide Mirrors;
  }

  lemma BlockedStep(cfg: Config, s: Throttle, call: Call, t: Throttle, k: string, failures: int, since: int)
    requires Steps(cfg, s, call, t) && failures > 0 && DelaySpec(cfg, failures) > 0
    requires since <= call.now < since + DelaySpec(cfg, failures) && !Clears(s, call, k)
    requires Blocked(s, k, failures, since + DelaySpec(cfg, failures))
    ensures Blocked(t, k, failures, since + DelaySpec(cfg, failures))
  {
    hide Steps, Blocked, DelaySpec, Clears;
    match call
    case Begin(_, _, _) => BlockedBegin(cfg, s, call, t, k, failures, since + DelaySpec(cfg, failures));
    case Fail(_, _, _) => BlockedFail(cfg, s, call, t, k, failures, since);
    case Finish(_, _, _) => BlockedFinish(cfg, s, call, t, k, failures, since + DelaySpec(cfg, failures));
  }

  lemma FailureBlocks(cfg: Config, s: Throttle, call: Call, t: Throttle, k: string)
    requires Kept(cfg, s) && Steps(cfg, s, call, t) && Fails(s, call, k)
    ensures k in s.entries && s.entries[k].failures >= 0
    ensures var failures := s.entries[k].failures + 1;
            DelaySpec(cfg, failures) > 0 ==> Blocked(t, k, failures, call.now + DelaySpec(cfg, failures))
  {
    HeldKeysHaveEntries(s.entries, s.attempts, call.id);
    assert Sound(cfg, s.entries[k]);
    hide Mirrors, DelaySpec, Counted;
  }

  lemma {:induction false} BlockedUntil(cfg: Config, states: seq<Throttle>, calls: seq<Call>, i: nat, j: nat, k: string)
    requires IsRun(cfg, states, calls) && InOrder(calls) && i < j <= |calls| && Fails(states[i], calls[i], k)
    requires k in states[i].entries
    requires var delay := DelaySpec(cfg, states[i].entries[k].failures + 1);
             delay > 0 && forall n :: i < n < j ==> calls[n].now < calls[i].now + delay && !Clears(states[n], calls[n], k)
    ensures var failures := states[i].entries[k].failures + 1;
            failures > 0 && Blocked(states[j], k, failures, calls[i].now + DelaySpec(cfg, failures))
    decreases j
  {
    hide Steps, Blocked, DelaySpec, Clears, Kept, Fails;
    RunKept(cfg, states, calls, i);
    FailureBlocks(cfg, states[i], calls[i], states[i + 1], k);
    if i + 1 < j {
      BlockedUntil(cfg, states, calls, i, j - 1, k);
      BlockedStep(cfg, states[j - 1], calls[j - 1], states[j], k, states[i].entries[k].failures + 1, calls[i].now);
    }
  }

  /**
   * After a failure that sets a delay for an identity, no attempt on that identity is allowed before the delay has
   * passed, unless a success cleared the identity in between.
   */
  lemma NoAttemptWhileBlocked(cfg: Config, states: seq<Throttle>, calls: seq<Call>, i: nat, j: nat, k: string)
    requires IsRun(cfg, states, calls) && InOrder(calls) && i < j < |calls| && Fails(states[i], calls[i], k)
    requires calls[j].Begin? && k in calls[j].keys
    requires forall n :: i < n < j ==> !Clears(states[n], calls[n], k)
    ensures k in states[i].entries
    ensures calls[j].now < calls[i].now + DelaySpec(cfg, states[i].entries[k].failures + 1) ==> !calls[j].answer.allowed
  {
    hide Steps, Blocked, DelaySpec, Clears, Kept, Fails;
    RunKept(cfg, states, calls, i);
    FailureBlocks(cfg, states[i], calls[i], states[i + 1], k);
    var delay := DelaySpec(cfg, states[i].entries[k].failures + 1);
    if calls[j].now < calls[i].now + delay {
      assert calls[i].now <= calls[j].now;
      BlockedUntil(cfg, states, calls, i, j, k);
      BlockedBegin(cfg, states[j], calls[j], states[j + 1], k, states[i].entries[k].failures + 1, calls[i].now + delay);
    }
  }
}
