/**
 * What the login throttle knows of an identity, told from the calls: its failures, its block and its
 * reservations are those of the calls since it was last cleared or forgotten, and these alone decide
 * every attempt.
 */
module LoginHistory {
  import opened Doubling
  import opened Lists
  import opened LoginThrottling
  import opened LoginRuns

  // ---------- Attempts ----------

  /** The number of attempts begun by the first n calls. */
  function Begun(calls: seq<Call>, n: nat): nat
    requires n <= |calls|
  {
    if n == 0 then 0 else Begun(calls, n - 1) + if calls[n - 1].Begin? then 1 else 0
  }

  predicate Settles(call: Call, id: nat) {
    !call.Begin? && call.id == id
  }

  lemma {:induction false} AttemptsBegun(cfg: Config, states: seq<Throttle>, calls: seq<Call>, n: nat)
    requires IsRun(cfg, states, calls) && n <= |calls|
    ensures |states[n].attempts| == Begun(calls, n)
  {
    hide Mirrors, Begins, FailedAll, FinishedAll, Told, Answers, TurnedList, AllToBack, Settled, Purge;
    if n > 0 {
      AttemptsBegun(cfg, states, calls, n - 1);
      assert Steps(cfg, states[n - 1], calls[n - 1], states[n]);
    }
  }

  /** An attempt holds its keys from the call that was allowed to begin it until the first call that settles it. */
  lemma {:induction false} ActiveUntilSettled(cfg: Config, states: seq<Throttle>, calls: seq<Call>, b: nat, n: nat)
    requires IsRun(cfg, states, calls) && b < n <= |calls| && calls[b].Begin?
    ensures var id := Begun(calls, b);
            && (Active(states[n].attempts, id) <==> calls[b].answer.allowed && forall c :: b < c < n ==> !Settles(calls[c], id))
            && (Active(states[n].attempts, id) ==> states[n].attempts[id].keys == calls[b].keys)
            && id < |states[n].attempts|
    decreases n
  {
    hide Mirrors, Begins, FailedAll, FinishedAll, Told, Answers, TurnedList, AllToBack, Settled, Purge;
    assert Steps(cfg, states[n - 1], calls[n - 1], states[n]);
    AttemptsBegun(cfg, states, calls, b);
    if b < n - 1 {
      ActiveUntilSettled(cfg, states, calls, b, n - 1);
    }
  }

  // ---------- Forgetting ----------

  /** Nobody uses the entry: no reservation, no block, and not seen for the time entries are kept. */
  ghost predicate Unused(cfg: Config, e: Entry, now: int) {
    e.inFlight <= 0 && e.blockedUntil <= now && e.lastSeen + cfg.entryTtl <= now
  }

  /** The entry, and every one not seen since, is unused. */
  ghost predicate Expires(cfg: Config, entries: map<string, Entry>, lru: seq<string>, now: int, k: string) {
    cfg.entryTtl > 0 && exists i :: 0 <= i < |lru| && lru[i] == k && UnusedUpTo(cfg, entries, lru, now, i)
  }

  ghost predicate UnusedUpTo(cfg: Config, entries: map<string, Entry>, lru: seq<string>, now: int, i: nat) {
    forall j :: 0 <= j <= i && j < |lru| ==> lru[j] in entries && Unused(cfg, entries[lru[j]], now)
  }

  /** Purging forgets exactly the entries that expire. */
  lemma {:induction false} PurgeForgetsExpired(cfg: Config, t: Table, now: int, k: string)
    requires Mirrors(t.lru, t.entries) && k in t.entries
    ensures k !in Purge(cfg, t, now).entries <==> Expires(cfg, t.entries, t.lru, now, k)
    ensures k in Purge(cfg, t, now).entries ==> Purge(cfg, t, now).entries[k] == t.entries[k]
    decreases |t.lru|
  {
    PurgeDropsStale(cfg, t, now);
    if cfg.entryTtl > 0 && t.lru != [] && t.lru[0] in t.entries && Stale(cfg, t.entries[t.lru[0]], now) {
      MirrorsPop(t.lru, t.entries);
      var rest := Table(t.entries - {t.lru[0]}, t.lru[1..]);
      if k == t.lru[0] {
        PurgeDropsStale(cfg, rest, now);
        assert UnusedUpTo(cfg, t.entries, t.lru, now, 0);
      } else {
        PurgeForgetsExpired(cfg, rest, now, k);
        ExpiresBehind(cfg, t, now, k);
      }
    } else if Expires(cfg, t.entries, t.lru, now, k) {
      FrontIsUnused(cfg, t, now, k);
      assert false;
    }
  }

  lemma FrontIsUnused(cfg: Config, t: Table, now: int, k: string)
    requires Expires(cfg, t.entries, t.lru, now, k)
    ensures t.lru != [] && t.lru[0] in t.entries && Unused(cfg, t.entries[t.lru[0]], now)
  {
  }

  lemma ExpiresBehind(cfg: Config, t: Table, now: int, k: string)
    requires Mirrors(t.lru, t.entries) && t.lru != [] && k != t.lru[0]
    requires t.lru[0] in t.entries && Unused(cfg, t.entries[t.lru[0]], now)
    ensures Expires(cfg, t.entries, t.lru, now, k) <==> Expires(cfg, t.entries - {t.lru[0]}, t.lru[1..], now, k)
  {
    var rest := t.entries - {t.lru[0]};
    if Expires(cfg, t.entries, t.lru, now, k) {
      var i :| 0 <= i < |t.lru| && t.lru[i] == k && UnusedUpTo(cfg, t.entries, t.lru, now, i);
      UnusedBehind(cfg, t, now, i);
      assert t.lru[1..][i - 1] == k;
    }
    if Expires(cfg, rest, t.lru[1..], now, k) {
      var i :| 0 <= i < |t.lru[1..]| && t.lru[1..][i] == k && UnusedUpTo(cfg, rest, t.lru[1..], now, i);
      UnusedBehind(cfg, t, now, i + 1);
      assert t.lru[i + 1] == k;
    }
  }

  lemma UnusedBehind(cfg: Config, t: Table, now: int, i: nat)
    requires Mirrors(t.lru, t.entries) && 0 < i < |t.lru|
    requires t.lru[0] in t.entries && Unused(cfg, t.entries[t.lru[0]], now)
    ensures UnusedUpTo(cfg, t.entries, t.lru, now, i) <==> UnusedUpTo(cfg, t.entries - {t.lru[0]}, t.lru[1..], now, i - 1)
  {
    hide Unused;
    var rest := t.entries - {t.lru[0]};
    assert forall j :: 0 < j <= i ==> t.lru[j] == t.lru[1..][j - 1] && t.lru[j] != t.lru[0];
    assert forall j :: 0 <= j <= i - 1 ==> t.lru[1..][j] == t.lru[j + 1];
  }

  /** The beginning of an attempt first forgets the identity. */
  ghost predicate Forgets(cfg: Config, s: Throttle, call: Call, k: string) {
    call.Begin? && Expires(cfg, s.entries, s.lru, call.now, k)
  }

  // ---------- One identity over a run ----------

  /** The failures of attempts on an identity since it was last cleared or forgotten. */
  ghost function Failures(cfg: Config, states: seq<Throttle>, calls: seq<Call>, k: string, n: nat): nat
    requires n <= |calls| && |states| == |calls| + 1
  {
    if n == 0 || Clears(states[n - 1], calls[n - 1], k) || Forgets(cfg, states[n - 1], calls[n - 1], k) then 0
    else Failures(cfg, states, calls, k, n - 1) + if Fails(states[n - 1], calls[n - 1], k) then 1 else 0
  }

  /** When the block of an identity ends that the failures since then have set; time zero without one. */
  ghost function BlockEnd(cfg: Config, states: seq<Throttle>, calls: seq<Call>, k: string, n: nat): int
    requires n <= |calls| && |states| == |calls| + 1
  {
    if n == 0 || Clears(states[n - 1], calls[n - 1], k) || Forgets(cfg, states[n - 1], calls[n - 1], k) then 0
    else
      var delay := DelaySpec(cfg, Failures(cfg, states, calls, k, n));
      if Fails(states[n - 1], calls[n - 1], k) && delay > 0 then calls[n - 1].now + delay
      else BlockEnd(cfg, states, calls, k, n - 1)
  }

  function FailuresIn(s: Throttle, k: string): int {
    if k in s.entries then s.entries[k].failures else 0
  }

  function BlockIn(s: Throttle, k: string): int {
    if k in s.entries then s.entries[k].blockedUntil else 0
  }

  /** An identity without failures is not blocked. */
  ghost predicate NoBlameNoBlock(s: Throttle, k: string) {
    FailuresIn(s, k) == 0 ==> BlockIn(s, k) == 0
  }

  lemma BeginOnKey(cfg: Config, s: Throttle, call: Call, t: Throttle, k: string)
    requires call.Begin? && Mirrors(s.lru, s.entries) && Steps(cfg, s, call, t)
    ensures FailuresIn(t, k) == if Forgets(cfg, s, call, k) then 0 else FailuresIn(s, k)
    ensures BlockIn(t, k) == if Forgets(cfg, s, call, k) then 0 else BlockIn(s, k)
  {
    assert Forgets(cfg, s, call, k) ==> k in s.entries;
    var table := Table(s.entries, s.lru);
    var p := Purge(cfg, table, call.now).entries;
    PurgeDropsStale(cfg, table, call.now);
    if k in s.entries {
      PurgeForgetsExpired(cfg, table, call.now, k);
    }
    assert k in p ==> k in s.entries && p[k] == s.entries[k];
    assert Turns(cfg, p, t.entries, call.keys, call.now, call.answer.allowed);
    hide Purge, Mirrors, Expires, NoneRefuses, Fits, LongestWait, TurnedList, Told;
  }

  lemma FailOnKey(cfg: Config, s: Throttle, call: Call, t: Throttle, k: string)
    requires call.Fail? && Kept(cfg, s) && Steps(cfg, s, call, t)
    ensures FailuresIn(t, k) == FailuresIn(s, k) + if Fails(s, call, k) then 1 else 0
    ensures var delay := DelaySpec(cfg, FailuresIn(t, k));
            BlockIn(t, k) == if Fails(s, call, k) && delay > 0 then call.now + delay else BlockIn(s, k)
    ensures FailuresIn(t, k) >= FailuresIn(s, k) >= 0
  {
    if Active(s.attempts, call.id) {
      HeldKeysHaveEntries(s.entries, s.attempts, call.id);
    }
    assert k in s.entries ==> Sound(cfg, s.entries[k]);
    hide Mirrors, Counted, AllSound, DelaySpec, AllToBack, Answers, Told;
  }

  lemma FinishOnKey(cfg: Config, s: Throttle, call: Call, t: Throttle, k: string)
    requires call.Finish? && Kept(cfg, s) && Steps(cfg, s, call, t) && NoBlameNoBlock(s, k)
    ensures FailuresIn(t, k) == if Clears(s, call, k) then 0 else FailuresIn(s, k)
    ensures BlockIn(t, k) == if Clears(s, call, k) then 0 else BlockIn(s, k)
  {
    if Active(s.attempts, call.id) {
      HeldKeysHaveEntries(s.entries, s.attempts, call.id);
    }
    hide Mirrors, Counted, AllSound, Settled;
  }

  lemma NoBlock(cfg: Config, s: Throttle, call: Call, t: Throttle, k: string)
    requires Kept(cfg, s) && Steps(cfg, s, call, t) && NoBlameNoBlock(s, k)
    ensures NoBlameNoBlock(t, k)
  {
    hide Steps, Clears, Fails, Forgets, DelaySpec;
    match call
    case Begin(_, _, _) => BeginOnKey(cfg, s, call, t, k);
    case Fail(_, _, _) => FailOnKey(cfg, s, call, t, k);
    case Finish(_, _, _) => FinishOnKey(cfg, s, call, t, k);
  }

  /** In every run an identity's entry counts exactly these failures and carries exactly this block. */
  lemma {:induction false} EntryIsHistory(cfg: Config, states: seq<Throttle>, calls: seq<Call>, k: string, n: nat)
    requires IsRun(cfg, states, calls) && n <= |calls|
    ensures FailuresIn(states[n], k) == Failures(cfg, states, calls, k, n)
    ensures BlockIn(states[n], k) == BlockEnd(cfg, states, calls, k, n)
    ensures NoBlameNoBlock(states[n], k)
  {
    hide Steps, Kept, Clears, Fails, Forgets, DelaySpec, FailuresIn, BlockIn, NoBlameNoBlock;
    if n == 0 {
      NothingIn(k);
    } else {
      EntryIsHistory(cfg, states, calls, k, n - 1);
      var s, call, t := states[n - 1], calls[n - 1], states[n];
      RunKept(cfg, states, calls, n - 1);
      assert Steps(cfg, s, call, t);
      NoBlock(cfg, s, call, t, k);
      OneKind(cfg, s, call, k);
      match call
      case Begin(_, _, _) =>
        KeptMirrors(cfg, s);
        BeginOnKey(cfg, s, call, t, k);
      case Fail(_, _, _) =>
        FailOnKey(cfg, s, call, t, k);
      case Finish(_, _, _) =>
        FinishOnKey(cfg, s, call, t, k);
    }
  }

  lemma NothingIn(k: string)
    ensures FailuresIn(EMPTY, k) == 0 && BlockIn(EMPTY, k) == 0 && NoBlameNoBlock(EMPTY, k)
  {
  }

  lemma KeptMirrors(cfg: Config, s: Throttle)
    requires Kept(cfg, s)
    ensures Mirrors(s.lru, s.entries)
  {
  }

  lemma OneKind(cfg: Config, s: Throttle, call: Call, k: string)
    ensures Clears(s, call, k) ==> call.Finish?
    ensures Fails(s, call, k) ==> call.Fail?
    ensures Forgets(cfg, s, call, k) ==> call.Begin?
  {
  }

  /** The identities with an entry are those with a failure or with an attempt under way. */
  lemma EntriesAreUsed(cfg: Config, states: seq<Throttle>, calls: seq<Call>, k: string, n: nat)
    requires IsRun(cfg, states, calls) && n <= |calls|
    ensures k in states[n].entries <==> Failures(cfg, states, calls, k, n) > 0 || Holding(states[n].attempts, k) > 0
  {
    EntryIsHistory(cfg, states, calls, k, n);
    RunKept(cfg, states, calls, n);
    assert k in states[n].entries ==> Sound(cfg, states[n].entries[k]);
    hide Mirrors, Failures;
  }

  // ---------- Every attempt is decided by this ----------

  /** The identity admits no attempt: it is blocked, or attempts under way might use up its failures. */
  ghost predicate Turned(cfg: Config, states: seq<Throttle>, calls: seq<Call>, k: string, n: nat)
    requires n < |calls| && |states| == |calls| + 1
  {
    var failures, held := Failures(cfg, states, calls, k, n), Holding(states[n].attempts, k);
    BlockEnd(cfg, states, calls, k, n) > calls[n].now || (held > 0 && failures + held >= cfg.threshold)
  }

  /** The identities an attempt finds in the table. */
  ghost function Remembered(cfg: Config, s: Throttle, now: int): set<string> {
    set k | k in s.entries && !Expires(cfg, s.entries, s.lru, now, k)
  }

  /** The table has a place for every identity of the attempt. */
  ghost predicate Room(cfg: Config, s: Throttle, call: Call)
    requires call.Begin?
  {
    |Remembered(cfg, s, call.now) + Elements(call.keys)| <= cfg.maxEntries
  }

  lemma PurgedKeys(cfg: Config, s: Throttle, now: int)
    requires Mirrors(s.lru, s.entries)
    ensures Purge(cfg, Table(s.entries, s.lru), now).entries.Keys == Remembered(cfg, s, now)
  {
    var table := Table(s.entries, s.lru);
    PurgeDropsStale(cfg, table, now);
    var p := Purge(cfg, table, now).entries;
    forall k ensures k in p <==> k in Remembered(cfg, s, now) {
      if k in s.entries {
        PurgeForgetsExpired(cfg, table, now, k);
      }
    }
  }

  lemma FitsIsRoom(cfg: Config, s: Throttle, call: Call)
    requires call.Begin? && Mirrors(s.lru, s.entries) && Distinct(call.keys)
    ensures Fits(cfg, Purge(cfg, Table(s.entries, s.lru), call.now).entries, call.keys) <==> Room(cfg, s, call)
  {
    hide Mirrors, Purge, Remembered;
    PurgedKeys(cfg, s, call.now);
    ReservingSize(Purge(cfg, Table(s.entries, s.lru), call.now).entries, call.keys);
  }

  /** An entry refuses what its history refuses, whether or not it is forgotten first. */
  lemma RefusesIsTurned(cfg: Config, states: seq<Throttle>, calls: seq<Call>, k: string, n: nat)
    requires IsRun(cfg, states, calls) && n < |calls| && calls[n].Begin? && calls[n].now >= 0
    ensures var p := Purge(cfg, Table(states[n].entries, states[n].lru), calls[n].now).entries;
            (k in p && Refuses(cfg, p[k], calls[n].now)) <==> Turned(cfg, states, calls, k, n)
  {
    var s, now := states[n], calls[n].now;
    RunKept(cfg, states, calls, n);
    EntryIsHistory(cfg, states, calls, k, n);
    assert Holding(s.attempts, k) == if k in s.entries then s.entries[k].inFlight else 0;
    PurgeDropsStale(cfg, Table(s.entries, s.lru), now);
    hide Purge, Mirrors, Failures, BlockEnd, IsRun, AllSound, Counted;
  }

  /** An attempt is allowed if and only if none of its identities is turned away and the table has room. */
  lemma AttemptIsDecided(cfg: Config, states: seq<Throttle>, calls: seq<Call>, n: nat)
    requires IsRun(cfg, states, calls) && n < |calls| && calls[n].Begin? && calls[n].now >= 0 && Distinct(calls[n].keys)
    ensures calls[n].answer.allowed <==>
            (forall k :: k in calls[n].keys ==> !Turned(cfg, states, calls, k, n)) && Room(cfg, states[n], calls[n])
  {
    assert Steps(cfg, states[n], calls[n], states[n + 1]);
    hide Purge, Turned, Room, Refuses, IsRun, Mirrors, Fits;
    var p := Purge(cfg, Table(states[n].entries, states[n].lru), calls[n].now).entries;
    forall k ensures (k in p && Refuses(cfg, p[k], calls[n].now)) <==> Turned(cfg, states, calls, k, n) {
      RefusesIsTurned(cfg, states, calls, k, n);
    }
    RunKept(cfg, states, calls, n);
    KeptMirrors(cfg, states[n]);
    FitsIsRoom(cfg, states[n], calls[n]);
  }

  // ---------- A success wipes the slate clean ----------

  /** A success cleared the identity before call n, or the run had just begun, and no attempt on it has failed since. */
  ghost predicate CleanSince(states: seq<Throttle>, calls: seq<Call>, k: string, i: nat, n: nat) {
    && i <= n <= |calls| && |states| == |calls| + 1 && (i == 0 || Clears(states[i - 1], calls[i - 1], k))
    && forall j :: i <= j < n ==> !Fails(states[j], calls[j], k)
  }

  lemma {:induction false} CleanHistory(cfg: Config, states: seq<Throttle>, calls: seq<Call>, k: string, i: nat, n: nat)
    requires CleanSince(states, calls, k, i, n)
    ensures Failures(cfg, states, calls, k, n) == 0 && BlockEnd(cfg, states, calls, k, n) == 0
    decreases n
  {
    hide Clears, Fails, Forgets, DelaySpec;
    if i < n {
      CleanHistory(cfg, states, calls, k, i, n - 1);
    }
  }

  /** Right after a success its identities are gone, or blameless and unblocked while other attempts hold them. */
  lemma SuccessClears(cfg: Config, states: seq<Throttle>, calls: seq<Call>, k: string, i: nat)
    requires IsRun(cfg, states, calls) && i < |calls| && Clears(states[i], calls[i], k)
    ensures var entries := states[i + 1].entries;
            if Holding(states[i + 1].attempts, k) == 0 then k !in entries
            else k in entries && entries[k].failures == 0 && entries[k].blockedUntil == ZERO_TIME
  {
    assert |states| == |calls| + 1;
    hide Clears, Kept, Failures, BlockEnd, IsRun;
    CleanHistory(cfg, states, calls, k, i + 1, i + 1);
    EntryIsHistory(cfg, states, calls, k, i + 1);
    EntriesAreUsed(cfg, states, calls, k, i + 1);
  }

  /** With no failure since a success, and no other attempt under way, an attempt is allowed wherever there is room. */
  lemma CleanIsWelcome(cfg: Config, states: seq<Throttle>, calls: seq<Call>, n: nat)
    requires IsRun(cfg, states, calls) && n < |calls| && calls[n].Begin? && calls[n].now >= 0 && Distinct(calls[n].keys)
    requires forall k :: k in calls[n].keys ==>
               Holding(states[n].attempts, k) == 0 && exists i :: CleanSince(states, calls, k, i, n)
    requires Room(cfg, states[n], calls[n])
    ensures calls[n].answer.allowed
  {
    assert |states| == |calls| + 1;
    hide CleanSince, IsRun, Room, Failures, BlockEnd;
    AttemptIsDecided(cfg, states, calls, n);
    forall k | k in calls[n].keys ensures !Turned(cfg, states, calls, k, n) {
      var i :| CleanSince(states, calls, k, i, n);
      CleanHistory(cfg, states, calls, k, i, n);
    }
  }

  // ---------- How long to wait ----------

  /** How long an identity makes the caller of call n wait. */
  ghost function WaitFor(cfg: Config, states: seq<Throttle>, calls: seq<Call>, k: string, n: nat): int
    requires n < |calls| && |states| == |calls| + 1
  {
    var left := BlockEnd(cfg, states, calls, k, n) - calls[n].now;
    var failures, held := Failures(cfg, states, calls, k, n), Holding(states[n].attempts, k);
    var full := if held > 0 && failures + held >= cfg.threshold then cfg.baseDelay else 0;
    Max(Max(left, full), 0)
  }

  /** How long an entry makes the caller wait. */
  function WaitIn(cfg: Config, entries: map<string, Entry>, k: string, now: int): int {
    if k in entries && Refuses(cfg, entries[k], now) then Wait(cfg, entries[k], now) else 0
  }

  lemma {:induction false} LongestWaitIsLargest(cfg: Config, entries: map<string, Entry>, keys: seq<string>, now: int)
    ensures var wait := LongestWait(cfg, entries, keys, now);
            && wait >= 0 && (forall k :: k in keys ==> WaitIn(cfg, entries, k, now) <= wait)
            && (wait == 0 || exists k :: k in keys && WaitIn(cfg, entries, k, now) == wait)
  {
    hide Refuses, Wait;
    if keys != [] {
      var most, last := keys[..|keys| - 1], keys[|keys| - 1];
      assert keys == most + [last];
      LongestWaitIsLargest(cfg, entries, most, now);
      assert last in keys;
      if k :| k in most && WaitIn(cfg, entries, k, now) == LongestWait(cfg, entries, most, now) {
        assert k in keys;
      }
    }
  }

  /** What a purged entry asks the caller to wait is what its history asks for. */
  lemma WaitIsHistory(cfg: Config, states: seq<Throttle>, calls: seq<Call>, k: string, n: nat)
    requires IsRun(cfg, states, calls) && n < |calls| && calls[n].Begin? && calls[n].now >= 0
    ensures WaitIn(cfg, Purge(cfg, Table(states[n].entries, states[n].lru), calls[n].now).entries, k, calls[n].now) ==
            WaitFor(cfg, states, calls, k, n)
  {
    var s, now := states[n], calls[n].now;
    RunKept(cfg, states, calls, n);
    EntryIsHistory(cfg, states, calls, k, n);
    assert Holding(s.attempts, k) == if k in s.entries then s.entries[k].inFlight else 0;
    PurgeDropsStale(cfg, Table(s.entries, s.lru), now);
    hide Purge, Mirrors, Failures, BlockEnd, IsRun, AllSound, Counted;
  }

  /**
   * Turned away by identities, the caller waits for the slowest of them; turned away for want of room, the base
   * delay and at least a second; otherwise not at all.
   */
  lemma BeginTellsWait(cfg: Config, states: seq<Throttle>, calls: seq<Call>, n: nat)
    requires IsRun(cfg, states, calls) && n < |calls| && calls[n].Begin? && calls[n].now >= 0 && Distinct(calls[n].keys)
    ensures var keys, wait := calls[n].keys, calls[n].answer.retryAfter;
            if exists k :: k in keys && Turned(cfg, states, calls, k, n) then
              && wait >= 0 && (forall k :: k in keys ==> WaitFor(cfg, states, calls, k, n) <= wait)
              && (wait == 0 || exists k :: k in keys && WaitFor(cfg, states, calls, k, n) == wait)
            else if Room(cfg, states[n], calls[n]) then wait == 0
            else wait == if cfg.baseDelay > 1_000_000_000 then cfg.baseDelay else 1_000_000_000
  {
    assert Steps(cfg, states[n], calls[n], states[n + 1]);
    hide Purge, Turned, Room, Refuses, IsRun, Mirrors, Fits, LongestWait, WaitFor, WaitIn;
    var p := Purge(cfg, Table(states[n].entries, states[n].lru), calls[n].now).entries;
    forall k ensures (k in p && Refuses(cfg, p[k], calls[n].now)) <==> Turned(cfg, states, calls, k, n)
      ensures WaitIn(cfg, p, k, calls[n].now) == WaitFor(cfg, states, calls, k, n)
    {
      RefusesIsTurned(cfg, states, calls, k, n);
      WaitIsHistory(cfg, states, calls, k, n);
    }
    RunKept(cfg, states, calls, n);
    KeptMirrors(cfg, states[n]);
    FitsIsRoom(cfg, states[n], calls[n]);
    LongestWaitIsLargest(cfg, p, calls[n].keys, calls[n].now);
  }

  lemma {:induction false} LongestDelayIsLargest(cfg: Config, entries: map<string, Entry>, keys: seq<string>)
    requires forall k :: k in keys ==> k in entries
    ensures var delay := LongestDelay(cfg, entries, keys);
            && delay >= 0 && (forall k :: k in keys ==> DelaySpec(cfg, entries[k].failures + 1) <= delay)
            && (delay == 0 || exists k :: k in keys && DelaySpec(cfg, entries[k].failures + 1) == delay)
  {
    hide DelaySpec;
    if keys != [] {
      var most, last := keys[..|keys| - 1], keys[|keys| - 1];
      assert keys == most + [last];
      LongestDelayIsLargest(cfg, entries, most);
      assert last in keys;
      if k :| k in most && DelaySpec(cfg, entries[k].failures + 1) == LongestDelay(cfg, entries, most) {
        assert k in keys;
      }
    }
  }

  /** A failure answers with the longest delay it sets, and lets the caller go on if it sets none. */
  lemma FailTellsDelay(cfg: Config, states: seq<Throttle>, calls: seq<Call>, n: nat)
    requires IsRun(cfg, states, calls) && n < |calls| && calls[n].Fail? && Active(states[n].attempts, calls[n].id)
    ensures var keys, d := states[n].attempts[calls[n].id].keys, calls[n].answer;
            && (d.allowed <==> d.retryAfter == 0) && d.retryAfter >= 0
            && (forall k :: k in keys ==> DelaySpec(cfg, Failures(cfg, states, calls, k, n) + 1) <= d.retryAfter)
            && (d.retryAfter == 0 || exists k :: k in keys && DelaySpec(cfg, Failures(cfg, states, calls, k, n) + 1) == d.retryAfter)
  {
    hide *;
    FailAnswers(cfg, states, calls, n);
    var entries, keys, d := states[n].entries, states[n].attempts[calls[n].id].keys, calls[n].answer;
    LongestDelayIsLargest(cfg, entries, keys);
    forall k | k in keys ensures DelaySpec(cfg, Failures(cfg, states, calls, k, n) + 1) <= d.retryAfter {
      KnownFailures(cfg, states, calls, k, n);
    }
    if d.retryAfter != 0 {
      var k :| k in keys && DelaySpec(cfg, entries[k].failures + 1) == d.retryAfter;
      KnownFailures(cfg, states, calls, k, n);
    }
  }

  lemma KnownFailures(cfg: Config, states: seq<Throttle>, calls: seq<Call>, k: string, n: nat)
    requires IsRun(cfg, states, calls) && n <= |calls| && k in states[n].entries
    ensures states[n].entries[k].failures == Failures(cfg, states, calls, k, n)
  {
    hide IsRun, Failures;
    EntryIsHistory(cfg, states, calls, k, n);
  }

  lemma FailAnswers(cfg: Config, states: seq<Throttle>, calls: seq<Call>, n: nat)
    requires IsRun(cfg, states, calls) && n < |calls| && calls[n].Fail? && Active(states[n].attempts, calls[n].id)
    ensures |states| == |calls| + 1 && calls[n].id < |states[n].attempts|
    ensures var entries, keys, d := states[n].entries, states[n].attempts[calls[n].id].keys, calls[n].answer;
            && d.retryAfter == LongestDelay(cfg, entries, keys) && (d.allowed <==> d.retryAfter == 0)
            && forall k :: k in keys ==> k in entries
  {
    assert Steps(cfg, states[n], calls[n], states[n + 1]);
    hide Mirrors, LongestDelay, Counted, AllSound, FailedAll, AllToBack, Told;
    RunKept(cfg, states, calls, n);
    HeldKeysHaveEntries(states[n].entries, states[n].attempts, calls[n].id);
  }
}
