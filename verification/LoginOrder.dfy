/** In which order the login throttle keeps its identities, and how often it reports. */
module LoginOrder {
  import opened Lists
  import opened LoginThrottling
  import opened LoginRuns

  // ---------- When an identity was seen ----------

  /** The call is about the identity. */
  predicate Concerns(s: Throttle, call: Call, k: string) {
    if call.Begin? then k in call.keys else Active(s.attempts, call.id) && k in s.attempts[call.id].keys
  }

  lemma SeenStep(cfg: Config, s: Throttle, call: Call, t: Throttle, k: string)
    requires Mirrors(s.lru, s.entries) && Steps(cfg, s, call, t) && k in t.entries
    ensures !Concerns(s, call, k) ==> k in s.entries
    ensures t.entries[k].lastSeen == if Concerns(s, call, k) then call.now else s.entries[k].lastSeen
  {
    if call.Begin? {
      PurgeDropsStale(cfg, Table(s.entries, s.lru), call.now);
    }
    hide Mirrors, Purge, NoneRefuses, Fits, LongestWait, Told, TurnedList, AllToBack, Settled, Answers, DelaySpec;
  }

  ghost predicate LastConcern(states: seq<Throttle>, calls: seq<Call>, k: string, i: nat, n: nat) {
    && i < n <= |calls| <= |states| && Concerns(states[i], calls[i], k)
    && forall j :: i < j < n ==> !Concerns(states[j], calls[j], k)
  }

  /** An entry was last seen at the last call about its identity. */
  lemma {:induction false} SeenAtLastConcern(cfg: Config, states: seq<Throttle>, calls: seq<Call>, k: string, n: nat)
    requires IsRun(cfg, states, calls) && n <= |calls| && k in states[n].entries
    ensures exists i: nat :: LastConcern(states, calls, k, i, n) && states[n].entries[k].lastSeen == calls[i].now
  {
    hide Steps, Concerns, Kept;
    if n > 0 {
      assert Steps(cfg, states[n - 1], calls[n - 1], states[n]);
      RunKept(cfg, states, calls, n - 1);
      KeptList(cfg, states[n - 1]);
      SeenStep(cfg, states[n - 1], calls[n - 1], states[n], k);
      if Concerns(states[n - 1], calls[n - 1], k) {
        assert LastConcern(states, calls, k, n - 1, n);
      } else {
        SeenAtLastConcern(cfg, states, calls, k, n - 1);
        var i: nat :| LastConcern(states, calls, k, i, n - 1) && states[n - 1].entries[k].lastSeen == calls[i].now;
        assert LastConcern(states, calls, k, i, n);
      }
    }
  }

  lemma KeptList(cfg: Config, s: Throttle)
    requires Kept(cfg, s)
    ensures Mirrors(s.lru, s.entries)
  {
  }

  // ---------- The list runs from the longest unseen to the last seen ----------

  ghost predicate BySeen(list: seq<string>, entries: map<string, Entry>) {
    forall i, j :: 0 <= i < j < |list| ==>
      list[i] in entries && list[j] in entries && entries[list[i]].lastSeen <= entries[list[j]].lastSeen
  }

  /** y may follow x in a list whose keys in `done` were moved to the back. */
  ghost predicate MayFollow(done: set<string>, entries: map<string, Entry>, x: string, y: string) {
    y in done || (x !in done && x in entries && y in entries && entries[x].lastSeen <= entries[y].lastSeen)
  }

  ghost predicate Arranged(list: seq<string>, done: set<string>, entries: map<string, Entry>) {
    forall i, j :: 0 <= i < j < |list| ==> MayFollow(done, entries, list[i], list[j])
  }

  lemma ArrangedWithout(list: seq<string>, done: set<string>, entries: map<string, Entry>, k: string)
    requires Arranged(list, done, entries)
    ensures Arranged(Without(list, k), done, entries)
  {
    hide MayFollow;
    forall i: nat, j: nat | i < j < |Without(list, k)| ensures MayFollow(done, entries, Without(list, k)[i], Without(list, k)[j]) {
      var i', j' := WithoutPairs(list, k, i, j);
    }
  }

  lemma ArrangedBack(list: seq<string>, done: set<string>, entries: map<string, Entry>, k: string)
    requires Arranged(list, done, entries)
    ensures Arranged(ToBack(list, k), done + {k}, entries)
  {
    ArrangedWithout(list, done, entries, k);
    WithoutHolds(list, k);
    var rest := Without(list, k);
    forall i | 0 <= i < |rest| ensures rest[i] != k {
      assert rest[i] in rest;
    }
  }

  lemma {:induction false} TouchedArranged(list: seq<string>, keys: seq<string>, known: map<string, Entry>)
    requires Arranged(list, {}, known)
    ensures Arranged(Touched(list, keys, known), (set k | k in keys && k in known), known)
  {
    hide Arranged;
    if keys == [] {
      assert (set k | k in keys && k in known) == {};
    } else {
      var most, last := keys[..|keys| - 1], keys[|keys| - 1];
      assert keys == most + [last];
      TouchedArranged(list, most, known);
      var done := set k | k in most && k in known;
      ArrangedBack(Touched(list, most, known), done, known, last);
      assert (set k | k in keys && k in known) == if last in known then done + {last} else done;
    }
  }

  lemma {:induction false} BackArranged(list: seq<string>, done: set<string>, keys: seq<string>, entries: map<string, Entry>)
    requires Arranged(list, done, entries)
    ensures Arranged(AllToBack(list, keys), done + Elements(keys), entries)
  {
    hide Arranged;
    if keys == [] {
      assert done + Elements(keys) == done;
    } else {
      var most, last := keys[..|keys| - 1], keys[|keys| - 1];
      assert keys == most + [last];
      BackArranged(list, done, most, entries);
      ArrangedBack(AllToBack(list, most), done + Elements(most), entries, last);
      assert done + Elements(keys) == done + Elements(most) + {last};
    }
  }

  lemma {:induction false} SettledArranged(list: seq<string>, keys: seq<string>, entries: map<string, Entry>, success: bool)
    requires Arranged(list, {}, entries)
    ensures Arranged(Settled(list, keys, entries, success), Stayed(keys, entries, success), entries)
  {
    hide Arranged, Vanishes;
    if keys == [] {
      assert Stayed(keys, entries, success) == {};
    } else {
      var most, last := keys[..|keys| - 1], keys[|keys| - 1];
      assert keys == most + [last];
      SettledArranged(list, most, entries, success);
      var before := Settled(list, most, entries, success);
      ArrangedWithout(before, Stayed(most, entries, success), entries, last);
      ArrangedBack(before, Stayed(most, entries, success), entries, last);
      if last in entries && Vanishes(entries[last], success) {
        assert Stayed(keys, entries, success) == Stayed(most, entries, success);
      } else {
        assert Stayed(keys, entries, success) == Stayed(most, entries, success) + {last};
      }
    }
  }

  /** The keys of an attempt that keep their entries when it is settled. */
  ghost function Stayed(keys: seq<string>, entries: map<string, Entry>, success: bool): set<string> {
    set k | k in keys && !(k in entries && Vanishes(entries[k], success))
  }

  lemma Unmoved(list: seq<string>, entries: map<string, Entry>)
    requires BySeen(list, entries)
    ensures Arranged(list, {}, entries)
  {
  }

  /** Moving what was just seen to the back keeps the list in order. */
  lemma InOrderAgain(list: seq<string>, done: set<string>, before: map<string, Entry>, after: map<string, Entry>, now: int)
    requires Arranged(list, done, before) && Mirrors(list, after)
    requires forall k :: k in after ==> if k in done then after[k].lastSeen == now else k in before && after[k].lastSeen == before[k].lastSeen
    requires forall k :: k in before ==> before[k].lastSeen <= now
    ensures BySeen(list, after) && forall k :: k in after ==> after[k].lastSeen <= now
  {
    forall i, j | 0 <= i < j < |list|
      ensures list[i] in after && list[j] in after && after[list[i]].lastSeen <= after[list[j]].lastSeen
    {
      assert list[i] in list && list[j] in list;
      assert MayFollow(done, before, list[i], list[j]);
    }
  }

  lemma {:induction false} PurgeKeepsOrder(cfg: Config, t: Table, now: int)
    requires BySeen(t.lru, t.entries) && Mirrors(t.lru, t.entries)
    ensures BySeen(Purge(cfg, t, now).lru, Purge(cfg, t, now).entries)
    decreases |t.lru|
  {
    if !(cfg.entryTtl <= 0 || t.lru == [] || t.lru[0] !in t.entries || !Stale(cfg, t.entries[t.lru[0]], now)) {
      MirrorsPop(t.lru, t.entries);
      var rest := Table(t.entries - {t.lru[0]}, t.lru[1..]);
      forall i, j | 0 <= i < j < |rest.lru|
        ensures rest.lru[i] in rest.entries && rest.lru[j] in rest.entries &&
                rest.entries[rest.lru[i]].lastSeen <= rest.entries[rest.lru[j]].lastSeen
      {
        assert rest.lru[i] == t.lru[i + 1] && rest.lru[j] == t.lru[j + 1];
        assert rest.lru[i] in rest.lru && rest.lru[j] in rest.lru;
      }
      PurgeKeepsOrder(cfg, rest, now);
    }
  }

  /** The list is in order, and nothing was seen after the given time. */
  ghost predicate Tidy(s: Throttle, now: int) {
    BySeen(s.lru, s.entries) && forall k :: k in s.entries ==> s.entries[k].lastSeen <= now
  }

  lemma TidyBegin(cfg: Config, s: Throttle, call: Call, t: Throttle)
    requires call.Begin? && Mirrors(s.lru, s.entries) && Steps(cfg, s, call, t) && Tidy(s, call.now)
    ensures Tidy(t, call.now)
  {
    var p := Purge(cfg, Table(s.entries, s.lru), call.now);
    PurgeKeepsOrder(cfg, Table(s.entries, s.lru), call.now);
    PurgeDropsStale(cfg, Table(s.entries, s.lru), call.now);
    hide Mirrors, Purge, NoneRefuses, Fits, LongestWait, Told, Arranged, BySeen, ReservedAll, SeenAll, TurnedList;
    if call.answer.allowed {
      TidyReserved(p, call.keys, t, call.now);
    } else {
      TidyRefused(p, call.keys, t, call.now);
    }
  }

  lemma TidyReserved(p: Table, keys: seq<string>, t: Throttle, now: int)
    requires BySeen(p.lru, p.entries) && forall k :: k in p.entries ==> p.entries[k].lastSeen <= now
    requires ReservedAll(p.entries, t.entries, keys, now) && t.lru == TurnedList(p.lru, p.entries, keys, true) && Mirrors(t.lru, t.entries)
    ensures Tidy(t, now)
  {
    hide Mirrors, Arranged, BySeen;
    Unmoved(p.lru, p.entries);
    TouchedArranged(p.lru, keys, p.entries);
    var touched := set k | k in keys && k in p.entries;
    BackArranged(Touched(p.lru, keys, p.entries), touched, keys, p.entries);
    assert touched + Elements(keys) == Elements(keys);
    InOrderAgain(t.lru, Elements(keys), p.entries, t.entries, now);
  }

  lemma TidyRefused(p: Table, keys: seq<string>, t: Throttle, now: int)
    requires BySeen(p.lru, p.entries) && forall k :: k in p.entries ==> p.entries[k].lastSeen <= now
    requires SeenAll(p.entries, t.entries, keys, now) && t.lru == TurnedList(p.lru, p.entries, keys, false) && Mirrors(t.lru, t.entries)
    ensures Tidy(t, now)
  {
    hide Mirrors, Arranged, BySeen;
    Unmoved(p.lru, p.entries);
    TouchedArranged(p.lru, keys, p.entries);
    InOrderAgain(t.lru, (set k | k in keys && k in p.entries), p.entries, t.entries, now);
  }

  lemma TidyFail(cfg: Config, s: Throttle, call: Call, t: Throttle)
    requires call.Fail? && Steps(cfg, s, call, t) && Tidy(s, call.now)
    ensures Tidy(t, call.now)
  {
    hide Mirrors, Arranged, BySeen, DelaySpec, Answers, Told;
    if Active(s.attempts, call.id) {
      var keys := s.attempts[call.id].keys;
      Unmoved(s.lru, s.entries);
      BackArranged(s.lru, {}, keys, s.entries);
      assert {} + Elements(keys) == Elements(keys);
      InOrderAgain(t.lru, Elements(keys), s.entries, t.entries, call.now);
    }
  }

  lemma TidyFinish(cfg: Config, s: Throttle, call: Call, t: Throttle)
    requires call.Finish? && Steps(cfg, s, call, t) && Tidy(s, call.now)
    ensures Tidy(t, call.now)
  {
    hide Mirrors, Arranged, BySeen;
    if Active(s.attempts, call.id) {
      var keys := s.attempts[call.id].keys;
      Unmoved(s.lru, s.entries);
      SettledArranged(s.lru, keys, s.entries, call.success);
      InOrderAgain(t.lru, Stayed(keys, s.entries, call.success), s.entries, t.entries, call.now);
    }
  }

  /** In every run whose clock does not run backwards, the list is in the order the identities were last seen. */
  lemma {:induction false} ListIsBySeen(cfg: Config, states: seq<Throttle>, calls: seq<Call>, n: nat)
    requires IsRun(cfg, states, calls) && InOrder(calls) && n <= |calls|
    ensures BySeen(states[n].lru, states[n].entries) && (n > 0 ==> Tidy(states[n], calls[n - 1].now))
  {
    hide Steps, BySeen, Kept;
    if n == 0 {
      assert BySeen(EMPTY.lru, EMPTY.entries) by { EmptyBySeen(); }
    } else {
      ListIsBySeen(cfg, states, calls, n - 1);
      RunKept(cfg, states, calls, n - 1);
      KeptList(cfg, states[n - 1]);
      assert Steps(cfg, states[n - 1], calls[n - 1], states[n]);
      assert n > 1 ==> calls[n - 2].now <= calls[n - 1].now;
      var s, call, t := states[n - 1], calls[n - 1], states[n];
      match call
      case Begin(_, _, _) => TidyBegin(cfg, s, call, t);
      case Fail(_, _, _) => TidyFail(cfg, s, call, t);
      case Finish(_, _, _) => TidyFinish(cfg, s, call, t);
    }
  }

  lemma EmptyBySeen()
    ensures BySeen([], map[])
  {
  }

  // ---------- Reports ----------

  /** A refused attempt and a failure are worth a report. */
  predicate Worth(s: Throttle, call: Call) {
    (call.Begin? && !call.answer.allowed) || (call.Fail? && Active(s.attempts, call.id))
  }

  predicate Reported(call: Call) {
    !call.Finish? && call.answer.report
  }

  ghost predicate LastReport(calls: seq<Call>, i: nat, n: nat) {
    i < n <= |calls| && Reported(calls[i]) && forall j :: i < j < n ==> !Reported(calls[j])
  }

  ghost predicate NoReport(calls: seq<Call>, n: nat) {
    forall j :: 0 <= j < n && j < |calls| ==> !Reported(calls[j])
  }

  lemma ReportStep(cfg: Config, s: Throttle, call: Call, t: Throttle)
    requires Steps(cfg, s, call, t)
    ensures Reported(call) <==> Worth(s, call) && Reports(cfg, s.lastEvent, call.now)
    ensures t.lastEvent == if Reported(call) then call.now else s.lastEvent
  {
    hide Mirrors, Purge, Begins, FailedAll, FinishedAll, TurnedList, AllToBack, Settled, Answers, Reports;
  }

  /** The time of the last report, or the zero time before the first. */
  ghost predicate IsLastReport(calls: seq<Call>, n: nat, time: int) {
    (NoReport(calls, n) && time == ZERO_TIME) || exists i: nat :: LastReport(calls, i, n) && time == calls[i].now
  }

  lemma {:induction false} LastEventIsLastReport(cfg: Config, states: seq<Throttle>, calls: seq<Call>, n: nat)
    requires IsRun(cfg, states, calls) && n <= |calls|
    ensures IsLastReport(calls, n, states[n].lastEvent)
  {
    hide Steps, Reported, IsLastReport;
    if n == 0 {
      NeverReported(calls);
    } else {
      LastEventIsLastReport(cfg, states, calls, n - 1);
      assert Steps(cfg, states[n - 1], calls[n - 1], states[n]);
      ReportStep(cfg, states[n - 1], calls[n - 1], states[n]);
      NextReport(calls, n - 1, states[n - 1].lastEvent);
    }
  }

  lemma NeverReported(calls: seq<Call>)
    ensures IsLastReport(calls, 0, ZERO_TIME)
  {
  }

  lemma NextReport(calls: seq<Call>, n: nat, time: int)
    requires n < |calls| && IsLastReport(calls, n, time)
    ensures IsLastReport(calls, n + 1, if Reported(calls[n]) then calls[n].now else time)
  {
    hide Reported;
    if Reported(calls[n]) {
      assert LastReport(calls, n, n + 1);
    } else if i: nat :| LastReport(calls, i, n) && time == calls[i].now {
      assert LastReport(calls, i, n + 1);
    }
  }

  /** Something is reported if and only if it is worth it and the last report is a window away. */
  lemma ReportsAreSpaced(cfg: Config, states: seq<Throttle>, calls: seq<Call>, n: nat)
    requires IsRun(cfg, states, calls) && InOrder(calls) && n < |calls| && forall i :: 0 <= i < |calls| ==> calls[i].now > 0
    ensures Reported(calls[n]) <==>
            && Worth(states[n], calls[n])
            && (cfg.eventWindow <= 0 || forall i :: 0 <= i < n && Reported(calls[i]) ==> calls[n].now >= calls[i].now + cfg.eventWindow)
  {
    assert Steps(cfg, states[n], calls[n], states[n + 1]);
    hide Steps, Reported, Worth;
    ReportStep(cfg, states[n], calls[n], states[n + 1]);
    LastEventIsLastReport(cfg, states, calls, n);
    if i: nat :| LastReport(calls, i, n) && states[n].lastEvent == calls[i].now {
      assert forall j :: 0 <= j < n && Reported(calls[j]) ==> j <= i && calls[j].now <= calls[i].now;
    }
  }
}
