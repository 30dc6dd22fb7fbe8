/**
 * The login throttle: a map of identities and an LRU list, where every attempt reserves capacity on all of
 * its identities and is finished once.  Handing out an attempt appends it to `attempts`.
 */
module LoginThrottling {
  import opened Doubling
  import opened Lists

  const SECOND := 1_000_000_000
  const ZERO_TIME := 0

  datatype Config = Config(threshold: int, baseDelay: int, maxDelay: int, entryTtl: int, eventWindow: int, maxEntries: int)

  datatype Entry = Entry(failures: int, inFlight: int, blockedUntil: int, lastSeen: int)

  datatype Attempt = Attempt(keys: seq<string>, active: bool)

  datatype Decision = Decision(allowed: bool, retryAfter: int, report: bool)

  const ALLOWED := Decision(true, 0, false)

  predicate Enabled(cfg: Config) {
    cfg.threshold > 0 && cfg.maxEntries > 0
  }

  /** The identities of a login: the normalized address, if there is one, and the digest of the user name. */
  function Keys(ip: string, digest: string): (keys: seq<string>)
    ensures Distinct(keys) && 1 <= |keys| <= 2
  {
    var user := "username:" + digest;
    if ip == "" then [user]
    else
      assert ("ip:" + ip)[0] != user[0];
      ["ip:" + ip, user]
  }

  // ---------- Delay after failures ----------

  function MaximumDelay(cfg: Config): int {
    if cfg.maxDelay <= 0 then cfg.baseDelay else cfg.maxDelay
  }

  /** The base delay doubled for every failure past the threshold, up to the maximum. */
  function DelaySpec(cfg: Config, failures: int): int {
    if failures < cfg.threshold || cfg.baseDelay <= 0 then 0
    else Min(MaximumDelay(cfg), Times(cfg.baseDelay, Pow2(failures - cfg.threshold)))
  }

  ghost predicate Doublings(cfg: Config, values: seq<int>) {
    forall i :: 0 <= i < |values| ==> values[i] == Times(cfg.baseDelay, Pow2(i)) <= MaximumDelay(cfg)
  }

  lemma OneMoreDoubling(cfg: Config, values: seq<int>, value: int)
    requires Doublings(cfg, values) && value == Times(cfg.baseDelay, Pow2(|values|)) <= MaximumDelay(cfg)
    ensures Doublings(cfg, values + [value])
  {
  }

  /** The values the delay takes on the way are the base delay doubled again and again, none above the maximum. */
  method FailureDelay(cfg: Config, failures: int) returns (delay: int, ghost values: seq<int>)
    ensures delay == DelaySpec(cfg, failures)
    ensures Doublings(cfg, values)
    ensures values != [] <==> failures >= cfg.threshold && 0 < cfg.baseDelay < MaximumDelay(cfg)
    ensures values != [] ==> delay == values[|values| - 1] || delay == MaximumDelay(cfg)
  {
    assert Doublings(cfg, []);
    hide Times, Pow2, Doublings;
    values := [];
    if failures < cfg.threshold || cfg.baseDelay <= 0 {
      return 0, [];
    }
    var maximum := cfg.maxDelay;
    if maximum <= 0 {
      maximum := cfg.baseDelay;
    }
    TimesOne(cfg.baseDelay);
    if cfg.baseDelay >= maximum {
      DoublingGrows(cfg.baseDelay, 0, failures - cfg.threshold);
      return maximum, [];
    }
    delay := cfg.baseDelay;
    OneMoreDoubling(cfg, [], delay);
    values := [] + [delay];
    var steps := failures - cfg.threshold;
    while steps > 0
      invariant 0 <= steps <= failures - cfg.threshold
      invariant delay == Times(cfg.baseDelay, Pow2(failures - cfg.threshold - steps)) <= maximum
      invariant |values| == failures - cfg.threshold - steps + 1
      invariant Doublings(cfg, values) && delay == values[|values| - 1]
    {
      ghost var done := failures - cfg.threshold - steps;
      TimesDouble(cfg.baseDelay, done);
      if delay >= maximum || delay > maximum / 2 {
        DoublingGrows(cfg.baseDelay, done + 1, failures - cfg.threshold);
        return maximum, values;
      }
      delay := delay * 2;
      OneMoreDoubling(cfg, values, delay);
      values := values + [delay];
      steps := steps - 1;
    }
    if delay > maximum {
      return maximum, values;
    }
  }

  lemma DelayGrows(cfg: Config, f: int, g: int)
    requires f <= g
    ensures DelaySpec(cfg, f) <= DelaySpec(cfg, g) <= Max(0, MaximumDelay(cfg))
  {
    hide Times;
    if f >= cfg.threshold && cfg.baseDelay > 0 {
      DoublingGrows(cfg.baseDelay, f - cfg.threshold, g - cfg.threshold);
    }
    if g >= cfg.threshold && cfg.baseDelay > 0 {
      TimesOne(cfg.baseDelay);
      DoublingGrows(cfg.baseDelay, 0, g - cfg.threshold);
    }
  }

  // ---------- Entries and attempts ----------

  predicate Saturated(cfg: Config, e: Entry) {
    e.inFlight > 0 && e.failures + e.inFlight >= cfg.threshold
  }

  predicate Refuses(cfg: Config, e: Entry, now: int) {
    e.blockedUntil > now || Saturated(cfg, e)
  }

  /** How long an identity makes the caller wait. */
  function Wait(cfg: Config, e: Entry, now: int): int {
    Max(if e.blockedUntil > now then e.blockedUntil - now else 0, if Saturated(cfg, e) then cfg.baseDelay else 0)
  }

  predicate Stale(cfg: Config, e: Entry, now: int) {
    e.inFlight <= 0 && now >= e.blockedUntil && now >= e.lastSeen + cfg.entryTtl
  }

  /** The number of active attempts that hold a key. */
  function Holding(attempts: seq<Attempt>, key: string): nat {
    if attempts == [] then 0
    else
      var last := attempts[|attempts| - 1];
      Holding(attempts[..|attempts| - 1], key) + if last.active && key in last.keys then 1 else 0
  }

  lemma HoldingSnoc(attempts: seq<Attempt>, a: Attempt, key: string)
    ensures Holding(attempts + [a], key) == Holding(attempts, key) + if a.active && key in a.keys then 1 else 0
  {
    assert (attempts + [a])[..|attempts|] == attempts;
  }

  /** Finishing an attempt takes it off exactly its own keys. */
  lemma {:induction false} HoldingFinish(attempts: seq<Attempt>, id: nat, key: string)
    requires id < |attempts| && attempts[id].active
    ensures Holding(attempts[id := attempts[id].(active := false)], key) ==
            Holding(attempts, key) - if key in attempts[id].keys then 1 else 0
  {
    var finished := attempts[id := attempts[id].(active := false)];
    var n := |attempts| - 1;
    if id == n {
      assert finished[..n] == attempts[..n];
    } else {
      assert finished[..n] == attempts[..n][id := attempts[id].(active := false)];
      HoldingFinish(attempts[..n], id, key);
    }
  }

  /** What every entry satisfies: it is there for a reason, and reservations stay below the threshold. */
  predicate Sound(cfg: Config, e: Entry) {
    && e.failures >= 0 && e.inFlight >= 0 && (e.failures > 0 || e.inFlight > 0)
    && (e.inFlight <= 1 || e.failures + e.inFlight <= cfg.threshold)
  }

  ghost predicate AllSound(cfg: Config, entries: map<string, Entry>) {
    forall k :: k in entries ==> Sound(cfg, entries[k])
  }

  /** In-flight counts are the active attempts, and only keys with an entry are held. */
  ghost predicate Counted(entries: map<string, Entry>, attempts: seq<Attempt>) {
    forall k :: Holding(attempts, k) == if k in entries then entries[k].inFlight else 0
  }

  ghost predicate KeysDistinct(attempts: seq<Attempt>) {
    forall i :: 0 <= i < |attempts| ==> Distinct(attempts[i].keys)
  }

  predicate Reports(cfg: Config, lastEvent: int, now: int) {
    lastEvent == ZERO_TIME || cfg.eventWindow <= 0 || now >= lastEvent + cfg.eventWindow
  }

  // ---------- Purging ----------

  datatype Table = Table(entries: map<string, Entry>, lru: seq<string>)

  /** Entries are dropped from the front of the list as long as they are stale. */
  function Purge(cfg: Config, t: Table, now: int): Table
    decreases |t.lru|
  {
    if cfg.entryTtl <= 0 || t.lru == [] || t.lru[0] !in t.entries || !Stale(cfg, t.entries[t.lru[0]], now) then t
    else Purge(cfg, Table(t.entries - {t.lru[0]}, t.lru[1..]), now)
  }

  /** Purging removes whole entries, only stale ones, and none that an attempt holds. */
  lemma {:induction false} PurgeDropsStale(cfg: Config, t: Table, now: int)
    requires Mirrors(t.lru, t.entries)
    ensures var p := Purge(cfg, t, now);
            && Mirrors(p.lru, p.entries)
            && (forall k :: k in p.entries ==> k in t.entries && p.entries[k] == t.entries[k])
            && (forall k :: k in t.entries && k !in p.entries ==> Stale(cfg, t.entries[k], now))
    decreases |t.lru|
  {
    if !(cfg.entryTtl <= 0 || t.lru == [] || t.lru[0] !in t.entries || !Stale(cfg, t.entries[t.lru[0]], now)) {
      MirrorsPop(t.lru, t.entries);
      PurgeDropsStale(cfg, Table(t.entries - {t.lru[0]}, t.lru[1..]), now);
    }
  }

  lemma SubmapSize(t: map<string, Entry>, p: map<string, Entry>)
    requires forall k :: k in p ==> k in t
    ensures |p| <= |t|
  {
    SubsetSize(p.Keys, t.Keys);
  }

  lemma {:induction false} SubsetSize(a: set<string>, b: set<string>)
    requires a <= b
    ensures |a| <= |b|
  {
    if a != {} {
      var x :| x in a;
      SubsetSize(a - {x}, b - {x});
    }
  }

  // ---------- What an attempt does to the entries ----------

  ghost predicate NoneRefuses(cfg: Config, entries: map<string, Entry>, keys: seq<string>, now: int) {
    forall k :: k in keys && k in entries ==> !Refuses(cfg, entries[k], now)
  }

  function Absent(entries: map<string, Entry>, keys: seq<string>): nat {
    if keys == [] then 0
    else Absent(entries, keys[..|keys| - 1]) + if keys[|keys| - 1] in entries then 0 else 1
  }

  function LongestWait(cfg: Config, entries: map<string, Entry>, keys: seq<string>, now: int): int {
    if keys == [] then 0
    else
      var last := keys[|keys| - 1];
      var before := LongestWait(cfg, entries, keys[..|keys| - 1], now);
      if last in entries && Refuses(cfg, entries[last], now) then Max(before, Wait(cfg, entries[last], now)) else before
  }

  /** The list after the known ones among the keys were seen, one after the other. */
  function Touched(list: seq<string>, keys: seq<string>, known: map<string, Entry>): seq<string> {
    if keys == [] then list
    else
      var last, before := keys[|keys| - 1], Touched(list, keys[..|keys| - 1], known);
      if last in known then ToBack(before, last) else before
  }

  /** The list after all keys were moved to its back, one after the other. */
  function AllToBack(list: seq<string>, keys: seq<string>): seq<string> {
    if keys == [] then list else ToBack(AllToBack(list, keys[..|keys| - 1]), keys[|keys| - 1])
  }

  /** The list after an attempt was allowed or refused. */
  function TurnedList(list: seq<string>, known: map<string, Entry>, keys: seq<string>, allowed: bool): seq<string> {
    if allowed then AllToBack(Touched(list, keys, known), keys) else Touched(list, keys, known)
  }

  /** The list after the attempt on the keys was finished. */
  function Settled(list: seq<string>, keys: seq<string>, entries: map<string, Entry>, success: bool): seq<string> {
    if keys == [] then list
    else
      var last, before := keys[|keys| - 1], Settled(list, keys[..|keys| - 1], entries, success);
      if last in entries && Vanishes(entries[last], success) then Without(before, last) else ToBack(before, last)
  }

  /** A key's entry after a reservation on it. */
  function Reserved(entries: map<string, Entry>, k: string, now: int): Entry {
    var e := if k in entries then entries[k] else Entry(0, 0, ZERO_TIME, now);
    e.(inFlight := e.inFlight + 1, lastSeen := now)
  }

  /** All keys are reserved and nothing else changes. */
  ghost predicate ReservedAll(before: map<string, Entry>, after: map<string, Entry>, keys: seq<string>, now: int) {
    && (forall k :: k in after <==> k in before || k in keys)
    && (forall k :: k in after ==> after[k] == if k in keys then Reserved(before, k, now) else before[k])
  }

  /** Known keys are marked as seen and nothing else changes. */
  ghost predicate SeenAll(before: map<string, Entry>, after: map<string, Entry>, keys: seq<string>, now: int) {
    && (forall k :: k in after <==> k in before)
    && (forall k :: k in after ==> after[k] == if k in keys then before[k].(lastSeen := now) else before[k])
  }

  function Failed(cfg: Config, e: Entry, now: int): Entry {
    var delay := DelaySpec(cfg, e.failures + 1);
    Entry(e.failures + 1, e.inFlight - 1, if delay > 0 then now + delay else e.blockedUntil, now)
  }

  function LongestDelay(cfg: Config, entries: map<string, Entry>, keys: seq<string>): int {
    if keys == [] then 0
    else
      var last := keys[|keys| - 1];
      var before := LongestDelay(cfg, entries, keys[..|keys| - 1]);
      if last in entries then Max(before, DelaySpec(cfg, entries[last].failures + 1)) else before
  }

  ghost predicate FailedAll(cfg: Config, before: map<string, Entry>, after: map<string, Entry>, keys: seq<string>, now: int) {
    && (forall k :: k in after <==> k in before)
    && (forall k :: k in after ==> after[k] == if k in keys then Failed(cfg, before[k], now) else before[k])
  }

  /** An entry after its attempt succeeded or was canceled. */
  function Finished(e: Entry, success: bool, now: int): Entry {
    Entry(if success then 0 else e.failures, e.inFlight - 1, if success then ZERO_TIME else e.blockedUntil, now)
  }

  predicate Vanishes(e: Entry, success: bool) {
    e.inFlight == 1 && (success || e.failures == 0)
  }

  ghost predicate FinishedAll(before: map<string, Entry>, after: map<string, Entry>, keys: seq<string>, success: bool, now: int) {
    && (forall k :: k in after <==> k in before && !(k in keys && Vanishes(before[k], success)))
    && (forall k :: k in after ==> after[k] == if k in keys then Finished(before[k], success, now) else before[k])
  }

  // ---------- The counting stays exact ----------

  lemma ReservingCounts(cfg: Config, before: map<string, Entry>, after: map<string, Entry>, attempts: seq<Attempt>,
                        keys: seq<string>, now: int)
    requires Enabled(cfg) && Counted(before, attempts) && AllSound(cfg, before) && NoneRefuses(cfg, before, keys, now)
    requires ReservedAll(before, after, keys, now)
    ensures Counted(after, attempts + [Attempt(keys, true)]) && AllSound(cfg, after)
  {
    forall k ensures Holding(attempts + [Attempt(keys, true)], k) == if k in after then after[k].inFlight else 0 {
      HoldingSnoc(attempts, Attempt(keys, true), k);
    }
  }

  lemma RefusingCounts(cfg: Config, before: map<string, Entry>, after: map<string, Entry>, attempts: seq<Attempt>,
                       keys: seq<string>, now: int)
    requires Counted(before, attempts) && AllSound(cfg, before) && SeenAll(before, after, keys, now)
    ensures Counted(after, attempts + [Attempt([], false)]) && AllSound(cfg, after)
  {
    forall k ensures Holding(attempts + [Attempt([], false)], k) == if k in after then after[k].inFlight else 0 {
      HoldingSnoc(attempts, Attempt([], false), k);
    }
  }

  /** An active attempt holds an entry for each of its keys. */
  lemma {:induction false} ActiveIsHeld(attempts: seq<Attempt>, id: nat, k: string)
    requires id < |attempts| && attempts[id].active && k in attempts[id].keys
    ensures Holding(attempts, k) >= 1
  {
    if id < |attempts| - 1 {
      ActiveIsHeld(attempts[..|attempts| - 1], id, k);
    }
  }

  lemma HeldKeysHaveEntries(entries: map<string, Entry>, attempts: seq<Attempt>, id: nat)
    requires Counted(entries, attempts) && id < |attempts| && attempts[id].active
    ensures forall k :: k in attempts[id].keys ==> k in entries && entries[k].inFlight >= 1
  {
    forall k | k in attempts[id].keys ensures k in entries && entries[k].inFlight >= 1 {
      ActiveIsHeld(attempts, id, k);
    }
  }

  lemma FailingCounts(cfg: Config, before: map<string, Entry>, after: map<string, Entry>, attempts: seq<Attempt>, id: nat, now: int)
    requires Counted(before, attempts) && AllSound(cfg, before) && id < |attempts| && attempts[id].active
    requires FailedAll(cfg, before, after, attempts[id].keys, now)
    ensures Counted(after, attempts[id := attempts[id].(active := false)]) && AllSound(cfg, after)
  {
    hide DelaySpec;
    HeldKeysHaveEntries(before, attempts, id);
    forall k ensures Holding(attempts[id := attempts[id].(active := false)], k) == if k in after then after[k].inFlight else 0 {
      HoldingFinish(attempts, id, k);
    }
  }

  lemma FinishingCounts(cfg: Config, before: map<string, Entry>, after: map<string, Entry>, attempts: seq<Attempt>, id: nat,
                        success: bool, now: int)
    requires Counted(before, attempts) && AllSound(cfg, before) && id < |attempts| && attempts[id].active
    requires FinishedAll(before, after, attempts[id].keys, success, now)
    ensures Counted(after, attempts[id := attempts[id].(active := false)]) && AllSound(cfg, after)
  {
    HeldKeysHaveEntries(before, attempts, id);
    forall k ensures Holding(attempts[id := attempts[id].(active := false)], k) == if k in after then after[k].inFlight else 0 {
      HoldingFinish(attempts, id, k);
    }
  }

  lemma PurgingCounts(cfg: Config, t: Table, attempts: seq<Attempt>, now: int)
    requires Mirrors(t.lru, t.entries) && Counted(t.entries, attempts) && AllSound(cfg, t.entries)
    ensures var p := Purge(cfg, t, now);
            Mirrors(p.lru, p.entries) && Counted(p.entries, attempts) && AllSound(cfg, p.entries) && |p.entries| <= |t.entries|
  {
    PurgeDropsStale(cfg, t, now);
    SubmapSize(t.entries, Purge(cfg, t, now).entries);
  }

  lemma {:induction false} ReservingSize(before: map<string, Entry>, keys: seq<string>)
    requires Distinct(keys)
    ensures |before.Keys + Elements(keys)| == |before| + Absent(before, keys)
  {
    if keys == [] {
      assert before.Keys + Elements(keys) == before.Keys;
    } else {
      var i := |keys| - 1;
      NextKey(keys, i);
      ReservingSize(before, keys[..i]);
      OneMore(before.Keys, keys, i);
    }
  }

  lemma OneMore(known: set<string>, keys: seq<string>, i: nat)
    requires i == |keys| - 1 && keys[i] !in keys[..i]
    ensures |known + Elements(keys)| == |known + Elements(keys[..i])| + if keys[i] in known then 0 else 1
  {
    var some := known + Elements(keys[..i]);
    assert keys == keys[..i] + [keys[i]];
    assert known + Elements(keys) == some + {keys[i]};
    if keys[i] in known {
      assert some + {keys[i]} == some;
    } else {
      assert keys[i] !in some;
    }
  }

  /** The keys are handled one after the other, and each is new when its turn comes. */
  lemma NextKey(keys: seq<string>, i: nat)
    requires Distinct(keys) && i < |keys|
    ensures keys[i] !in keys[..i] && Distinct(keys[..i])
    ensures keys[..i + 1] == keys[..i] + [keys[i]] && keys[..i + 1][..i] == keys[..i] && keys[..i + 1][i] == keys[i]
    ensures i + 1 == |keys| ==> keys[..i + 1] == keys
  {
  }

  lemma SeenNext(before: map<string, Entry>, after: map<string, Entry>, keys: seq<string>, k: string, now: int)
    requires SeenAll(before, after, keys, now) && k !in keys
    ensures k in after <==> k in before
    ensures if k in after then after[k] == before[k] && SeenAll(before, after[k := after[k].(lastSeen := now)], keys + [k], now)
            else SeenAll(before, after, keys + [k], now)
  {
  }

  lemma ReservedNext(before: map<string, Entry>, after: map<string, Entry>, keys: seq<string>, k: string, now: int)
    requires ReservedAll(before, after, keys, now) && k !in keys
    ensures ReservedAll(before, after[k := Reserved(after, k, now)], keys + [k], now)
  {
  }

  lemma ConsultedNext(cfg: Config, entries: map<string, Entry>, keys: seq<string>, k: string, now: int)
    ensures NoneRefuses(cfg, entries, keys + [k], now) <==>
            NoneRefuses(cfg, entries, keys, now) && (k in entries ==> !Refuses(cfg, entries[k], now))
    ensures LongestWait(cfg, entries, keys + [k], now) ==
            Max(LongestWait(cfg, entries, keys, now), if k in entries then Wait(cfg, entries[k], now) else 0)
  {
    assert (keys + [k])[..|keys|] == keys;
    WaitIsPositive(cfg, entries, keys, now);
    assert k in keys + [k];
  }

  lemma ConsultNone(cfg: Config, entries: map<string, Entry>, now: int)
    ensures SeenAll(entries, entries, [], now) && NoneRefuses(cfg, entries, [], now) && LongestWait(cfg, entries, [], now) == 0
  {
  }

  lemma ReserveNone(entries: map<string, Entry>, lru: seq<string>, now: int)
    ensures ReservedAll(entries, entries, [], now) && EndsWith(lru, [])
  {
  }

  lemma {:induction false} WaitIsPositive(cfg: Config, entries: map<string, Entry>, keys: seq<string>, now: int)
    ensures LongestWait(cfg, entries, keys, now) >= 0
  {
    if keys != [] {
      WaitIsPositive(cfg, entries, keys[..|keys| - 1], now);
    }
  }

  /** Marking keys as seen before reserving them makes no difference. */
  lemma ReserveAfterSeen(before: map<string, Entry>, seen: map<string, Entry>, after: map<string, Entry>, keys: seq<string>, now: int)
    requires SeenAll(before, seen, keys, now) && ReservedAll(seen, after, keys, now)
    ensures ReservedAll(before, after, keys, now)
  {
  }

  lemma {:induction false} SameAbsent(before: map<string, Entry>, seen: map<string, Entry>, keys: seq<string>)
    requires forall k :: k in seen <==> k in before
    ensures Absent(before, keys) == Absent(seen, keys) && |before| == |seen|
  {
    assert before.Keys == seen.Keys;
    if keys != [] {
      SameAbsent(before, seen, keys[..|keys| - 1]);
    }
  }

  lemma {:induction false} NoWait(cfg: Config, entries: map<string, Entry>, keys: seq<string>, now: int)
    requires NoneRefuses(cfg, entries, keys, now)
    ensures LongestWait(cfg, entries, keys, now) == 0
  {
    if keys != [] {
      NoWait(cfg, entries, keys[..|keys| - 1], now);
    }
  }

  /** The attempt handed out with a decision. */
  function Handle(d: Decision, keys: seq<string>): Attempt {
    if d.allowed then Attempt(keys, true) else Attempt([], false)
  }

  lemma KeysDistinctSnoc(attempts: seq<Attempt>, keys: seq<string>)
    requires KeysDistinct(attempts) && Distinct(keys)
    ensures KeysDistinct(attempts + [Attempt(keys, true)]) && KeysDistinct(attempts + [Attempt([], false)])
  {
  }

  lemma NothingHeld(cfg: Config, entries: map<string, Entry>, attempts: seq<Attempt>)
    requires Counted(entries, attempts) && AllSound(cfg, entries)
    ensures Counted(entries, attempts + [Attempt([], false)])
  {
    assert SeenAll(entries, entries, [], 0);
    RefusingCounts(cfg, entries, entries, attempts, [], 0);
  }

  lemma SeenKeys(before: map<string, Entry>, seen: map<string, Entry>, keys: seq<string>, now: int)
    requires SeenAll(before, seen, keys, now)
    ensures Absent(before, keys) == Absent(seen, keys) && |before| == |seen|
  {
    SameAbsent(before, seen, keys);
  }

  lemma FailNone(cfg: Config, entries: map<string, Entry>, now: int)
    ensures FailedAll(cfg, entries, entries, [], now) && LongestDelay(cfg, entries, []) == 0
  {
  }

  lemma FailedNext(cfg: Config, before: map<string, Entry>, after: map<string, Entry>, keys: seq<string>, k: string, now: int)
    requires FailedAll(cfg, before, after, keys, now) && k !in keys && k in before
    ensures k in after && after[k] == before[k] && FailedAll(cfg, before, after[k := Failed(cfg, before[k], now)], keys + [k], now)
    ensures LongestDelay(cfg, before, keys + [k]) == Max(LongestDelay(cfg, before, keys), DelaySpec(cfg, before[k].failures + 1))
    ensures DelaySpec(cfg, before[k].failures + 1) >= 0
  {
    assert (keys + [k])[..|keys|] == keys;
    DelayGrows(cfg, cfg.threshold - 1, Max(cfg.threshold - 1, before[k].failures + 1));
    hide DelaySpec;
  }

  lemma FailedKeys(cfg: Config, before: map<string, Entry>, after: map<string, Entry>, keys: seq<string>, now: int)
    requires FailedAll(cfg, before, after, keys, now)
    ensures |after| == |before|
  {
    assert after.Keys == before.Keys;
  }

  lemma FinishNone(entries: map<string, Entry>, success: bool, now: int)
    ensures FinishedAll(entries, entries, [], success, now)
  {
  }

  lemma FinishedNext(before: map<string, Entry>, after: map<string, Entry>, keys: seq<string>, k: string, success: bool, now: int)
    requires FinishedAll(before, after, keys, success, now) && k !in keys && k in before
    ensures k in after && after[k] == before[k]
    ensures Vanishes(before[k], success) ==> FinishedAll(before, after - {k}, keys + [k], success, now)
    ensures !Vanishes(before[k], success) ==>
              FinishedAll(before, after[k := Finished(before[k], success, now)], keys + [k], success, now)
  {
  }

  lemma FinishedKeys(before: map<string, Entry>, after: map<string, Entry>, keys: seq<string>, success: bool, now: int)
    requires FinishedAll(before, after, keys, success, now)
    ensures |after| <= |before|
  {
    SubmapSize(before, after);
  }

  predicate Fits(cfg: Config, entries: map<string, Entry>, keys: seq<string>) {
    |entries| + Absent(entries, keys) <= cfg.maxEntries
  }

  /** Whether an attempt on a purged table is allowed, and what that does to the table. */
  ghost predicate Turns(cfg: Config, before: map<string, Entry>, after: map<string, Entry>, keys: seq<string>, now: int, allowed: bool) {
    && allowed == (NoneRefuses(cfg, before, keys, now) && Fits(cfg, before, keys))
    && (if allowed then ReservedAll(before, after, keys, now) else SeenAll(before, after, keys, now))
  }

  /** The answer to an attempt on a purged table. */
  ghost predicate Begins(cfg: Config, before: map<string, Entry>, after: map<string, Entry>, keys: seq<string>, now: int, d: Decision) {
    && Turns(cfg, before, after, keys, now, d.allowed)
    && d.retryAfter == if !NoneRefuses(cfg, before, keys, now) then LongestWait(cfg, before, keys, now)
                       else if !Fits(cfg, before, keys) then Max(cfg.baseDelay, SECOND) else 0
  }

  // ---------- Calls in any order ----------

  /** What callers do, and are answered: begin an attempt on identities, report its failure, report success or cancel it. */
  datatype Call =
    | Begin(keys: seq<string>, now: int, answer: Decision)
    | Fail(id: nat, now: int, answer: Decision)
    | Finish(id: nat, success: bool, now: int)

  datatype Throttle = Throttle(entries: map<string, Entry>, lru: seq<string>, attempts: seq<Attempt>, lastEvent: int)

  predicate Active(attempts: seq<Attempt>, id: nat) {
    id < |attempts| && attempts[id].active
  }

  /** Whether something worth an event is reported, and when the last report was. */
  ghost predicate Told(cfg: Config, before: int, after: int, now: int, worth: bool, report: bool) {
    report == (worth && Reports(cfg, before, now)) && after == if report then now else before
  }

  /** The answer to a failure. */
  ghost predicate Answers(cfg: Config, entries: map<string, Entry>, keys: seq<string>, d: Decision) {
    d.retryAfter == LongestDelay(cfg, entries, keys) && d.allowed == (d.retryAfter == 0)
  }

  /** The effect of one call. */
  ghost predicate Steps(cfg: Config, s: Throttle, call: Call, t: Throttle) {
    && Mirrors(t.lru, t.entries)
    && match call
       case Begin(keys, now, d) =>
         var p := Purge(cfg, Table(s.entries, s.lru), now);
         && Begins(cfg, p.entries, t.entries, keys, now, d) && t.lru == TurnedList(p.lru, p.entries, keys, d.allowed)
         && t.attempts == s.attempts + [Handle(d, keys)] && Told(cfg, s.lastEvent, t.lastEvent, now, !d.allowed, d.report)
       case Fail(id, now, d) =>
         if !Active(s.attempts, id) then t == s && d == ALLOWED
         else
           var keys := s.attempts[id].keys;
           && FailedAll(cfg, s.entries, t.entries, keys, now) && t.lru == AllToBack(s.lru, keys)
           && t.attempts == s.attempts[id := s.attempts[id].(active := false)]
           && Answers(cfg, s.entries, keys, d) && Told(cfg, s.lastEvent, t.lastEvent, now, true, d.report)
       case Finish(id, success, now) =>
         if !Active(s.attempts, id) then t == s
         else
           var keys := s.attempts[id].keys;
           && FinishedAll(s.entries, t.entries, keys, success, now) && t.lru == Settled(s.lru, keys, s.entries, success)
           && t.attempts == s.attempts[id := s.attempts[id].(active := false)] && t.lastEvent == s.lastEvent
  }

  lemma ReservingFits(before: map<string, Entry>, after: map<string, Entry>, keys: seq<string>, now: int)
    requires ReservedAll(before, after, keys, now) && Distinct(keys)
    ensures |after| == |before| + Absent(before, keys)
  {
    ReservingSize(before, keys);
    assert after.Keys == before.Keys + Elements(keys);
  }

  // ---------- The throttle ----------

  class LoginThrottle {
    const config: Config
    var entries: map<string, Entry>
    var lru: seq<string>
    var lastEvent: int
    var attempts: seq<Attempt>

    constructor (config: Config)
      ensures Valid() && this.config == config && Contents() == Throttle(map[], [], [], ZERO_TIME)
    {
      this.config := config;
      entries, lru, lastEvent, attempts := map[], [], ZERO_TIME, [];
    }

    ghost function Contents(): Throttle
      reads this
    {
      Throttle(entries, lru, attempts, lastEvent)
    }

    /** What holds between any two calls, whatever their order. */
    ghost predicate Valid()
      reads this
    {
      && Mirrors(lru, entries)
      && Counted(entries, attempts) && AllSound(config, entries) && KeysDistinct(attempts)
      && (if Enabled(config) then |entries| <= config.maxEntries else entries == map[])
    }

    method Touch(key: string, now: int)
      requires Mirrors(lru, entries) && key in entries
      modifies this`entries, this`lru
      ensures entries == old(entries)[key := old(entries)[key].(lastSeen := now)]
      ensures lru == ToBack(old(lru), key) && Mirrors(lru, entries)
    {
      MirrorsPut(lru, entries, key, entries[key].(lastSeen := now));
      entries := entries[key := entries[key].(lastSeen := now)];
      lru := ToBack(lru, key);
    }

    method PurgeExpired(now: int)
      requires Mirrors(lru, entries)
      modifies this`entries, this`lru
      ensures Table(entries, lru) == Purge(config, Table(old(entries), old(lru)), now) && Mirrors(lru, entries)
    {
      if config.entryTtl <= 0 {
        return;
      }
      while true
        invariant Mirrors(lru, entries)
        invariant Purge(config, Table(entries, lru), now) == Purge(config, Table(old(entries), old(lru)), now)
        decreases |lru|
      {
        if lru == [] {
          return;
        }
        MirrorsPop(lru, entries);
        var oldest := entries[lru[0]];
        if oldest.inFlight > 0 || now < oldest.blockedUntil || now < oldest.lastSeen + config.entryTtl {
          return;
        }
        entries, lru := entries - {lru[0]}, lru[1..];
      }
    }

    /** Only idle entries may be evicted; as there are none, nothing is, and a full table refuses. */
    method EnsureCapacity(required: nat, now: int) returns (ok: bool)
      requires Mirrors(lru, entries)
      modifies this`entries, this`lru
      ensures Mirrors(lru, entries)
      ensures AllSound(config, old(entries)) ==>
                entries == old(entries) && lru == old(lru) && ok == (|entries| + required <= config.maxEntries)
      ensures forall k :: k in old(entries) && k !in entries ==> old(entries)[k].failures <= 0 && old(entries)[k].inFlight <= 0
    {
      while |entries| + required > config.maxEntries
        invariant Mirrors(lru, entries)
        invariant AllSound(config, old(entries)) ==> entries == old(entries) && lru == old(lru)
        invariant forall k :: k in entries ==> k in old(entries) && entries[k] == old(entries)[k]
        invariant forall k :: k in old(entries) && k !in entries ==> old(entries)[k].failures <= 0 && old(entries)[k].inFlight <= 0
        decreases |lru|
      {
        if lru == [] {
          return false;
        }
        MirrorsPop(lru, entries);
        var oldest := entries[lru[0]];
        if oldest.inFlight > 0 || oldest.failures > 0 || now < oldest.blockedUntil {
          return false;
        }
        entries, lru := entries - {lru[0]}, lru[1..];
      }
      return true;
    }

    method ShouldReportEvent(now: int) returns (report: bool)
      modifies this`lastEvent
      ensures report == Reports(config, old(lastEvent), now)
      ensures lastEvent == if report then now else old(lastEvent)
    {
      if lastEvent != ZERO_TIME && config.eventWindow > 0 && now < lastEvent + config.eventWindow {
        return false;
      }
      lastEvent := now;
      return true;
    }

    /** Looks up every key; marks the known ones as seen. */
    method Consult(keys: seq<string>, now: int) returns (allowed: bool, retryAfter: int)
      requires Mirrors(lru, entries) && Distinct(keys)
      modifies this`entries, this`lru
      ensures Mirrors(lru, entries) && SeenAll(old(entries), entries, keys, now)
      ensures allowed == NoneRefuses(config, old(entries), keys, now)
      ensures retryAfter == LongestWait(config, old(entries), keys, now)
      ensures lru == Touched(old(lru), keys, old(entries))
    {
      hide Mirrors, SeenAll, NoneRefuses, LongestWait, Distinct, ToBack;
      allowed, retryAfter := true, 0;
      ConsultNone(config, entries, now);
      for i := 0 to |keys|
        invariant Mirrors(lru, entries) && SeenAll(old(entries), entries, keys[..i], now)
        invariant allowed == NoneRefuses(config, old(entries), keys[..i], now)
        invariant retryAfter == LongestWait(config, old(entries), keys[..i], now)
        invariant lru == Touched(old(lru), keys[..i], old(entries))
      {
        var key := keys[i];
        NextKey(keys, i);
        SeenNext(old(entries), entries, keys[..i], key, now);
        ConsultedNext(config, old(entries), keys[..i], key, now);
        WaitIsPositive(config, old(entries), keys[..i], now);
        if key in entries {
          var entry := entries[key];
          Touch(key, now);
          var remaining := entry.blockedUntil - now;
          if remaining > 0 {
            allowed := false;
            if remaining > retryAfter {
              retryAfter := remaining;
            }
          }
          if entry.inFlight > 0 && entry.failures + entry.inFlight >= config.threshold {
            allowed := false;
            if config.baseDelay > retryAfter {
              retryAfter := config.baseDelay;
            }
          }
        }
      }
      assert keys[..|keys|] == keys;
    }

    method CountAbsent(keys: seq<string>) returns (n: nat)
      ensures n == Absent(entries, keys)
    {
      n := 0;
      for i := 0 to |keys|
        invariant n == Absent(entries, keys[..i])
      {
        assert keys[..i + 1][..i] == keys[..i];
        if keys[i] !in entries {
          n := n + 1;
        }
      }
      assert keys[..|keys|] == keys;
    }

    method ReserveKeys(keys: seq<string>, now: int)
      requires Mirrors(lru, entries) && Distinct(keys)
      modifies this`entries, this`lru
      ensures Mirrors(lru, entries) && ReservedAll(old(entries), entries, keys, now) && EndsWith(lru, keys)
      ensures lru == AllToBack(old(lru), keys)
    {
      hide Mirrors, ReservedAll, Distinct, ToBack, EndsWith;
      ReserveNone(entries, lru, now);
      for i := 0 to |keys|
        invariant Mirrors(lru, entries) && ReservedAll(old(entries), entries, keys[..i], now) && EndsWith(lru, keys[..i])
        invariant lru == AllToBack(old(lru), keys[..i])
      {
        var key := keys[i];
        NextKey(keys, i);
        ReservedNext(old(entries), entries, keys[..i], key, now);
        ToBackExtendsTail(lru, keys[..i], key);
        var entry := if key in entries then entries[key] else Entry(0, 0, ZERO_TIME, now);
        entry := entry.(inFlight := entry.inFlight + 1, lastSeen := now);
        MirrorsPut(lru, entries, key, entry);
        entries, lru := entries[key := entry], ToBack(lru, key);
      }
      assert keys[..|keys|] == keys;
    }

    /** The decision on a purged table. */
    method Decide(keys: seq<string>, now: int) returns (d: Decision)
      requires Enabled(config) && Distinct(keys) && Mirrors(lru, entries) && |entries| <= config.maxEntries
      requires Counted(entries, attempts) && AllSound(config, entries)
      modifies this`entries, this`lru, this`lastEvent
      ensures Mirrors(lru, entries) && |entries| <= config.maxEntries
      ensures Counted(entries, attempts + [Handle(d, keys)]) && AllSound(config, entries)
      ensures Begins(config, old(entries), entries, keys, now, d)
      ensures lru == TurnedList(old(lru), old(entries), keys, d.allowed) && (d.allowed ==> EndsWith(lru, keys))
      ensures Told(config, old(lastEvent), lastEvent, now, !d.allowed, d.report)
    {
      hide Mirrors, Counted, AllSound, ReservedAll, SeenAll, NoneRefuses, LongestWait, Distinct, EndsWith, Absent, Reports, Touched, AllToBack, Purge;
      ghost var before := entries;
      var allowed, retryAfter := Consult(keys, now);
      RefusingCounts(config, before, entries, attempts, keys, now);
      SeenKeys(before, entries, keys, now);
      if !allowed {
        var report := ShouldReportEvent(now);
        return Decision(false, retryAfter, report);
      }
      NoWait(config, before, keys, now);
      var absent := CountAbsent(keys);
      var ok := EnsureCapacity(absent, now);
      if !ok {
        var report := ShouldReportEvent(now);
        return Decision(false, Max(config.baseDelay, SECOND), report);
      }
      ghost var seen := entries;
      ReserveKeys(keys, now);
      ReserveAfterSeen(before, seen, entries, keys, now);
      ReservingCounts(config, before, entries, attempts, keys, now);
      ReservingFits(before, entries, keys, now);
      return Decision(true, retryAfter, false);
    }

    /**
     * An attempt is allowed exactly when none of its identities is blocked or saturated and the table has
     * room; it then holds a reservation on every identity, and otherwise on none.
     */
    method BeginAttempt(ip: string, digest: string, now: int) returns (id: nat, d: Decision)
      requires Valid()
      modifies this
      ensures Valid()
      ensures id == |old(attempts)|
      ensures if !Enabled(config) then d == ALLOWED && Contents() == old(Contents()).(attempts := old(attempts) + [Attempt([], false)])
              else Steps(config, old(Contents()), Begin(Keys(ip, digest), now, d), Contents())
      ensures Enabled(config) && d.allowed ==> EndsWith(lru, Keys(ip, digest))
    {
      KeysDistinctSnoc(attempts, Keys(ip, digest));
      hide KeysDistinct, Mirrors, Counted, AllSound, Turns, Distinct, Fits, LongestWait, NoneRefuses, EndsWith, Purge, Told, Keys, TurnedList, Begins;
      id := |attempts|;
      if !Enabled(config) {
        NothingHeld(config, entries, attempts);
        attempts := attempts + [Attempt([], false)];
        return id, ALLOWED;
      }
      var keys := Keys(ip, digest);
      PurgingCounts(config, Table(entries, lru), attempts, now);
      PurgeExpired(now);
      d := Decide(keys, now);
      attempts := attempts + [Handle(d, keys)];
    }

    /** One identity of a failed attempt. */
    method FailKey(key: string, now: int) returns (delay: int)
      requires Mirrors(lru, entries) && key in entries
      modifies this`entries, this`lru
      ensures entries == old(entries)[key := Failed(config, old(entries)[key], now)] && lru == ToBack(old(lru), key)
      ensures delay == DelaySpec(config, old(entries)[key].failures + 1) && Mirrors(lru, entries)
    {
      hide Mirrors, DelaySpec, ToBack;
      var failed := entries[key];
      failed := failed.(inFlight := failed.inFlight - 1, failures := failed.failures + 1, lastSeen := now);
      ghost var values;
      delay, values := FailureDelay(config, failed.failures);
      if delay > 0 {
        failed := failed.(blockedUntil := now + delay);
      }
      MirrorsPut(lru, entries, key, failed);
      entries, lru := entries[key := failed], ToBack(lru, key);
    }

    /** One identity of an attempt that succeeded or was canceled. */
    method FinishKey(key: string, success: bool, now: int)
      requires Mirrors(lru, entries) && key in entries && entries[key].inFlight > 0
      modifies this`entries, this`lru
      ensures Mirrors(lru, entries)
      ensures var e := old(entries)[key];
              if Vanishes(e, success) then entries == old(entries) - {key} && lru == Without(old(lru), key)
              else entries == old(entries)[key := Finished(e, success, now)] && lru == ToBack(old(lru), key)
    {
      hide Mirrors, ToBack, Without;
      var entry := entries[key].(inFlight := entries[key].inFlight - 1);
      if success {
        entry := entry.(failures := 0, blockedUntil := ZERO_TIME);
      }
      if entry.inFlight == 0 && entry.failures == 0 {
        MirrorsRemove(lru, entries, key);
        entries, lru := entries - {key}, Without(lru, key);
      } else {
        MirrorsPut(lru, entries, key, entry.(lastSeen := now));
        entries, lru := entries[key := entry.(lastSeen := now)], ToBack(lru, key);
      }
    }

    /**
     * A failure of an active attempt turns its reservation on every identity into a failure and blocks those
     * that reached the threshold; on an attempt that is finished, or not of this throttle, nothing happens.
     */
    method RecordFailure(id: nat, now: int) returns (d: Decision)
      requires Valid()
      modifies this
      ensures Valid()
      ensures if !Enabled(config) then d == ALLOWED && Contents() == old(Contents())
              else Steps(config, old(Contents()), Fail(id, now, d), Contents())
      ensures Enabled(config) && Active(old(attempts), id) ==> EndsWith(lru, old(attempts)[id].keys)
    {
      ReserveNone(entries, lru, now);
      hide Mirrors, Counted, AllSound, FailedAll, Distinct, LongestDelay, DelaySpec, Reports, ToBack, EndsWith;
      if !Enabled(config) || id >= |attempts| || !attempts[id].active {
        return ALLOWED;
      }
      var keys := attempts[id].keys;
      HeldKeysHaveEntries(entries, attempts, id);
      ghost var before := entries;
      var allowed, retryAfter := true, 0;
      FailNone(config, entries, now);
      for i := 0 to |keys|
        invariant Mirrors(lru, entries) && FailedAll(config, before, entries, keys[..i], now) && EndsWith(lru, keys[..i])
        invariant lru == AllToBack(old(lru), keys[..i])
        invariant retryAfter == LongestDelay(config, before, keys[..i]) && retryAfter >= 0 && allowed == (retryAfter == 0)
        invariant lastEvent == old(lastEvent) && attempts == old(attempts)
      {
        var key := keys[i];
        NextKey(keys, i);
        assert key in before && before[key].inFlight >= 1;
        FailedNext(config, before, entries, keys[..i], key, now);
        ToBackExtendsTail(lru, keys[..i], key);
        if key in entries && entries[key].inFlight > 0 {
          var delay := FailKey(key, now);
          if delay > 0 {
            allowed := false;
            if delay > retryAfter {
              retryAfter := delay;
            }
          }
        }
      }
      assert keys[..|keys|] == keys;
      FailingCounts(config, before, entries, attempts, id, now);
      FailedKeys(config, before, entries, keys, now);
      attempts := attempts[id := attempts[id].(active := false)];
      var report := ShouldReportEvent(now);
      return Decision(allowed, retryAfter, report);
    }

    /**
     * Success clears the failures of every identity, cancelling leaves them; either way the reservation is
     * given back once, and an identity with neither failures nor reservations is forgotten.
     */
    method FinishAttempt(id: nat, success: bool, now: int)
      requires Valid()
      modifies this`entries, this`lru, this`attempts
      ensures Valid()
      ensures if !Enabled(config) then Contents() == old(Contents())
              else Steps(config, old(Contents()), Finish(id, success, now), Contents())
    {
      hide Mirrors, Counted, AllSound, FinishedAll, Distinct, ToBack, Without;
      if !Enabled(config) || id >= |attempts| || !attempts[id].active {
        return;
      }
      var keys := attempts[id].keys;
      HeldKeysHaveEntries(entries, attempts, id);
      ghost var before := entries;
      FinishNone(entries, success, now);
      for i := 0 to |keys|
        invariant Mirrors(lru, entries) && FinishedAll(before, entries, keys[..i], success, now)
        invariant lru == Settled(old(lru), keys[..i], before, success)
        invariant attempts == old(attempts)
      {
        var key := keys[i];
        NextKey(keys, i);
        assert key in before && before[key].inFlight >= 1;
        FinishedNext(before, entries, keys[..i], key, success, now);
        if key in entries && entries[key].inFlight > 0 {
          FinishKey(key, success, now);
        }
      }
      assert keys[..|keys|] == keys;
      FinishingCounts(config, before, entries, attempts, id, success, now);
      FinishedKeys(before, entries, keys, success, now);
      attempts := attempts[id := attempts[id].(active := false)];
    }
  }
}
