/**
 * The secret-reveal throttle: fixed windows over several identities at once, with a list of entries in the
 * order of their creation.
 */
module RevealThrottling {
  import opened Options
  import opened Lists
  import opened Doubling

  datatype Config = Config(limit: int, window: int, maxEntries: int)

  datatype Entry = Entry(count: int, resetAt: int)

  datatype Table = Table(entries: map<string, Entry>, order: seq<string>)

  datatype Decision = Decision(allowed: bool, retryAfter: int)

  predicate Enabled(cfg: Config) {
    cfg.limit > 0 && cfg.window > 0 && cfg.maxEntries > 0
  }

  /** The identities of a reveal: the normalized address, if there is one, the administrator and the key. */
  function Keys(ip: string, admin: string, key: string): (keys: seq<string>)
    ensures Distinct(keys) && 2 <= |keys| <= 3
  {
    var who, what := "admin:" + admin, "key:" + key;
    assert who[0] == 'a' && what[0] == 'k';
    if ip == "" then [who, what]
    else
      assert ("ip:" + ip)[0] == 'i';
      ["ip:" + ip, who, what]
  }

  // ---------- One attempt, on values ----------

  /** Entries are dropped from the front of the list as long as their window is over. */
  function Purge(t: Table, now: int): Table
    decreases |t.order|
  {
    if t.order == [] || t.order[0] !in t.entries || now < t.entries[t.order[0]].resetAt then t
    else Purge(Table(t.entries - {t.order[0]}, t.order[1..]), now)
  }

  ghost predicate NoneFull(cfg: Config, t: Table, keys: seq<string>) {
    forall k :: k in keys && k in t.entries ==> t.entries[k].count < cfg.limit
  }

  function Absent(t: Table, keys: seq<string>): nat {
    if keys == [] then 0
    else Absent(t, keys[..|keys| - 1]) + if keys[|keys| - 1] in t.entries then 0 else 1
  }

  function LongestWait(cfg: Config, t: Table, keys: seq<string>, now: int): int {
    if keys == [] then 0
    else
      var last := keys[|keys| - 1];
      var before := LongestWait(cfg, t, keys[..|keys| - 1], now);
      if last in t.entries && t.entries[last].count >= cfg.limit then Max(before, t.entries[last].resetAt - now) else before
  }

  function CountOne(cfg: Config, t: Table, k: string, now: int): Table {
    if k in t.entries then t.(entries := t.entries[k := t.entries[k].(count := t.entries[k].count + 1)])
    else Table(t.entries[k := Entry(1, now + cfg.window)], t.order + [k])
  }

  function CountAll(cfg: Config, t: Table, keys: seq<string>, now: int): Table {
    if keys == [] then t else CountOne(cfg, CountAll(cfg, t, keys[..|keys| - 1], now), keys[|keys| - 1], now)
  }

  ghost predicate Allows(cfg: Config, p: Table, keys: seq<string>) {
    NoneFull(cfg, p, keys) && |p.entries| + Absent(p, keys) <= cfg.maxEntries
  }

  /** The table after an attempt. */
  ghost function After(cfg: Config, t: Table, keys: seq<string>, now: int): Table {
    var p := Purge(t, now);
    if Allows(cfg, p, keys) then CountAll(cfg, p, keys, now) else p
  }

  class SecretRevealThrottle {
    const config: Config
    var entries: map<string, Entry>
    var order: seq<string>

    constructor (config: Config)
      ensures this.config == config && Contents() == Table(map[], [])
    {
      this.config := config;
      entries, order := map[], [];
    }

    ghost function Contents(): Table
      reads this
    {
      Table(entries, order)
    }

    method PurgeExpired(now: int)
      requires Mirrors(order, entries)
      modifies this
      ensures Contents() == Purge(old(Contents()), now) && Mirrors(order, entries)
    {
      while true
        invariant Mirrors(order, entries) && Purge(Contents(), now) == Purge(old(Contents()), now)
        decreases |order|
      {
        if order == [] {
          return;
        }
        MirrorsPop(order, entries);
        if now < entries[order[0]].resetAt {
          return;
        }
        entries, order := entries - {order[0]}, order[1..];
      }
    }

    /** An attempt is counted on every identity or on none, and the answer says which. */
    method BeginAttempt(ip: string, admin: string, key: string, now: int) returns (d: Decision)
      requires Mirrors(order, entries)
      modifies this
      ensures Mirrors(order, entries)
      ensures if !Enabled(config) then d == Decision(true, 0) && Contents() == old(Contents())
              else
                var keys, p := Keys(ip, admin, key), Purge(old(Contents()), now);
                && Contents() == After(config, old(Contents()), keys, now)
                && d.allowed == Allows(config, p, keys)
                && d.retryAfter == if !NoneFull(config, p, keys) then LongestWait(config, p, keys, now)
                                   else if !d.allowed then config.window else 0
    {
      hide Mirrors, NoneFull, LongestWait, Absent, Keys, Purge, CountAll;
      if !Enabled(config) {
        return Decision(true, 0);
      }
      var keys := Keys(ip, admin, key);
      PurgeExpired(now);
      var allowed, retryAfter := Consult(keys, now);
      if !allowed {
        return Decision(false, retryAfter);
      }
      var missing := CountAbsent(keys);
      if |entries| + missing > config.maxEntries {
        return Decision(false, config.window);
      }
      CountKeys(keys, now);
      NoWait(config, Purge(old(Contents()), now), keys, now);
      return Decision(true, retryAfter);
    }

    method Consult(keys: seq<string>, now: int) returns (allowed: bool, retryAfter: int)
      ensures allowed == NoneFull(config, Contents(), keys) && retryAfter == LongestWait(config, Contents(), keys, now)
    {
      hide NoneFull, LongestWait;
      allowed, retryAfter := true, 0;
      ConsultNone(config, Contents(), now);
      for i := 0 to |keys|
        invariant allowed == NoneFull(config, Contents(), keys[..i])
        invariant retryAfter == LongestWait(config, Contents(), keys[..i], now)
      {
        ConsultNext(config, Contents(), keys, i, now);
        if keys[i] !in entries || entries[keys[i]].count < config.limit {
          continue;
        }
        allowed := false;
        var remaining := entries[keys[i]].resetAt - now;
        if remaining > retryAfter {
          retryAfter := remaining;
        }
      }
      assert keys[..|keys|] == keys;
    }

    method CountAbsent(keys: seq<string>) returns (missing: nat)
      ensures missing == Absent(Contents(), keys)
    {
      missing := 0;
      for i := 0 to |keys|
        invariant missing == Absent(Contents(), keys[..i])
      {
        assert keys[..i + 1][..i] == keys[..i];
        if keys[i] !in entries {
          missing := missing + 1;
        }
      }
      assert keys[..|keys|] == keys;
    }

    method CountKeys(keys: seq<string>, now: int)
      requires Mirrors(order, entries)
      modifies this
      ensures Contents() == CountAll(config, old(Contents()), keys, now) && Mirrors(order, entries)
    {
      hide Mirrors;
      for i := 0 to |keys|
        invariant Contents() == CountAll(config, old(Contents()), keys[..i], now) && Mirrors(order, entries)
      {
        assert keys[..i + 1][..i] == keys[..i];
        CountOneMirrors(config, Contents(), keys[i], now);
        var entry := if keys[i] in entries then entries[keys[i]] else Entry(0, now + config.window);
        if keys[i] !in entries {
          order := order + [keys[i]];
        }
        entries := entries[keys[i] := entry.(count := entry.count + 1)];
      }
      assert keys[..|keys|] == keys;
    }
  }

  lemma ConsultNone(cfg: Config, t: Table, now: int)
    ensures NoneFull(cfg, t, []) && LongestWait(cfg, t, [], now) == 0
  {
  }

  lemma ConsultNext(cfg: Config, t: Table, keys: seq<string>, i: nat, now: int)
    requires i < |keys|
    ensures var k := keys[i];
            var full := k in t.entries && t.entries[k].count >= cfg.limit;
            && NoneFull(cfg, t, keys[..i + 1]) == (NoneFull(cfg, t, keys[..i]) && !full)
            && LongestWait(cfg, t, keys[..i + 1], now) ==
               if full then Max(LongestWait(cfg, t, keys[..i], now), t.entries[k].resetAt - now)
               else LongestWait(cfg, t, keys[..i], now)
  {
    assert keys[..i + 1][..i] == keys[..i];
    assert keys[..i + 1] == keys[..i] + [keys[i]];
    assert keys[i] in keys[..i + 1];
  }

  lemma {:induction false} NoWait(cfg: Config, t: Table, keys: seq<string>, now: int)
    ensures NoneFull(cfg, t, keys) ==> LongestWait(cfg, t, keys, now) == 0
  {
    if keys != [] {
      NoWait(cfg, t, keys[..|keys| - 1], now);
    }
  }

  lemma CountOneMirrors(cfg: Config, t: Table, k: string, now: int)
    requires Mirrors(t.order, t.entries)
    ensures var u := CountOne(cfg, t, k, now); Mirrors(u.order, u.entries)
  {
    assert forall i :: 0 <= i < |t.order| ==> t.order[i] in t.order;
  }

  // ---------- Whole runs ----------

  datatype Call = Call(keys: seq<string>, now: int)

  ghost predicate InOrder(calls: seq<Call>) {
    && (forall i, j :: 0 <= i < j < |calls| ==> calls[i].now <= calls[j].now)
    && (forall i :: 0 <= i < |calls| ==> Distinct(calls[i].keys))
  }

  ghost function TableAfter(cfg: Config, calls: seq<Call>): Table {
    if calls == [] then Table(map[], [])
    else
      var last := calls[|calls| - 1];
      After(cfg, TableAfter(cfg, calls[..|calls| - 1]), last.keys, last.now)
  }

  ghost predicate AllowedAt(cfg: Config, calls: seq<Call>, i: nat)
    requires i < |calls|
  {
    Allows(cfg, Purge(TableAfter(cfg, calls[..i]), calls[i].now), calls[i].keys)
  }

  /** When an identity was let through, in order. */
  ghost function Passes(cfg: Config, calls: seq<Call>, k: string): seq<int> {
    if calls == [] then []
    else
      var n := |calls| - 1;
      Passes(cfg, calls[..n], k) + if AllowedAt(cfg, calls, n) && k in calls[n].keys then [calls[n].now] else []
  }

  /** How many of the times lie in [lo, hi). */
  function Within(times: seq<int>, lo: int, hi: int): nat {
    if times == [] then 0
    else
      var last := times[|times| - 1];
      Within(times[..|times| - 1], lo, hi) + if lo <= last < hi then 1 else 0
  }

  function From(times: seq<int>, lo: int): nat {
    if times == [] then 0 else From(times[..|times| - 1], lo) + if lo <= times[|times| - 1] then 1 else 0
  }

  lemma WithinSnoc(times: seq<int>, t: int, lo: int, hi: int)
    ensures Within(times + [t], lo, hi) == Within(times, lo, hi) + if lo <= t < hi then 1 else 0
    ensures From(times + [t], lo) == From(times, lo) + if lo <= t then 1 else 0
  {
    assert (times + [t])[..|times|] == times;
  }

  lemma {:induction false} WithinSplit(times: seq<int>, lo: int, mid: int, hi: int)
    ensures Within(times, lo, hi) <= From(times, lo)
    ensures lo <= mid ==> From(times, lo) == Within(times, lo, mid) + From(times, mid)
  {
    if times != [] {
      WithinSplit(times[..|times| - 1], lo, mid, hi);
    }
  }

  lemma {:induction false} FromShrinks(times: seq<int>, lo: int, later: int)
    requires lo <= later
    ensures From(times, later) <= From(times, lo)
  {
    if times != [] {
      FromShrinks(times[..|times| - 1], lo, later);
    }
  }

  // ---------- One identity over time ----------

  /** No window is open: a span from here into the past holds fewer passes than the limit. */
  ghost predicate Rested(cfg: Config, times: seq<int>, now: int) {
    From(times, now) == 0 && forall s :: s > now - cfg.window ==> From(times, s) < cfg.limit
  }

  /** The open window: begun by a pass, all its passes counted, and the window before it accounted for. */
  ghost predicate Open(cfg: Config, times: seq<int>, e: Entry) {
    var begin := e.resetAt - cfg.window;
    && 1 <= e.count <= cfg.limit
    && From(times, begin) == e.count && From(times, begin + 1) < e.count
    && forall s :: begin - cfg.window < s ==> Within(times, s, begin) < cfg.limit
  }

  /** The passes in the half-open span of one window from s on. */
  function InSpan(cfg: Config, times: seq<int>, s: int): nat {
    Within(times, s, s + cfg.window)
  }

  ghost predicate Spread(cfg: Config, times: seq<int>) {
    forall s :: InSpan(cfg, times, s) < 2 * cfg.limit
  }

  /** What holds of one identity at time now: its passes, and its entry if it has one. */
  ghost predicate Kept(cfg: Config, times: seq<int>, entry: Option<Entry>, now: int) {
    && Spread(cfg, times) && From(times, now + 1) == 0
    && match entry
       case None => Rested(cfg, times, now)
       case Some(e) => now < e.resetAt <= now + cfg.window && Open(cfg, times, e)
  }

  /** As time goes on, an entry whose window is over is dropped. */
  lemma KeptLater(cfg: Config, times: seq<int>, entry: Option<Entry>, now: int, later: int)
    requires Enabled(cfg) && Kept(cfg, times, entry, now) && now <= later
    ensures Kept(cfg, times, Live(entry, later), later)
  {
    hide From, Within, Spread;
    FromShrinks(times, now + 1, later + 1);
    if entry.None? {
      FromShrinks(times, now, later);
    } else if later >= entry.value.resetAt {
      FromShrinks(times, now + 1, later);
      forall s | s > later - cfg.window ensures From(times, s) < cfg.limit {
        FromShrinks(times, entry.value.resetAt - cfg.window + 1, s);
      }
    }
  }

  /** A pass in the open window. */
  lemma KeptHit(cfg: Config, times: seq<int>, e: Entry, now: int)
    requires Enabled(cfg) && Kept(cfg, times, Some(e), now) && e.count < cfg.limit
    ensures Kept(cfg, times + [now], Some(e.(count := e.count + 1)), now)
  {
    hide From, Within;
    var begin := e.resetAt - cfg.window;
    forall s ensures InSpan(cfg, times + [now], s) < 2 * cfg.limit {
      WithinSnoc(times, now, s, s + cfg.window);
      assert InSpan(cfg, times, s) < 2 * cfg.limit;
      WithinSplit(times, s, begin, s + cfg.window);
      if s > begin {
        FromShrinks(times, begin, s);
      }
    }
    WithinSnoc(times, now, begin, 0);
    WithinSnoc(times, now, begin + 1, 0);
    WithinSnoc(times, now, now + 1, 0);
    forall s | begin - cfg.window < s ensures Within(times + [now], s, begin) < cfg.limit {
      WithinSnoc(times, now, s, begin);
    }
  }

  /** A pass that begins a window. */
  lemma KeptFirst(cfg: Config, times: seq<int>, now: int)
    requires Enabled(cfg) && Kept(cfg, times, None, now)
    ensures Kept(cfg, times + [now], Some(Entry(1, now + cfg.window)), now)
  {
    hide From, Within;
    forall s ensures InSpan(cfg, times + [now], s) < 2 * cfg.limit {
      WithinSnoc(times, now, s, s + cfg.window);
      assert InSpan(cfg, times, s) < 2 * cfg.limit;
      WithinSplit(times, s, now, s + cfg.window);
    }
    WithinSnoc(times, now, now, 0);
    WithinSnoc(times, now, now + 1, 0);
    forall s | now - cfg.window < s ensures Within(times + [now], s, now) < cfg.limit {
      WithinSnoc(times, now, s, now);
      WithinSplit(times, s, now, now);
    }
  }

  // ---------- The table over time ----------

  function EntryOf(t: Table, k: string): Option<Entry> {
    if k in t.entries then Some(t.entries[k]) else None
  }

  ghost predicate SortedByReset(t: Table) {
    forall i, j :: 0 <= i < j < |t.order| && t.order[i] in t.entries && t.order[j] in t.entries ==>
                     t.entries[t.order[i]].resetAt <= t.entries[t.order[j]].resetAt
  }

  ghost predicate ResetsBy(t: Table, deadline: int) {
    forall k :: k in t.entries ==> t.entries[k].resetAt <= deadline
  }

  /** Map and list agree, the list is in the order of expiry, and no window ends after now plus one window. */
  ghost predicate TableKept(cfg: Config, t: Table, now: int) {
    Mirrors(t.order, t.entries) && SortedByReset(t) && ResetsBy(t, now + cfg.window) && |t.entries| <= cfg.maxEntries
  }

  lemma FrontExpiresFirst(t: Table)
    requires Mirrors(t.order, t.entries) && SortedByReset(t) && t.order != []
    ensures t.order[0] in t.entries
    ensures forall k :: k in t.entries ==> t.entries[t.order[0]].resetAt <= t.entries[k].resetAt
  {
    forall k | k in t.entries ensures t.entries[t.order[0]].resetAt <= t.entries[k].resetAt {
      var j :| 0 <= j < |t.order| && t.order[j] == k;
    }
  }

  lemma PopSorted(t: Table)
    requires Mirrors(t.order, t.entries) && SortedByReset(t) && t.order != []
    ensures var u := Table(t.entries - {t.order[0]}, t.order[1..]);
            && Mirrors(u.order, u.entries) && SortedByReset(u) && |u.entries| < |t.entries|
            && forall k :: EntryOf(u, k) == if k == t.order[0] then None else EntryOf(t, k)
  {
    hide Mirrors;
    MirrorsPop(t.order, t.entries);
    MirrorsSize(t.order, t.entries);
    MirrorsSize(t.order[1..], t.entries - {t.order[0]});
  }

  /** An entry whose window is not over. */
  function Live(entry: Option<Entry>, now: int): Option<Entry> {
    if entry.Some? && now < entry.value.resetAt then entry else None
  }

  ghost predicate OnlyLive(t: Table, p: Table, now: int) {
    forall k :: EntryOf(p, k) == Live(EntryOf(t, k), now)
  }

  lemma AllLive(t: Table, now: int)
    requires Mirrors(t.order, t.entries) && SortedByReset(t)
    requires t.order != [] ==> t.order[0] !in t.entries || now < t.entries[t.order[0]].resetAt
    ensures OnlyLive(t, t, now)
  {
    if t.order == [] {
      assert forall k :: k !in t.entries;
    } else {
      FrontExpiresFirst(t);
    }
  }

  /** Dropping expired entries from the front drops exactly the expired ones. */
  lemma {:induction false} PurgeIsExact(t: Table, now: int)
    requires Mirrors(t.order, t.entries) && SortedByReset(t)
    ensures var p := Purge(t, now);
            Mirrors(p.order, p.entries) && SortedByReset(p) && |p.entries| <= |t.entries| && OnlyLive(t, p, now)
    decreases |t.order|
  {
    hide Mirrors, SortedByReset;
    if t.order == [] || t.order[0] !in t.entries || now < t.entries[t.order[0]].resetAt {
      AllLive(t, now);
    } else {
      PopSorted(t);
      PurgeIsExact(Table(t.entries - {t.order[0]}, t.order[1..]), now);
    }
  }

  lemma CountOneSorted(cfg: Config, t: Table, k: string, now: int)
    requires SortedByReset(t) && ResetsBy(t, now + cfg.window) && Mirrors(t.order, t.entries)
    ensures SortedByReset(CountOne(cfg, t, k, now))
  {
    assert forall i :: 0 <= i < |t.order| ==> t.order[i] in t.order;
  }

  lemma CountOneKeeps(cfg: Config, t: Table, k: string, now: int)
    requires Mirrors(t.order, t.entries) && SortedByReset(t) && ResetsBy(t, now + cfg.window)
    ensures var u := CountOne(cfg, t, k, now);
            && Mirrors(u.order, u.entries) && SortedByReset(u) && ResetsBy(u, now + cfg.window)
            && |u.entries| == |t.entries| + (if k in t.entries then 0 else 1)
            && forall j :: j != k ==> EntryOf(u, j) == EntryOf(t, j)
  {
    hide Mirrors, SortedByReset;
    CountOneMirrors(cfg, t, k, now);
    CountOneSorted(cfg, t, k, now);
    CountOneSize(cfg, t, k, now);
  }

  lemma CountOneSize(cfg: Config, t: Table, k: string, now: int)
    ensures |CountOne(cfg, t, k, now).entries| == |t.entries| + (if k in t.entries then 0 else 1)
  {
    assert CountOne(cfg, t, k, now).entries.Keys == t.entries.Keys + {k};
  }

  function Counted(cfg: Config, entry: Option<Entry>, now: int): Entry {
    match entry
    case None => Entry(1, now + cfg.window)
    case Some(e) => e.(count := e.count + 1)
  }

  /** Counting an attempt counts it once on every identity and leaves all others alone. */
  lemma {:induction false} CountsEveryIdentity(cfg: Config, t: Table, keys: seq<string>, now: int)
    requires Distinct(keys) && Mirrors(t.order, t.entries) && SortedByReset(t) && ResetsBy(t, now + cfg.window)
    ensures var u := CountAll(cfg, t, keys, now);
            && Mirrors(u.order, u.entries) && SortedByReset(u) && ResetsBy(u, now + cfg.window)
            && |u.entries| == |t.entries| + Absent(t, keys)
            && forall k :: EntryOf(u, k) == if k in keys then Some(Counted(cfg, EntryOf(t, k), now)) else EntryOf(t, k)
  {
    hide Mirrors, SortedByReset, ResetsBy, CountOne;
    if keys != [] {
      var init, last := keys[..|keys| - 1], keys[|keys| - 1];
      assert keys == init + [last] && last !in init;
      CountsEveryIdentity(cfg, t, init, now);
      var u := CountAll(cfg, t, init, now);
      assert EntryOf(u, last) == EntryOf(t, last);
      CountOneKeeps(cfg, u, last, now);
      assert EntryOf(CountOne(cfg, u, last, now), last) == Some(Counted(cfg, EntryOf(t, last), now)) by {
        CountOneCounts(cfg, u, last, now);
      }
    }
  }

  lemma CountOneCounts(cfg: Config, t: Table, k: string, now: int)
    ensures EntryOf(CountOne(cfg, t, k, now), k) == Some(Counted(cfg, EntryOf(t, k), now))
  {
  }

  // ---------- Every run ----------

  /** The last call, seen from one identity. */
  lemma LastCall(cfg: Config, calls: seq<Call>, k: string)
    requires calls != []
    ensures var n := |calls| - 1;
            var before := TableAfter(cfg, calls[..n]);
            && TableAfter(cfg, calls) == After(cfg, before, calls[n].keys, calls[n].now)
            && Passes(cfg, calls, k) == Passes(cfg, calls[..n], k) +
               if Allows(cfg, Purge(before, calls[n].now), calls[n].keys) && k in calls[n].keys then [calls[n].now] else []
  {
  }

  lemma PurgeKept(cfg: Config, t: Table, times: seq<int>, k: string, now: int, later: int)
    requires Enabled(cfg) && now <= later && TableKept(cfg, t, now) && Kept(cfg, times, EntryOf(t, k), now)
    ensures var p := Purge(t, later); TableKept(cfg, p, later) && Kept(cfg, times, EntryOf(p, k), later)
  {
    hide Purge, Kept, Mirrors, SortedByReset;
    var p := Purge(t, later);
    PurgeIsExact(t, later);
    KeptLater(cfg, times, EntryOf(t, k), now, later);
    assert EntryOf(p, k) == Live(EntryOf(t, k), later);
    forall j | j in p.entries ensures p.entries[j].resetAt <= later + cfg.window {
      assert EntryOf(p, j) == Some(p.entries[j]);
    }
  }

  lemma CountKept(cfg: Config, p: Table, times: seq<int>, keys: seq<string>, k: string, now: int)
    requires Enabled(cfg) && Distinct(keys) && TableKept(cfg, p, now) && Kept(cfg, times, EntryOf(p, k), now)
    requires Allows(cfg, p, keys)
    ensures var u := CountAll(cfg, p, keys, now);
            TableKept(cfg, u, now) && Kept(cfg, if k in keys then times + [now] else times, EntryOf(u, k), now)
  {
    hide CountAll, Kept, Mirrors, SortedByReset, ResetsBy, Absent, Distinct;
    CountsEveryIdentity(cfg, p, keys, now);
    assert EntryOf(CountAll(cfg, p, keys, now), k) ==
           if k in keys then Some(Counted(cfg, EntryOf(p, k), now)) else EntryOf(p, k);
    if k in keys {
      if k in p.entries {
        KeptHit(cfg, times, p.entries[k], now);
      } else {
        KeptFirst(cfg, times, now);
      }
    }
  }

  lemma StepKept(cfg: Config, t: Table, times: seq<int>, keys: seq<string>, k: string, now: int, later: int)
    requires Enabled(cfg) && Distinct(keys) && now <= later
    requires TableKept(cfg, t, now) && Kept(cfg, times, EntryOf(t, k), now)
    ensures var u := After(cfg, t, keys, later);
            TableKept(cfg, u, later) &&
            Kept(cfg, times + (if Allows(cfg, Purge(t, later), keys) && k in keys then [later] else []), EntryOf(u, k), later)
  {
    hide Purge, CountAll, Kept, TableKept, Allows, Distinct;
    PurgeKept(cfg, t, times, k, now, later);
    assert times + [] == times;
    if Allows(cfg, Purge(t, later), keys) {
      CountKept(cfg, Purge(t, later), times, keys, k, later);
    }
  }

  lemma {:induction false} RunKept(cfg: Config, calls: seq<Call>, k: string, now: int)
    requires Enabled(cfg) && InOrder(calls) && (calls == [] || now == calls[|calls| - 1].now)
    ensures TableKept(cfg, TableAfter(cfg, calls), now)
    ensures Kept(cfg, Passes(cfg, calls, k), EntryOf(TableAfter(cfg, calls), k), now)
    decreases |calls|
  {
    hide After, Allows, Kept, TableKept;
    if calls == [] {
      assert TableKept(cfg, Table(map[], []), now) && Kept(cfg, [], None, now) by { NothingKept(cfg, now); }
    } else {
      var n := |calls| - 1;
      var earlier := if n == 0 then calls[n].now else calls[n - 1].now;
      assert InOrder(calls[..n]);
      RunKept(cfg, calls[..n], k, earlier);
      LastCall(cfg, calls, k);
      StepKept(cfg, TableAfter(cfg, calls[..n]), Passes(cfg, calls[..n], k), calls[n].keys, k, earlier, calls[n].now);
    }
  }

  lemma NothingKept(cfg: Config, now: int)
    requires Enabled(cfg)
    ensures TableKept(cfg, Table(map[], []), now) && Kept(cfg, [], None, now)
  {
    forall s ensures InSpan(cfg, [], s) < 2 * cfg.limit {
    }
  }

  /**
   * With a clock that does not run backwards, an identity is let through at most twice the limit less one in any
   * half-open span of one window, at most the limit in its open window, and the table never outgrows its maximum.
   */
  lemma PassesAreBounded(cfg: Config, calls: seq<Call>, k: string, s: int)
    requires Enabled(cfg) && InOrder(calls)
    ensures Within(Passes(cfg, calls, k), s, s + cfg.window) <= 2 * cfg.limit - 1
    ensures var t := TableAfter(cfg, calls);
            && |t.entries| <= cfg.maxEntries && Mirrors(t.order, t.entries) && SortedByReset(t)
            && (k in t.entries ==>
                  From(Passes(cfg, calls, k), t.entries[k].resetAt - cfg.window) == t.entries[k].count <= cfg.limit)
  {
    hide TableAfter, Passes, Within, From;
    RunKept(cfg, calls, k, if calls == [] then 0 else calls[|calls| - 1].now);
    assert InSpan(cfg, Passes(cfg, calls, k), s) < 2 * cfg.limit;
  }

  // ---------- The bound is reached ----------

  ghost predicate Uniform(t: Table, keys: seq<string>, entry: Option<Entry>) {
    && Mirrors(t.order, t.entries) && SortedByReset(t)
    && forall k :: EntryOf(t, k) == if k in keys then entry else None
  }

  /** One attempt, the rest of the limit just before the window ends, and the limit when the next one begins. */
  function BusyRun(cfg: Config, keys: seq<string>): (calls: seq<Call>)
    requires cfg.limit > 0
    ensures |calls| == 2 * cfg.limit
  {
    seq(2 * cfg.limit, i => Call(keys, if i == 0 then 0 else if i < cfg.limit then cfg.window - 1 else cfg.window))
  }

  function BusyEntry(cfg: Config, i: nat): Option<Entry> {
    if i == 0 then None
    else if i <= cfg.limit then Some(Entry(i, cfg.window))
    else Some(Entry(i - cfg.limit, 2 * cfg.window))
  }

  lemma {:induction false} AbsentAll(t: Table, keys: seq<string>)
    ensures (forall k :: k in keys ==> k in t.entries) ==> Absent(t, keys) == 0
    ensures Absent(t, keys) <= |keys|
  {
    if keys != [] {
      AbsentAll(t, keys[..|keys| - 1]);
    }
  }

  lemma UniformSize(t: Table, keys: seq<string>, entry: Option<Entry>)
    requires Distinct(keys) && Uniform(t, keys, entry)
    ensures |t.entries| + Absent(t, keys) <= |keys|
  {
    AbsentAll(t, keys);
    assert forall k :: k in t.entries <==> EntryOf(t, k).Some?;
    if entry.Some? {
      MirrorsSize(keys, t.entries);
    } else {
      assert t.entries == map[];
    }
  }

  lemma UniformRoom(cfg: Config, p: Table, keys: seq<string>, entry: Option<Entry>, now: int)
    requires Distinct(keys) && |keys| <= cfg.maxEntries && Uniform(p, keys, entry)
    requires entry.Some? ==> entry.value.count < cfg.limit && entry.value.resetAt <= now + cfg.window
    ensures Allows(cfg, p, keys) && ResetsBy(p, now + cfg.window)
  {
    UniformSize(p, keys, entry);
    hide Mirrors, SortedByReset, Absent, Distinct;
    forall k | k in p.entries ensures Some(p.entries[k]) == entry {
      assert EntryOf(p, k) == Some(p.entries[k]);
    }
  }

  lemma UniformAfter(cfg: Config, t: Table, keys: seq<string>, entry: Option<Entry>, now: int)
    requires Distinct(keys) && |keys| <= cfg.maxEntries && Uniform(t, keys, entry)
    requires var e := Live(entry, now); e.Some? ==> e.value.count < cfg.limit && e.value.resetAt <= now + cfg.window
    ensures Allows(cfg, Purge(t, now), keys)
    ensures Uniform(After(cfg, t, keys, now), keys, Some(Counted(cfg, Live(entry, now), now)))
  {
    hide Mirrors, SortedByReset, Purge, Distinct, CountAll, Allows, ResetsBy;
    PurgeIsExact(t, now);
    var p := Purge(t, now);
    assert Uniform(p, keys, Live(entry, now));
    UniformRoom(cfg, p, keys, Live(entry, now), now);
    CountsEveryIdentity(cfg, p, keys, now);
  }

  lemma BusyStep(cfg: Config, t: Table, keys: seq<string>, i: nat)
    requires Enabled(cfg) && cfg.window >= 2 && Distinct(keys) && |keys| <= cfg.maxEntries && i < 2 * cfg.limit
    requires Uniform(t, keys, BusyEntry(cfg, i))
    ensures var call := BusyRun(cfg, keys)[i];
            Allows(cfg, Purge(t, call.now), keys) && Uniform(After(cfg, t, keys, call.now), keys, BusyEntry(cfg, i + 1))
  {
    hide Uniform, Purge, Distinct, After, Allows;
    UniformAfter(cfg, t, keys, BusyEntry(cfg, i), BusyRun(cfg, keys)[i].now);
  }

  /** The first n calls of that run, one call at a time. */
  lemma BusyPrefix(cfg: Config, keys: seq<string>, n: nat)
    requires cfg.limit > 0 && 0 < n <= 2 * cfg.limit
    ensures var calls := BusyRun(cfg, keys)[..n];
            |calls| == n && calls[..n - 1] == BusyRun(cfg, keys)[..n - 1] && calls[n - 1] == BusyRun(cfg, keys)[n - 1]
  {
  }

  lemma {:induction false} BusyTable(cfg: Config, keys: seq<string>, n: nat)
    requires Enabled(cfg) && cfg.window >= 2 && Distinct(keys) && |keys| <= cfg.maxEntries && n <= 2 * cfg.limit
    ensures Uniform(TableAfter(cfg, BusyRun(cfg, keys)[..n]), keys, BusyEntry(cfg, n))
  {
    hide Uniform, After, Distinct, BusyRun, BusyEntry;
    if n == 0 {
      NothingUniform(cfg, keys);
    } else {
      BusyTable(cfg, keys, n - 1);
      BusyPrefix(cfg, keys, n);
      BusyCall(cfg, keys, n - 1);
      BusyStep(cfg, TableAfter(cfg, BusyRun(cfg, keys)[..n - 1]), keys, n - 1);
    }
  }

  lemma BusyCall(cfg: Config, keys: seq<string>, i: nat)
    requires cfg.limit > 0 && i < 2 * cfg.limit
    ensures var call := BusyRun(cfg, keys)[i];
            && call.keys == keys
            && (cfg.window >= 2 ==> (cfg.window - 1 <= call.now < 2 * cfg.window - 1 <==> i > 0))
  {
  }

  lemma {:induction false} BusyPasses(cfg: Config, keys: seq<string>, k: string, n: nat)
    requires Enabled(cfg) && cfg.window >= 2 && Distinct(keys) && |keys| <= cfg.maxEntries && k in keys && n <= 2 * cfg.limit
    ensures Within(Passes(cfg, BusyRun(cfg, keys)[..n], k), cfg.window - 1, 2 * cfg.window - 1) == if n == 0 then 0 else n - 1
  {
    hide Uniform, After, Allows, Purge, Distinct, Within, BusyRun, BusyEntry, TableAfter, Passes;
    var calls := BusyRun(cfg, keys)[..n];
    if n == 0 {
      NoPasses(cfg, k, cfg.window - 1, 2 * cfg.window - 1);
    } else {
      BusyPasses(cfg, keys, k, n - 1);
      BusyPrefix(cfg, keys, n);
      BusyCall(cfg, keys, n - 1);
      BusyTable(cfg, keys, n - 1);
      BusyStep(cfg, TableAfter(cfg, calls[..n - 1]), keys, n - 1);
      LastCall(cfg, calls, k);
      WithinSnoc(Passes(cfg, calls[..n - 1], k), calls[n - 1].now, cfg.window - 1, 2 * cfg.window - 1);
    }
  }

  lemma NoPasses(cfg: Config, k: string, lo: int, hi: int)
    ensures Within(Passes(cfg, [], k), lo, hi) == 0
  {
  }

  lemma NothingUniform(cfg: Config, keys: seq<string>)
    ensures Uniform(Table(map[], []), keys, BusyEntry(cfg, 0))
  {
  }

  lemma BusyInOrder(cfg: Config, keys: seq<string>)
    requires Enabled(cfg) && cfg.window >= 2 && Distinct(keys)
    ensures InOrder(BusyRun(cfg, keys))
  {
    hide Distinct;
  }

  /** Every identity of this run is let through twice the limit less one within one window, so the bound is sharp. */
  lemma BoundIsSharp(cfg: Config, keys: seq<string>, k: string)
    requires Enabled(cfg) && cfg.window >= 2 && Distinct(keys) && |keys| <= cfg.maxEntries && k in keys
    ensures InOrder(BusyRun(cfg, keys))
    ensures Within(Passes(cfg, BusyRun(cfg, keys), k), cfg.window - 1, 2 * cfg.window - 1) == 2 * cfg.limit - 1
  {
    BusyInOrder(cfg, keys);
    BusyPasses(cfg, keys, k, 2 * cfg.limit);
    assert |BusyRun(cfg, keys)| == 2 * cfg.limit;
    hide BusyRun, Within, Passes, InOrder;
    assert BusyRun(cfg, keys)[..2 * cfg.limit] == BusyRun(cfg, keys);
  }
}
