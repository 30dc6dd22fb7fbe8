/** Which reveals are let through, told from those let through before: windows begin with a pass and count every pass. */
module RevealHistory {
  import opened Options
  import opened Lists
  import opened Doubling
  import opened RevealThrottling

  /** The identity was let through at call i. */
  ghost predicate PassedAt(cfg: Config, calls: seq<Call>, k: string, i: nat) {
    i < |calls| && AllowedAt(cfg, calls, i) && k in calls[i].keys
  }

  /** The pass that began the identity's last window, or -1: the first that came after the window before was over. */
  ghost function Opening(cfg: Config, calls: seq<Call>, k: string, n: nat): (r: int)
    requires n <= |calls|
    ensures -1 <= r < n
    ensures r >= 0 ==> PassedAt(cfg, calls, k, r)
  {
    if n == 0 then -1
    else
      var i := Opening(cfg, calls, k, n - 1);
      if !PassedAt(cfg, calls, k, n - 1) || (i >= 0 && calls[n - 1].now < calls[i].now + cfg.window) then i else n - 1
  }

  /** The window begun by that pass is not over. */
  ghost predicate OpenAt(cfg: Config, calls: seq<Call>, k: string, n: nat, now: int)
    requires n <= |calls|
  {
    var i := Opening(cfg, calls, k, n);
    i >= 0 && now < calls[i].now + cfg.window
  }

  /** The passes of the identity from call i until call n. */
  ghost function PassCount(cfg: Config, calls: seq<Call>, k: string, i: nat, n: nat): nat
    requires i <= n <= |calls|
  {
    if i == n then 0 else PassCount(cfg, calls, k, i, n - 1) + if PassedAt(cfg, calls, k, n - 1) then 1 else 0
  }

  /** The entry an identity has at the given time. */
  ghost function EntryAt(cfg: Config, calls: seq<Call>, k: string, n: nat, now: int): Option<Entry>
    requires n <= |calls|
  {
    var i := Opening(cfg, calls, k, n);
    if OpenAt(cfg, calls, k, n, now) then Some(Entry(PassCount(cfg, calls, k, i, n), calls[i].now + cfg.window)) else None
  }

  lemma Earlier(cfg: Config, calls: seq<Call>, n: nat)
    requires n < |calls| && InOrder(calls)
    ensures calls[..n + 1][..n] == calls[..n] && calls[..n + 1][n] == calls[n] && InOrder(calls[..n])
    ensures TableAfter(cfg, calls[..n + 1]) == After(cfg, TableAfter(cfg, calls[..n]), calls[n].keys, calls[n].now)
  {
    assert calls[..n + 1][..n] == calls[..n];
  }

  lemma TableSorted(cfg: Config, calls: seq<Call>, n: nat)
    requires Enabled(cfg) && InOrder(calls) && n <= |calls|
    ensures var t := TableAfter(cfg, calls[..n]);
            Mirrors(t.order, t.entries) && SortedByReset(t) && (n < |calls| ==> ResetsBy(t, calls[n].now + cfg.window))
  {
    hide TableAfter, Passes, Kept, Mirrors, SortedByReset;
    var last := if n == 0 then (if |calls| == 0 then 0 else calls[0].now) else calls[n - 1].now;
    assert InOrder(calls[..n]);
    RunKept(cfg, calls[..n], "", last);
  }

  /** What a call finds of an identity: an entry exactly while its window is open. */
  lemma FoundAt(cfg: Config, calls: seq<Call>, k: string, n: nat)
    requires Enabled(cfg) && InOrder(calls) && n < |calls|
    requires EntryOf(TableAfter(cfg, calls[..n]), k) == if n == 0 then None else EntryAt(cfg, calls, k, n, calls[n - 1].now)
    ensures EntryOf(Purge(TableAfter(cfg, calls[..n]), calls[n].now), k) == EntryAt(cfg, calls, k, n, calls[n].now)
  {
    TableSorted(cfg, calls, n);
    assert n > 0 ==> calls[n - 1].now <= calls[n].now;
    hide TableAfter, Purge, Mirrors, SortedByReset, AllowedAt, PassCount, InOrder;
    PurgeIsExact(TableAfter(cfg, calls[..n]), calls[n].now);
  }

  lemma CallCounts(cfg: Config, calls: seq<Call>, k: string, n: nat)
    requires Enabled(cfg) && InOrder(calls) && n < |calls|
    ensures var p := Purge(TableAfter(cfg, calls[..n]), calls[n].now);
            EntryOf(TableAfter(cfg, calls[..n + 1]), k) ==
            if PassedAt(cfg, calls, k, n) then Some(Counted(cfg, EntryOf(p, k), calls[n].now)) else EntryOf(p, k)
  {
    Earlier(cfg, calls, n);
    TableSorted(cfg, calls, n);
    var t := TableAfter(cfg, calls[..n]);
    var p := Purge(t, calls[n].now);
    hide TableAfter, Purge, Mirrors, SortedByReset, Allows, CountAll;
    PurgeIsExact(t, calls[n].now);
    PurgedResets(t, p, calls[n].now, calls[n].now + cfg.window);
    CountsEveryIdentity(cfg, p, calls[n].keys, calls[n].now);
  }

  lemma PurgedResets(t: Table, p: Table, now: int, deadline: int)
    requires OnlyLive(t, p, now) && ResetsBy(t, deadline)
    ensures ResetsBy(p, deadline)
  {
    forall k | k in p.entries ensures p.entries[k].resetAt <= deadline {
      assert EntryOf(p, k) == Live(EntryOf(t, k), now);
    }
  }

  lemma OneMore(cfg: Config, calls: seq<Call>, k: string, n: nat)
    requires Enabled(cfg) && n < |calls|
    ensures EntryAt(cfg, calls, k, n + 1, calls[n].now) ==
            if PassedAt(cfg, calls, k, n) then Some(Counted(cfg, EntryAt(cfg, calls, k, n, calls[n].now), calls[n].now))
            else EntryAt(cfg, calls, k, n, calls[n].now)
  {
    hide PassedAt;
    var i := Opening(cfg, calls, k, n);
    assert PassCount(cfg, calls, k, n, n) == 0;
    assert i >= 0 ==> PassCount(cfg, calls, k, i, n + 1) == PassCount(cfg, calls, k, i, n) + if PassedAt(cfg, calls, k, n) then 1 else 0;
  }

  /** The entry of an identity is its open window: when it ends, and how many passes it holds. */
  lemma {:induction false} EntryIsWindow(cfg: Config, calls: seq<Call>, k: string, n: nat)
    requires Enabled(cfg) && InOrder(calls) && n <= |calls|
    ensures EntryOf(TableAfter(cfg, calls[..n]), k) == if n == 0 then None else EntryAt(cfg, calls, k, n, calls[n - 1].now)
  {
    hide InOrder, Purge, EntryAt, PassedAt, After;
    if n == 0 {
      assert calls[..0] == [];
    } else {
      EntryIsWindow(cfg, calls, k, n - 1);
      FoundAt(cfg, calls, k, n - 1);
      CallCounts(cfg, calls, k, n - 1);
      OneMore(cfg, calls, k, n - 1);
    }
  }

  // ---------- The decision ----------

  /** The identity has used up its open window. */
  ghost predicate UsedUp(cfg: Config, calls: seq<Call>, k: string, n: nat)
    requires n < |calls|
  {
    OpenAt(cfg, calls, k, n, calls[n].now) && PassCount(cfg, calls, k, Opening(cfg, calls, k, n), n) >= cfg.limit
  }

  /** The identities whose windows are open at call n. */
  ghost function OpenKeys(cfg: Config, calls: seq<Call>, n: nat): set<string>
    requires n < |calls|
  {
    set i, k | 0 <= i < n && k in calls[i].keys && OpenAt(cfg, calls, k, n, calls[n].now) :: k
  }

  lemma FoundEntry(cfg: Config, calls: seq<Call>, k: string, n: nat)
    requires Enabled(cfg) && InOrder(calls) && n < |calls|
    ensures EntryOf(Purge(TableAfter(cfg, calls[..n]), calls[n].now), k) == EntryAt(cfg, calls, k, n, calls[n].now)
  {
    hide InOrder, TableAfter, Purge, EntryAt;
    EntryIsWindow(cfg, calls, k, n);
    FoundAt(cfg, calls, k, n);
  }

  lemma TableIsOpenKeys(cfg: Config, calls: seq<Call>, n: nat)
    requires Enabled(cfg) && InOrder(calls) && n < |calls|
    ensures Purge(TableAfter(cfg, calls[..n]), calls[n].now).entries.Keys == OpenKeys(cfg, calls, n)
  {
    hide InOrder, TableAfter, Purge, AllowedAt, PassCount;
    var p := Purge(TableAfter(cfg, calls[..n]), calls[n].now);
    forall k ensures k in p.entries <==> k in OpenKeys(cfg, calls, n) {
      FoundEntry(cfg, calls, k, n);
      OpenedBefore(cfg, calls, k, n);
      hide OpenAt;
    }
  }

  lemma OpenedBefore(cfg: Config, calls: seq<Call>, k: string, n: nat)
    requires n < |calls|
    ensures OpenAt(cfg, calls, k, n, calls[n].now) ==> exists i :: 0 <= i < n && k in calls[i].keys
  {
    hide AllowedAt;
    if OpenAt(cfg, calls, k, n, calls[n].now) {
      assert PassedAt(cfg, calls, k, Opening(cfg, calls, k, n));
    }
  }

  lemma {:induction false} AbsentSize(t: Table, keys: seq<string>)
    requires Distinct(keys)
    ensures |t.entries.Keys + Elements(keys)| == |t.entries| + Absent(t, keys)
  {
    if keys == [] {
      assert t.entries.Keys + Elements(keys) == t.entries.Keys;
    } else {
      AbsentSize(t, keys[..|keys| - 1]);
      OneKey(t.entries.Keys, keys);
    }
  }

  lemma OneKey(known: set<string>, keys: seq<string>)
    requires keys != [] && Distinct(keys)
    ensures var most, last := keys[..|keys| - 1], keys[|keys| - 1];
            |known + Elements(keys)| == |known + Elements(most)| + if last in known then 0 else 1
  {
    var most, last := keys[..|keys| - 1], keys[|keys| - 1];
    assert keys == most + [last] && last !in most;
    var some := known + Elements(most);
    assert known + Elements(keys) == some + {last};
    if last in known {
      assert some + {last} == some;
    } else {
      assert last !in some;
    }
  }

  /** A reveal is let through if and only if no identity has used up its window and the table can hold them all. */
  lemma RevealIsDecided(cfg: Config, calls: seq<Call>, n: nat)
    requires Enabled(cfg) && InOrder(calls) && n < |calls|
    ensures AllowedAt(cfg, calls, n) <==>
            && (forall k :: k in calls[n].keys ==> !UsedUp(cfg, calls, k, n))
            && |OpenKeys(cfg, calls, n) + Elements(calls[n].keys)| <= cfg.maxEntries
  {
    assert Distinct(calls[n].keys);
    hide InOrder, TableAfter, Purge, OpenKeys, Elements, Absent, Distinct;
    var p := Purge(TableAfter(cfg, calls[..n]), calls[n].now);
    TableIsOpenKeys(cfg, calls, n);
    AbsentSize(p, calls[n].keys);
    forall k ensures UsedUp(cfg, calls, k, n) <==> k in p.entries && p.entries[k].count >= cfg.limit {
      FullIsUsedUp(cfg, calls, k, n);
    }
    hide UsedUp;
  }

  lemma FullIsUsedUp(cfg: Config, calls: seq<Call>, k: string, n: nat)
    requires Enabled(cfg) && InOrder(calls) && n < |calls|
    ensures var p := Purge(TableAfter(cfg, calls[..n]), calls[n].now);
            && (UsedUp(cfg, calls, k, n) <==> k in p.entries && p.entries[k].count >= cfg.limit)
            && (UsedUp(cfg, calls, k, n) ==> p.entries[k].resetAt == calls[Opening(cfg, calls, k, n)].now + cfg.window)
  {
    hide InOrder, TableAfter, Purge, PassCount, Opening;
    FoundEntry(cfg, calls, k, n);
  }

  /** How long until the identity's window ends. */
  ghost function TimeLeft(cfg: Config, calls: seq<Call>, k: string, n: nat): int
    requires n < |calls| && UsedUp(cfg, calls, k, n)
  {
    calls[Opening(cfg, calls, k, n)].now + cfg.window - calls[n].now
  }

  lemma {:induction false} LongestIsLargest(cfg: Config, t: Table, keys: seq<string>, now: int)
    ensures var wait := LongestWait(cfg, t, keys, now);
            && wait >= 0
            && (forall k :: k in keys && k in t.entries && t.entries[k].count >= cfg.limit ==> t.entries[k].resetAt - now <= wait)
            && (wait == 0 || exists k :: k in keys && k in t.entries && t.entries[k].count >= cfg.limit && t.entries[k].resetAt - now == wait)
  {
    if keys != [] {
      var most, last := keys[..|keys| - 1], keys[|keys| - 1];
      assert keys == most + [last];
      LongestIsLargest(cfg, t, most, now);
      assert last in keys && forall k :: k in most ==> k in keys;
    }
  }

  /** Refused by identities, the caller waits until the last of their windows ends. */
  lemma RefusalTellsWait(cfg: Config, calls: seq<Call>, n: nat)
    requires Enabled(cfg) && InOrder(calls) && n < |calls|
    requires exists k :: k in calls[n].keys && UsedUp(cfg, calls, k, n)
    ensures var wait := LongestWait(cfg, Purge(TableAfter(cfg, calls[..n]), calls[n].now), calls[n].keys, calls[n].now);
            && (forall k :: k in calls[n].keys && UsedUp(cfg, calls, k, n) ==> TimeLeft(cfg, calls, k, n) <= wait)
            && (exists k :: k in calls[n].keys && UsedUp(cfg, calls, k, n) && TimeLeft(cfg, calls, k, n) == wait)
  {
    hide InOrder, TableAfter, Purge, LongestWait, Opening, PassCount;
    var p := Purge(TableAfter(cfg, calls[..n]), calls[n].now);
    LongestIsLargest(cfg, p, calls[n].keys, calls[n].now);
    forall k ensures UsedUp(cfg, calls, k, n) <==> k in p.entries && p.entries[k].count >= cfg.limit
      ensures UsedUp(cfg, calls, k, n) ==> p.entries[k].resetAt - calls[n].now == TimeLeft(cfg, calls, k, n) > 0
    {
      FullIsUsedUp(cfg, calls, k, n);
    }
  }
}
