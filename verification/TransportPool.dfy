/**
 * The registry of upstream transports: one per transport configuration, bound to accounts, evicted in LRU
 * order.  Transports are numbered as they are created; closing one is recorded.
 */
module TransportPool {
  import opened Options
  import opened Lists

  const DEFAULT_CAPACITY: nat := 64

  datatype TransportKey = TransportKey(
    proxyScheme: string, proxyAddress: string, proxyUserHash: string, fingerprint: string, protocolPolicy: string)

  datatype ClientError = BadConfiguration | RegistryClosed

  datatype ClientResult = Client(transport: nat) | NoClient(error: ClientError)

  type Entries = map<TransportKey, nat>

  datatype Account = Account(id: int)

  type Bindings = map<Account, TransportKey>

  ghost predicate Lives(entries: Entries, id: nat) {
    exists k :: k in entries && entries[k] == id
  }

  ghost predicate Separate(entries: Entries) {
    forall j, k :: j in entries && k in entries && entries[j] == entries[k] ==> j == k
  }

  /** Every transport created so far is live under one key and not closed, or not live and closed exactly once. */
  ghost predicate Accounted(entries: Entries, created: nat, closings: multiset<nat>) {
    && Separate(entries)
    && (forall k :: k in entries ==> entries[k] < created)
    && (forall id: nat :: closings[id] == if id < created && !Lives(entries, id) then 1 else 0)
  }

  ghost predicate BoundTo(bindings: Bindings, key: TransportKey) {
    exists a :: a in bindings && bindings[a] == key
  }

  /** Only real accounts are bound, and only to live entries. */
  ghost predicate BindingsLive(bindings: Bindings, entries: Entries) {
    forall a :: a in bindings ==> a.id > 0 && bindings[a] in entries
  }

  lemma AccountedRemove(entries: Entries, created: nat, closings: multiset<nat>, key: TransportKey)
    requires Accounted(entries, created, closings) && key in entries
    ensures Accounted(entries - {key}, created, closings + multiset{entries[key]})
  {
    var gone := entries[key];
    forall id: nat ensures Lives(entries - {key}, id) <==> Lives(entries, id) && id != gone {
      if Lives(entries, id) && id != gone {
        var k :| k in entries && entries[k] == id;
        assert k in entries - {key};
      }
    }
    assert Lives(entries, gone);
  }

  lemma AccountedAdd(entries: Entries, created: nat, closings: multiset<nat>, key: TransportKey)
    requires Accounted(entries, created, closings) && key !in entries
    ensures Accounted(entries[key := created], created + 1, closings)
  {
    forall id: nat ensures Lives(entries[key := created], id) <==> Lives(entries, id) || id == created {
      if Lives(entries, id) {
        var k :| k in entries && entries[k] == id;
        assert entries[key := created][k] == id;
      }
      if id == created {
        assert entries[key := created][key] == id;
      }
    }
  }

  /** The bindings that do not point at a key. */
  function Unbound(bindings: Bindings, key: TransportKey): Bindings {
    map a | a in bindings && bindings[a] != key :: bindings[a]
  }

  lemma IsUnbound(before: Bindings, after: Bindings, key: TransportKey)
    requires forall a :: a in after ==> a in before && after[a] == before[a] && after[a] != key
    requires forall a :: a in before && a !in after ==> before[a] == key
    ensures after == Unbound(before, key)
  {
    SameMap(after, Unbound(before, key));
  }

  // ---------- The effect of one call, on values ----------

  datatype Pool = Pool(entries: Entries, bindings: Bindings, lru: seq<TransportKey>)

  function Remove(p: Pool, key: TransportKey): Pool {
    Pool(p.entries - {key}, p.bindings, Without(p.lru, key))
  }

  /** Taking an account off its entry removes the entry when no other account is bound to it. */
  ghost function Release(p: Pool, account: Account, key: TransportKey): Pool {
    var q := p.(bindings := p.bindings - {account});
    if BoundTo(q.bindings, key) then q else Remove(q, key)
  }

  function Bind(bindings: Bindings, account: Account, key: TransportKey): Bindings {
    if account.id > 0 then bindings[account := key] else bindings
  }

  /** Evicting the entry used longest ago takes the accounts off it. */
  function Evict(p: Pool): Pool {
    if p.lru == [] then p
    else
      var oldest := p.lru[|p.lru| - 1];
      Remove(p.(bindings := Unbound(p.bindings, oldest)), oldest)
  }

  /** An account with another entry is taken off that one first. */
  ghost function Rebound(p: Pool, account: Account, key: TransportKey): Pool {
    if account.id > 0 && account in p.bindings && p.bindings[account] != key then Release(p, account, p.bindings[account]) else p
  }

  /** The pool with the key's entry in front, evicting if there are too many; a new transport gets number `next`. */
  function Entered(q: Pool, account: Account, key: TransportKey, next: nat, capacity: nat): Pool {
    var r := Pool(if key in q.entries then q.entries else q.entries[key := next], Bind(q.bindings, account, key), ToFront(q.lru, key));
    if |r.entries| > capacity then Evict(r) else r
  }

  /** The pool after a client for `key` was asked for. */
  ghost function Served(p: Pool, account: Account, key: TransportKey, next: nat, capacity: nat): Pool {
    Entered(Rebound(p, account, key), account, key, next, capacity)
  }

  ghost predicate PoolKept(p: Pool, capacity: nat) {
    Mirrors(p.lru, p.entries) && BindingsLive(p.bindings, p.entries) && |p.entries| <= capacity
  }

  lemma RemoveKeeps(p: Pool, key: TransportKey, capacity: nat)
    requires PoolKept(p, capacity) && !BoundTo(p.bindings, key)
    ensures PoolKept(Remove(p, key), capacity)
  {
    MirrorsRemove(p.lru, p.entries, key);
    SmallerMap(p.entries, key);
    forall a | a in p.bindings ensures p.bindings[a] in p.entries - {key} {
    }
  }

  lemma SmallerMap(m: Entries, key: TransportKey)
    ensures |m - {key}| == |m| - (if key in m then 1 else 0)
  {
    if key in m {
      assert m.Keys == (m - {key}).Keys + {key};
    } else {
      assert m - {key} == m;
    }
  }

  lemma ReleaseKeeps(p: Pool, account: Account, key: TransportKey, capacity: nat)
    requires PoolKept(p, capacity)
    ensures PoolKept(Release(p, account, key), capacity)
  {
    var q := p.(bindings := p.bindings - {account});
    assert PoolKept(q, capacity);
    if !BoundTo(q.bindings, key) {
      RemoveKeeps(q, key, capacity);
    }
  }

  /** Evicting frees one place and leaves the entry used last alone. */
  lemma EvictKeeps(p: Pool, capacity: nat)
    requires PoolKept(p, capacity + 1) && |p.entries| == capacity + 1
    ensures PoolKept(Evict(p), capacity)
    ensures |Evict(p).entries| == capacity
    ensures capacity > 0 ==>
              p.lru != [] && p.lru[0] in Evict(p).entries && Evict(p).lru != [] && Evict(p).lru[0] == p.lru[0]
  {
    MirrorsSize(p.lru, p.entries);
    var oldest := p.lru[|p.lru| - 1];
    var q := p.(bindings := Unbound(p.bindings, oldest));
    assert PoolKept(q, capacity + 1) && !BoundTo(q.bindings, oldest);
    RemoveKeeps(q, oldest, capacity + 1);
    SmallerMap(q.entries, oldest);
  }

  lemma AddKeeps(q: Pool, account: Account, key: TransportKey, next: nat, capacity: nat)
    requires PoolKept(q, capacity)
    ensures var entries := if key in q.entries then q.entries else q.entries[key := next];
            PoolKept(Pool(entries, Bind(q.bindings, account, key), ToFront(q.lru, key)), capacity + 1) &&
            (key in q.entries ==> |entries| <= capacity)
  {
    var entries := if key in q.entries then q.entries else q.entries[key := next];
    MirrorsPutFront(q.lru, q.entries, key, entries[key]);
    assert entries == q.entries[key := entries[key]];
    SmallerMap(entries, key);
    if key !in q.entries {
      assert entries - {key} == q.entries;
    }
  }

  /** The pool stays within its capacity, and the account's own entry is there, in front, and bound to it. */
  lemma ServedKeeps(p: Pool, account: Account, key: TransportKey, next: nat, capacity: nat)
    requires PoolKept(p, capacity) && capacity > 0
    ensures var r := Served(p, account, key, next, capacity);
            && PoolKept(r, capacity) && key in r.entries && r.lru != [] && r.lru[0] == key
            && r.entries[key] == (if key in Rebound(p, account, key).entries then Rebound(p, account, key).entries[key] else next)
  {
    hide Mirrors, BindingsLive, Rebound, Evict;
    var q := Rebound(p, account, key);
    ReboundKeeps(p, account, key, capacity);
    AddKeeps(q, account, key, next, capacity);
    var r := Pool(if key in q.entries then q.entries else q.entries[key := next], Bind(q.bindings, account, key), ToFront(q.lru, key));
    if |r.entries| > capacity {
      EvictKeeps(r, capacity);
      EvictIsPart(r);
    }
  }

  lemma ReboundKeeps(p: Pool, account: Account, key: TransportKey, capacity: nat)
    requires PoolKept(p, capacity)
    ensures PoolKept(Rebound(p, account, key), capacity)
  {
    hide PoolKept, Release;
    if account.id > 0 && account in p.bindings && p.bindings[account] != key {
      ReleaseKeeps(p, account, p.bindings[account], capacity);
    }
  }

  lemma EvictIsPart(p: Pool)
    ensures forall k :: k in Evict(p).entries ==> k in p.entries && Evict(p).entries[k] == p.entries[k]
  {
  }

  /** What became of a binding: kept with its entry, or gone with it. */
  ghost predicate SameFate(p: Pool, r: Pool, other: Account)
    requires other in p.bindings && p.bindings[other] in p.entries
  {
    var key := p.bindings[other];
    if key in r.entries && r.entries[key] == p.entries[key] then other in r.bindings && r.bindings[other] == key
    else other !in r.bindings
  }

  lemma OthersSurviveRelease(p: Pool, account: Account, key: TransportKey, other: Account)
    requires other in p.bindings && p.bindings[other] in p.entries && other != account
    ensures var q := Release(p, account, key);
            other in q.bindings && q.bindings[other] == p.bindings[other] &&
            p.bindings[other] in q.entries && q.entries[p.bindings[other]] == p.entries[p.bindings[other]]
  {
    var q := p.(bindings := p.bindings - {account});
    assert other in q.bindings && q.bindings[other] == p.bindings[other];
    if p.bindings[other] == key {
      assert BoundTo(q.bindings, key);
    }
  }

  lemma EvictFate(p: Pool, other: Account)
    requires other in p.bindings && p.bindings[other] in p.entries && p.lru != [] && p.lru[|p.lru| - 1] in p.entries
    ensures SameFate(p, Evict(p), other)
  {
  }

  /** Asking for a client takes no other account off an entry that stays, and never moves one to another entry. */
  lemma OthersStayBound(p: Pool, account: Account, key: TransportKey, next: nat, capacity: nat, other: Account)
    requires PoolKept(p, capacity) && capacity > 0 && other != account && other in p.bindings
    ensures SameFate(p, Served(p, account, key, next, capacity), other)
  {
    hide Mirrors, Evict, Release, Without;
    var q := Rebound(p, account, key);
    if account.id > 0 && account in p.bindings && p.bindings[account] != key {
      OthersSurviveRelease(p, account, p.bindings[account], other);
    }
    ReboundKeeps(p, account, key, capacity);
    AddKeeps(q, account, key, next, capacity);
    var r := Pool(if key in q.entries then q.entries else q.entries[key := next], Bind(q.bindings, account, key), ToFront(q.lru, key));
    assert SameFate(p, r, other);
    if |r.entries| > capacity {
      OldestIsThere(r, capacity);
      EvictFate(r, other);
    }
  }

  lemma OldestIsThere(p: Pool, capacity: nat)
    requires PoolKept(p, capacity + 1) && p.lru != []
    ensures p.lru[|p.lru| - 1] in p.entries
  {
    assert p.lru[|p.lru| - 1] in p.lru;
  }

  // ---------- The registry ----------

  class TransportRegistry {
    const capacity: nat
    var entries: Entries
    var bindings: Bindings
    var lru: seq<TransportKey>
    var closed: bool
    var created: nat
    var closings: multiset<nat>

    constructor (configured: int)
      ensures Valid() && !closed && Contents() == Pool(map[], map[], []) && created == 0
      ensures capacity == if configured <= 0 then DEFAULT_CAPACITY else configured
    {
      capacity := if configured <= 0 then DEFAULT_CAPACITY else configured;
      entries, bindings, lru, closed, created, closings := map[], map[], [], false, 0, multiset{};
      new;
      assert forall id: nat :: !Lives(entries, id);
    }

    ghost function Contents(): Pool
      reads this
    {
      Pool(entries, bindings, lru)
    }

    ghost predicate Valid()
      reads this
    {
      && capacity > 0 && PoolKept(Contents(), capacity) && Accounted(entries, created, closings)
      && (closed ==> entries == map[])
    }

    method RemoveEntry(key: TransportKey)
      requires Accounted(entries, created, closings) && Mirrors(lru, entries)
      modifies this`entries, this`lru, this`closings
      ensures Contents() == Remove(old(Contents()), key)
      ensures Accounted(entries, created, closings)
    {
      if key !in entries {
        WithoutAbsent(lru, key);
        assert entries - {key} == entries;
        return;
      }
      AccountedRemove(entries, created, closings, key);
      closings := closings + multiset{entries[key]};
      entries, lru := entries - {key}, Without(lru, key);
    }

    method ReleaseBinding(account: Account, key: TransportKey)
      requires Accounted(entries, created, closings) && Mirrors(lru, entries)
      modifies this`entries, this`bindings, this`lru, this`closings
      ensures Contents() == Release(old(Contents()), account, key)
      ensures Accounted(entries, created, closings)
    {
      hide Accounted, Mirrors;
      bindings := bindings - {account};
      var rest := bindings.Keys;
      while rest != {}
        invariant rest <= bindings.Keys
        invariant forall a :: a in bindings && a !in rest ==> bindings[a] != key
        invariant Contents() == old(Contents()).(bindings := old(bindings) - {account})
        invariant closings == old(closings)
      {
        var a := Pick(rest);
        rest := rest - {a};
        if bindings[a] == key {
          return;
        }
      }
      RemoveEntry(key);
    }

    method EvictOldest()
      requires Accounted(entries, created, closings) && Mirrors(lru, entries)
      modifies this`entries, this`bindings, this`lru, this`closings
      ensures Contents() == Evict(old(Contents()))
      ensures Accounted(entries, created, closings)
    {
      hide Accounted, Mirrors;
      if lru == [] {
        return;
      }
      var oldest := lru[|lru| - 1];
      var rest := bindings.Keys;
      while rest != {}
        invariant forall a :: a in bindings ==> a in old(bindings) && bindings[a] == old(bindings)[a]
        invariant forall a :: a in old(bindings) && a !in bindings ==> old(bindings)[a] == oldest
        invariant forall a :: a in bindings && a !in rest ==> bindings[a] != oldest
        invariant entries == old(entries) && lru == old(lru) && closings == old(closings)
      {
        var a := Pick(rest);
        rest := rest - {a};
        if a in bindings && bindings[a] == oldest {
          bindings := bindings - {a};
        }
      }
      IsUnbound(old(bindings), bindings, oldest);
      RemoveEntry(oldest);
    }

    /** Closes the transport of every entry, once each. */
    method CloseEntries()
      requires Accounted(entries, created, closings)
      modifies this`closings
      ensures Accounted(map[], created, closings)
    {
      hide Accounted;
      var rest := entries.Keys;
      ghost var left := entries;
      while rest != {}
        invariant rest == left.Keys && rest <= entries.Keys
        invariant forall k :: k in left ==> left[k] == entries[k]
        invariant Accounted(left, created, closings)
      {
        var k := Pick(rest);
        AccountedRemove(left, created, closings, k);
        closings := closings + multiset{entries[k]};
        rest, left := rest - {k}, left - {k};
      }
      assert left == map[];
    }

    /** Takes an account off an entry that is not the one it asks for. */
    method Rebind(account: Account, key: TransportKey)
      requires Accounted(entries, created, closings) && Mirrors(lru, entries)
      modifies this`entries, this`bindings, this`lru, this`closings
      ensures Contents() == Rebound(old(Contents()), account, key) && Accounted(entries, created, closings)
    {
      hide Accounted, Mirrors, Release;
      if account.id > 0 {
        if account in bindings && bindings[account] != key {
          ReleaseBinding(account, bindings[account]);
        }
      }
    }

    /** Evicts until the entries fit. */
    method EvictOverflow()
      requires Accounted(entries, created, closings) && PoolKept(Contents(), capacity + 1)
      modifies this`entries, this`bindings, this`lru, this`closings
      ensures Contents() == if |old(entries)| > capacity then Evict(old(Contents())) else old(Contents())
      ensures Accounted(entries, created, closings)
    {
      hide Accounted, Mirrors, BindingsLive, Evict;
      ghost var full := Contents();
      if |full.entries| > capacity {
        EvictKeeps(full, capacity);
      }
      while |entries| > capacity
        invariant Accounted(entries, created, closings)
        invariant Contents() == full || (|full.entries| > capacity && Contents() == Evict(full))
      {
        EvictOldest();
      }
    }

    /** Puts the key's entry in front, making one if there is none, and binds the account to it. */
    method Enter(account: Account, key: TransportKey) returns (transport: nat)
      requires Accounted(entries, created, closings)
      modifies this`entries, this`bindings, this`lru, this`created
      ensures Accounted(entries, created, closings) && key in entries && entries[key] == transport
      ensures Contents() == Pool(if key in old(entries) then old(entries) else old(entries)[key := old(created)],
                                 Bind(old(bindings), account, key), ToFront(old(lru), key))
      ensures if key in old(entries) then transport == old(entries)[key] && created == old(created)
              else transport == old(created) && created == old(created) + 1
    {
      hide Accounted, ToFront;
      if key !in entries {
        AccountedAdd(entries, created, closings, key);
        entries, created := entries[key := created], created + 1;
      }
      lru := ToFront(lru, key);
      if account.id > 0 {
        bindings := bindings[account := key];
      }
      return entries[key];
    }

    /**
     * The client of the account's own configuration: the live transport if there is one, and a new one otherwise,
     * which survives the eviction it may cause.
     */
    method ClientFor(account: Account, resolved: Option<TransportKey>) returns (r: ClientResult)
      requires Valid()
      modifies this
      ensures Valid() && closed == old(closed)
      ensures if resolved.None? || old(closed)
              then
                && Contents() == old(Contents()) && created == old(created) && closings == old(closings)
                && r == NoClient(if resolved.None? then BadConfiguration else RegistryClosed)
              else
                var key, known := resolved.value, Rebound(old(Contents()), account, resolved.value).entries;
                && Contents() == Served(old(Contents()), account, key, old(created), capacity)
                && r.Client? && key in entries && entries[key] == r.transport && lru != [] && lru[0] == key
                && (if key in known then r.transport == known[key] && created == old(created)
                    else r.transport == old(created) && created == old(created) + 1)
    {
      hide Accounted, Rebound, Evict, Mirrors, BindingsLive, ToFront;
      if resolved.None? {
        return NoClient(BadConfiguration);
      }
      var key := resolved.value;
      if closed {
        return NoClient(RegistryClosed);
      }
      ServedKeeps(Contents(), account, key, created, capacity);
      ReboundKeeps(Contents(), account, key, capacity);
      Rebind(account, key);
      AddKeeps(Contents(), account, key, created, capacity);
      var known := key in entries;
      var transport := Enter(account, key);
      if !known {
        EvictOverflow();
      }
      return Client(transport);
    }

    /** Takes an account off its entry. */
    method InvalidateAccountTransport(account: Account)
      requires Valid()
      modifies this`entries, this`bindings, this`lru, this`closings
      ensures Valid() && account !in bindings
      ensures Contents() == if account in old(bindings) then Release(old(Contents()), account, old(bindings)[account])
                            else old(Contents())
    {
      hide Accounted, Mirrors, Release;
      if account.id <= 0 {
        return;
      }
      if account in bindings {
        ReleaseKeeps(Contents(), account, bindings[account], capacity);
        ReleaseUnbinds(Contents(), account, bindings[account]);
        ReleaseBinding(account, bindings[account]);
      }
    }

    method InvalidateAllAccountTransports()
      requires Valid()
      modifies this`entries, this`bindings, this`lru, this`closings
      ensures Valid() && Contents() == Pool(map[], map[], [])
    {
      CloseEntries();
      entries, bindings, lru := map[], map[], [];
    }

    /** Afterwards nothing is live, every transport was closed exactly once, and no further client is given. */
    method Close()
      requires Valid()
      modifies this`entries, this`bindings, this`lru, this`closings, this`closed
      ensures Valid() && closed && Contents() == Pool(map[], map[], [])
      ensures forall id: nat :: closings[id] == if id < created then 1 else 0
    {
      if closed {
        NothingLives(entries, created, closings);
        NothingBound(bindings, lru, entries);
        return;
      }
      closed := true;
      CloseEntries();
      entries, bindings, lru := map[], map[], [];
      NothingLives(entries, created, closings);
    }
  }

  lemma ReleaseUnbinds(p: Pool, account: Account, key: TransportKey)
    ensures account !in Release(p, account, key).bindings
    ensures forall k :: k in Release(p, account, key).entries ==> k in p.entries
  {
  }

  lemma NothingLives(entries: Entries, created: nat, closings: multiset<nat>)
    requires Accounted(entries, created, closings) && entries == map[]
    ensures forall id: nat :: closings[id] == if id < created then 1 else 0
  {
    assert forall id: nat :: !Lives(entries, id);
  }

  lemma NothingBound(bindings: Bindings, lru: seq<TransportKey>, entries: Entries)
    requires entries == map[] && Mirrors(lru, entries) && BindingsLive(bindings, entries)
    ensures bindings == map[] && lru == []
  {
    MirrorsSize(lru, entries);
    SameMap(bindings, map[]);
  }
}
