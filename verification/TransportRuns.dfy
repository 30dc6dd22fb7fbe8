/** What a call does to the registry of transports, and which transport goes when it is full, over every run. */
module TransportRuns {
  import opened Options
  import opened Lists
  import opened TransportPool

  // ---------- What asking for a client does ----------

  /** The account leaves this entry for another one, and nobody else is bound to it. */
  ghost predicate Leaves(p: Pool, account: Account, key: TransportKey, k: TransportKey) {
    && account.id > 0 && account in p.bindings && p.bindings[account] == k && k != key
    && forall a :: a in p.bindings && a != account ==> p.bindings[a] != k
  }

  ghost function Staying(p: Pool, account: Account, key: TransportKey): set<TransportKey> {
    set k | k in p.entries && !Leaves(p, account, key, k)
  }

  /** The one of these keys that comes last in the list. */
  ghost predicate LastAmong(list: seq<TransportKey>, among: set<TransportKey>, k: TransportKey) {
    k in among && exists i :: 0 <= i < |list| && list[i] == k && NoneAfter(list, i, among)
  }

  ghost predicate NoneAfter(list: seq<TransportKey>, i: nat, among: set<TransportKey>) {
    forall j :: i < j < |list| ==> list[j] !in among
  }

  /** The entry that makes room for a new one. */
  ghost predicate Victim(p: Pool, account: Account, key: TransportKey, capacity: nat, k: TransportKey) {
    key !in p.entries && |Staying(p, account, key)| >= capacity && LastAmong(p.lru, Staying(p, account, key), k)
  }

  lemma ReleaseIsStaying(p: Pool, account: Account, key: TransportKey)
    requires Mirrors(p.lru, p.entries) && BindingsLive(p.bindings, p.entries)
    ensures var q := Rebound(p, account, key);
            && q.entries.Keys == Staying(p, account, key) && (forall k :: k in q.entries ==> k in p.entries && q.entries[k] == p.entries[k])
            && q.lru == (if account in p.bindings && Leaves(p, account, key, p.bindings[account]) then Without(p.lru, p.bindings[account]) else p.lru)
            && (forall a :: a in q.bindings <==> a in p.bindings && (a != account || account.id <= 0 || p.bindings[a] == key))
            && (forall a :: a in q.bindings ==> q.bindings[a] == p.bindings[a])
  {
    var moves := account.id > 0 && account in p.bindings && p.bindings[account] != key;
    if moves {
      var k := p.bindings[account];
      var rest := p.bindings - {account};
      assert BoundTo(rest, k) <==> !Leaves(p, account, key, k) by {
        if !Leaves(p, account, key, k) {
          var a :| a in p.bindings && a != account && p.bindings[a] == k;
          assert a in rest;
        }
      }
    }
  }

  lemma {:induction false} LastWithout(list: seq<TransportKey>, x: TransportKey)
    requires Without(list, x) != []
    ensures var k := Without(list, x)[|Without(list, x)| - 1];
            k != x && exists i :: 0 <= i < |list| && list[i] == k && forall j :: i < j < |list| ==> list[j] == x
    decreases |list|
  {
    var n := |list| - 1;
    assert list == list[..n] + [list[n]];
    WithoutConcat(list[..n], [list[n]], x);
    assert Without([list[n]], x) == if list[n] == x then [] else [list[n]];
    if list[n] == x {
      LastWithout(list[..n], x);
      var k := Without(list[..n], x)[|Without(list[..n], x)| - 1];
      var i :| 0 <= i < n && list[..n][i] == k && forall j :: i < j < n ==> list[..n][j] == x;
      assert list[i] == k && forall j :: i < j < |list| ==> list[j] == x;
    }
  }

  lemma LastStays(list: seq<TransportKey>, stay: set<TransportKey>, left: TransportKey)
    requires Without(list, left) != [] && left !in stay && forall k :: k in list && k != left ==> k in stay
    ensures LastAmong(list, stay, Without(list, left)[|Without(list, left)| - 1])
  {
    LastWithout(list, left);
    var k := Without(list, left)[|Without(list, left)| - 1];
    var i :| 0 <= i < |list| && list[i] == k && forall j :: i < j < |list| ==> list[j] == left;
    assert NoneAfter(list, i, stay);
  }

  lemma LastOfAll(list: seq<TransportKey>, stay: set<TransportKey>)
    requires list != [] && forall k :: k in list ==> k in stay
    ensures LastAmong(list, stay, list[|list| - 1])
  {
    assert NoneAfter(list, |list| - 1, stay);
  }

  /** The last of the list once the account is off its old entry is the last among those that stay. */
  lemma ReboundLast(p: Pool, account: Account, key: TransportKey)
    requires Mirrors(p.lru, p.entries) && BindingsLive(p.bindings, p.entries)
    ensures var q := Rebound(p, account, key);
            q.lru != [] ==> LastAmong(p.lru, Staying(p, account, key), q.lru[|q.lru| - 1])
  {
    hide *;
    var q, stay := Rebound(p, account, key), Staying(p, account, key);
    ReboundList(p, account, key);
    if q.lru == [] {
    } else if account in p.bindings && Leaves(p, account, key, p.bindings[account]) {
      LastStays(p.lru, stay, p.bindings[account]);
    } else {
      LastOfAll(p.lru, stay);
    }
  }

  lemma ReboundList(p: Pool, account: Account, key: TransportKey)
    requires Mirrors(p.lru, p.entries) && BindingsLive(p.bindings, p.entries)
    ensures var q, stay := Rebound(p, account, key), Staying(p, account, key);
            if account in p.bindings && Leaves(p, account, key, p.bindings[account]) then
              var left := p.bindings[account];
              q.lru == Without(p.lru, left) && left !in stay && forall k :: k in p.lru && k != left ==> k in stay
            else q.lru == p.lru && forall k :: k in p.lru ==> k in stay
  {
    ReleaseIsStaying(p, account, key);
    hide Rebound, Without, Distinct;
  }

  lemma OnlyOneLast(list: seq<TransportKey>, among: set<TransportKey>, k: TransportKey, l: TransportKey)
    requires LastAmong(list, among, k) && LastAmong(list, among, l)
    ensures k == l
  {
  }

  /**
   * Which entries are there after a client was asked for: the key's own, and all that were, except the one the
   * account was the last to leave and the one used longest ago if the new one would be too many.
   */
  lemma AskedEntries(p: Pool, account: Account, key: TransportKey, next: nat, capacity: nat)
    requires PoolKept(p, capacity) && capacity > 0
    ensures var r := Served(p, account, key, next, capacity);
            && (forall k :: k in r.entries <==>
                  k == key || (k in Staying(p, account, key) && !Victim(p, account, key, capacity, k)))
            && (forall k :: k in r.entries ==> r.entries[k] == if k in p.entries then p.entries[k] else next)
  {
    hide *;
    var q, r := Rebound(p, account, key), Served(p, account, key, next, capacity);
    KeptParts(p, capacity);
    ReleaseIsStaying(p, account, key);
    KeyStays(p, account, key);
    ServedEntries(p, account, key, next, capacity);
    CrowdedWhen(p, q, account, key, capacity);
    if Crowded(q, key, capacity) {
      ReboundLast(p, account, key);
      VictimIsLast(p, account, key, capacity, q.lru[|q.lru| - 1]);
    }
  }

  lemma ServedEntries(p: Pool, account: Account, key: TransportKey, next: nat, capacity: nat)
    requires PoolKept(p, capacity) && capacity > 0
    ensures var q, r := Rebound(p, account, key), Served(p, account, key, next, capacity);
            && (Crowded(q, key, capacity) ==> q.lru != [])
            && (forall k :: k in r.entries <==> k == key || (k in q.entries && !(Crowded(q, key, capacity) && k == q.lru[|q.lru| - 1])))
            && (forall k :: k in r.entries ==> r.entries[k] == if k in q.entries then q.entries[k] else next)
  {
    hide *;
    var q := Rebound(p, account, key);
    ServedEnters(p, account, key, next, capacity);
    ReboundKeeps(p, account, key, capacity);
    EnteredExactly(q, account, key, next, capacity);
    if Crowded(q, key, capacity) {
      CrowdedNew(q, key, capacity);
    }
  }

  lemma CrowdedNew(q: Pool, key: TransportKey, capacity: nat)
    requires Crowded(q, key, capacity)
    ensures key !in q.entries
  {
  }

  lemma ServedEnters(p: Pool, account: Account, key: TransportKey, next: nat, capacity: nat)
    ensures Served(p, account, key, next, capacity) == Entered(Rebound(p, account, key), account, key, next, capacity)
  {
  }

  lemma CrowdedWhen(p: Pool, q: Pool, account: Account, key: TransportKey, capacity: nat)
    requires q.entries.Keys == Staying(p, account, key) && (key in Staying(p, account, key) <==> key in p.entries)
    ensures Crowded(q, key, capacity) <==> key !in p.entries && |Staying(p, account, key)| >= capacity
    ensures !Crowded(q, key, capacity) ==> forall k :: !Victim(p, account, key, capacity, k)
  {
    hide Staying, LastAmong;
    assert |q.entries.Keys| == |q.entries|;
  }

  lemma KeptParts(p: Pool, capacity: nat)
    requires PoolKept(p, capacity)
    ensures Mirrors(p.lru, p.entries) && BindingsLive(p.bindings, p.entries)
  {
  }

  lemma VictimIsLast(p: Pool, account: Account, key: TransportKey, capacity: nat, k: TransportKey)
    requires key !in p.entries && |Staying(p, account, key)| >= capacity && LastAmong(p.lru, Staying(p, account, key), k)
    ensures forall l :: Victim(p, account, key, capacity, l) <==> l == k
  {
    hide Staying, LastAmong;
    forall l ensures Victim(p, account, key, capacity, l) <==> l == k {
      if Victim(p, account, key, capacity, l) {
        OnlyOneLast(p.lru, Staying(p, account, key), k, l);
      }
    }
  }

  lemma KeyStays(p: Pool, account: Account, key: TransportKey)
    ensures key in Staying(p, account, key) <==> key in p.entries
  {
  }

  /** A new key finds the pool full. */
  ghost predicate Crowded(q: Pool, key: TransportKey, capacity: nat) {
    key !in q.entries && |q.entries| >= capacity
  }

  lemma CrowdedHasLast(q: Pool, key: TransportKey, capacity: nat)
    requires PoolKept(q, capacity) && capacity > 0 && Crowded(q, key, capacity)
    ensures q.lru != [] && q.lru[|q.lru| - 1] != key && q.lru[|q.lru| - 1] in q.entries && Without(q.lru, key) == q.lru
  {
    MirrorsSize(q.lru, q.entries);
    assert q.lru[|q.lru| - 1] in q.lru;
    WithoutAbsent(q.lru, key);
  }

  /** Entering a key drops the last of the list, and the accounts on it, if there would be too many. */
  lemma EnteredExactly(q: Pool, account: Account, key: TransportKey, next: nat, capacity: nat)
    requires PoolKept(q, capacity) && capacity > 0
    ensures var r := Entered(q, account, key, next, capacity);
            if Crowded(q, key, capacity) then
              && q.lru != []
              && var last := q.lru[|q.lru| - 1];
                 && last != key && r.lru == [key] + Without(q.lru, last)
                 && r.entries == q.entries[key := next] - {last}
                 && r.bindings == Unbound(Bind(q.bindings, account, key), last)
            else
              && r.lru == [key] + Without(q.lru, key) && r.bindings == Bind(q.bindings, account, key)
              && r.entries == if key in q.entries then q.entries else q.entries[key := next]
  {
    hide PoolKept, Unbound, Bind, Without, Remove, Evict;
    assert |q.entries| <= capacity by { KeptSize(q, capacity); }
    CountEntered(q, key, next, capacity);
    if Crowded(q, key, capacity) {
      CrowdedHasLast(q, key, capacity);
      EvictsLast(q.entries[key := next], Bind(q.bindings, account, key), q.lru, key);
    }
  }

  lemma KeptSize(q: Pool, capacity: nat)
    requires PoolKept(q, capacity)
    ensures |q.entries| <= capacity
  {
  }

  lemma CountEntered(q: Pool, key: TransportKey, next: nat, capacity: nat)
    requires |q.entries| <= capacity
    ensures |if key in q.entries then q.entries else q.entries[key := next]| > capacity <==> Crowded(q, key, capacity)
  {
    if key !in q.entries {
      SmallerMap(q.entries[key := next], key);
      assert q.entries[key := next] - {key} == q.entries;
    }
  }

  lemma EvictsLast(entries: Entries, bindings: Bindings, lru: seq<TransportKey>, key: TransportKey)
    requires lru != [] && lru[|lru| - 1] != key
    ensures var last := lru[|lru| - 1];
            Evict(Pool(entries, bindings, [key] + lru)) == Pool(entries - {last}, Unbound(bindings, last), [key] + Without(lru, last))
  {
    hide Unbound;
    var last := lru[|lru| - 1];
    assert ([key] + lru)[|lru|] == last;
    WithoutConcat([key], lru, last);
    assert Without([key], last) == [key];
  }

  /** Which accounts are bound afterwards: the one that asked, and every other one whose entry is still there. */
  lemma AskedBindings(p: Pool, account: Account, key: TransportKey, next: nat, capacity: nat)
    requires PoolKept(p, capacity) && capacity > 0
    ensures var r := Served(p, account, key, next, capacity);
            && (forall a :: a in r.bindings <==>
                  (a == account && a.id > 0) || (a != account && a in p.bindings && p.bindings[a] in r.entries))
            && (forall a :: a in r.bindings ==> r.bindings[a] == if a == account then key else p.bindings[a])
  {
    hide *;
    var q, r := Rebound(p, account, key), Served(p, account, key, next, capacity);
    KeptParts(p, capacity);
    ReleaseIsStaying(p, account, key);
    ReboundKeeps(p, account, key, capacity);
    KeptParts(q, capacity);
    OnlyRealBound(p, account);
    ServedEntries(p, account, key, next, capacity);
    ServedEnters(p, account, key, next, capacity);
    EnteredExactly(q, account, key, next, capacity);
    BoundAfter(q, account, key, r, Crowded(q, key, capacity));
  }

  lemma OnlyRealBound(p: Pool, account: Account)
    requires BindingsLive(p.bindings, p.entries)
    ensures account in p.bindings ==> account.id > 0
  {
  }

  lemma BoundAfter(q: Pool, account: Account, key: TransportKey, r: Pool, crowded: bool)
    requires BindingsLive(q.bindings, q.entries) && (crowded ==> q.lru != [] && q.lru[|q.lru| - 1] != key)
    requires r.bindings == if crowded then Unbound(Bind(q.bindings, account, key), q.lru[|q.lru| - 1]) else Bind(q.bindings, account, key)
    requires forall k :: k in r.entries <==> k == key || (k in q.entries && !(crowded && k == q.lru[|q.lru| - 1]))
    ensures forall a :: a in r.bindings <==> (a == account && a.id > 0) || (a in q.bindings && q.bindings[a] in r.entries)
    ensures forall a :: a in r.bindings ==> r.bindings[a] == if a == account && a.id > 0 then key else q.bindings[a]
  {
  }

  /** Taking an account off its entry removes the entry if and only if no other account is bound to it. */
  lemma ReleasedExactly(p: Pool, account: Account)
    requires account in p.bindings
    ensures var left := p.bindings[account]; var r := Release(p, account, left);
            var alone := forall a :: a in p.bindings && a != account ==> p.bindings[a] != left;
            r == Pool(if alone then p.entries - {left} else p.entries, p.bindings - {account}, if alone then Without(p.lru, left) else p.lru)
  {
    var left, rest := p.bindings[account], p.bindings - {account};
    if a :| a in p.bindings && a != account && p.bindings[a] == left {
      assert a in rest && rest[a] == left;
    }
    hide Without;
  }

  // ---------- The list runs from the last used to the longest unused ----------

  datatype Call = Ask(account: Account, key: TransportKey) | Drop(account: Account) | DropAll

  datatype State = State(pool: Pool, created: nat)

  ghost function Next(s: State, capacity: nat, call: Call): State {
    match call
    case Ask(account, key) =>
      State(Served(s.pool, account, key, s.created, capacity),
            s.created + if key in Rebound(s.pool, account, key).entries then 0 else 1)
    case Drop(account) =>
      s.(pool := if account in s.pool.bindings then Release(s.pool, account, s.pool.bindings[account]) else s.pool)
    case DropAll => s.(pool := Pool(map[], map[], []))
  }

  ghost function After(capacity: nat, calls: seq<Call>): State {
    if calls == [] then State(Pool(map[], map[], []), 0)
    else Next(After(capacity, calls[..|calls| - 1]), capacity, calls[|calls| - 1])
  }

  /** The last of the first n calls that asked for the key, or -1. */
  function LastUse(calls: seq<Call>, k: TransportKey, n: nat): (r: int)
    requires n <= |calls|
    ensures -1 <= r < n
  {
    if n == 0 then -1
    else if calls[n - 1].Ask? && calls[n - 1].key == k then n - 1
    else LastUse(calls, k, n - 1)
  }

  ghost predicate ByUse(list: seq<TransportKey>, calls: seq<Call>, n: nat)
    requires n <= |calls|
  {
    forall i, j :: 0 <= i < j < |list| ==> LastUse(calls, list[j], n) < LastUse(calls, list[i], n)
  }

  lemma ByUseWithout(list: seq<TransportKey>, calls: seq<Call>, n: nat, k: TransportKey)
    requires n <= |calls| && ByUse(list, calls, n)
    ensures ByUse(Without(list, k), calls, n)
  {
    hide LastUse;
    var rest := Without(list, k);
    forall i: nat, j: nat | i < j < |rest| ensures LastUse(calls, rest[j], n) < LastUse(calls, rest[i], n) {
      var i', j' := WithoutPairs(list, k, i, j);
    }
  }

  /** A call that asks for the front key only makes it the last used. */
  lemma ByUseFront(rest: seq<TransportKey>, calls: seq<Call>, n: nat, k: TransportKey)
    requires n < |calls| && calls[n].Ask? && calls[n].key == k && k !in rest && ByUse(rest, calls, n)
    ensures ByUse([k] + rest, calls, n + 1)
  {
    var list := [k] + rest;
    forall i, j | 0 <= i < j < |list| ensures LastUse(calls, list[j], n + 1) < LastUse(calls, list[i], n + 1) {
      assert list[j] == rest[j - 1] && list[j] in rest;
      if i > 0 {
        assert list[i] == rest[i - 1] && list[i] in rest;
      }
    }
  }

  lemma ByUseUnchanged(list: seq<TransportKey>, calls: seq<Call>, n: nat)
    requires n < |calls| && !calls[n].Ask? && ByUse(list, calls, n)
    ensures ByUse(list, calls, n + 1)
  {
  }

  lemma ReboundByUse(p: Pool, account: Account, key: TransportKey, calls: seq<Call>, n: nat)
    requires n <= |calls| && ByUse(p.lru, calls, n) && Mirrors(p.lru, p.entries) && BindingsLive(p.bindings, p.entries)
    ensures ByUse(Rebound(p, account, key).lru, calls, n)
  {
    hide *;
    ReleaseIsStaying(p, account, key);
    if account in p.bindings && Leaves(p, account, key, p.bindings[account]) {
      ByUseWithout(p.lru, calls, n, p.bindings[account]);
    }
  }

  lemma AskedByUse(p: Pool, account: Account, key: TransportKey, next: nat, capacity: nat, calls: seq<Call>, n: nat)
    requires PoolKept(p, capacity) && capacity > 0
    requires n < |calls| && calls[n] == Ask(account, key) && ByUse(p.lru, calls, n)
    ensures ByUse(Served(p, account, key, next, capacity).lru, calls, n + 1)
  {
    hide *;
    var q := Rebound(p, account, key);
    KeptParts(p, capacity);
    ReboundByUse(p, account, key, calls, n);
    ReboundKeeps(p, account, key, capacity);
    ServedEnters(p, account, key, next, capacity);
    EnteredExactly(q, account, key, next, capacity);
    var gone := key;
    if Crowded(q, key, capacity) {
      CrowdedHasLast(q, key, capacity);
      gone := q.lru[|q.lru| - 1];
      AbsentKey(q, key, capacity);
    }
    ByUseWithout(q.lru, calls, n, gone);
    WithoutHolds(q.lru, gone);
    ByUseFront(Without(q.lru, gone), calls, n, key);
  }

  lemma AbsentKey(q: Pool, key: TransportKey, capacity: nat)
    requires PoolKept(q, capacity) && Crowded(q, key, capacity)
    ensures key !in q.lru
  {
  }

  lemma NextKept(s: State, capacity: nat, call: Call)
    requires PoolKept(s.pool, capacity) && capacity > 0
    ensures PoolKept(Next(s, capacity, call).pool, capacity)
  {
    hide PoolKept, Served, Release, Rebound;
    match call
    case Ask(account, key) => ServedKeeps(s.pool, account, key, s.created, capacity);
    case Drop(account) =>
      if account in s.pool.bindings {
        ReleaseKeeps(s.pool, account, s.pool.bindings[account], capacity);
      }
    case DropAll => EmptyKept(capacity);
  }

  lemma EmptyKept(capacity: nat)
    ensures PoolKept(Pool(map[], map[], []), capacity)
  {
  }

  /** In every run the list of entries is in the order of their last use, so it is the longest unused that is evicted. */
  lemma {:induction false} ListIsByUse(capacity: nat, calls: seq<Call>, n: nat)
    requires capacity > 0 && n <= |calls|
    ensures PoolKept(After(capacity, calls[..n]).pool, capacity) && ByUse(After(capacity, calls[..n]).pool.lru, calls, n)
  {
    hide PoolKept, Served, Release, Rebound, ByUse;
    if n == 0 {
      assert calls[..0] == [];
      EmptyKept(capacity);
      NothingByUse(calls);
    } else {
      assert calls[..n][..n - 1] == calls[..n - 1];
      var s, call := After(capacity, calls[..n - 1]), calls[n - 1];
      ListIsByUse(capacity, calls, n - 1);
      NextKept(s, capacity, call);
      match call
      case Ask(account, key) =>
        AskedByUse(s.pool, account, key, s.created, capacity, calls, n - 1);
      case Drop(account) =>
        DroppedByUse(s.pool, account, calls, n - 1);
      case DropAll =>
        NoneByUse(calls, n);
    }
  }

  lemma NothingByUse(calls: seq<Call>)
    ensures ByUse([], calls, 0)
  {
  }

  lemma NoneByUse(calls: seq<Call>, n: nat)
    requires n <= |calls|
    ensures ByUse([], calls, n)
  {
  }

  lemma DroppedByUse(p: Pool, account: Account, calls: seq<Call>, n: nat)
    requires n < |calls| && calls[n].Drop? && ByUse(p.lru, calls, n)
    ensures ByUse(if account in p.bindings then Release(p, account, p.bindings[account]).lru else p.lru, calls, n + 1)
  {
    hide ByUse, Release;
    ByUseUnchanged(p.lru, calls, n);
    if account in p.bindings {
      ReleasedExactly(p, account);
      ByUseWithout(p.lru, calls, n + 1, p.bindings[account]);
    }
  }
}
