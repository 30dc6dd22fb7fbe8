/** Lists of distinct keys that mirror the keys of a map. */
module Lists {
  ghost predicate Distinct<T(!new)>(s: seq<T>) {
    forall i, j :: 0 <= i < j < |s| ==> s[i] != s[j]
  }

  /** The list and the map hold the same keys, each once. */
  ghost predicate Mirrors<K(!new), V>(list: seq<K>, m: map<K, V>) {
    Distinct(list) && forall k :: k in list <==> k in m
  }

  function Elements(keys: seq<string>): set<string> {
    set k | k in keys
  }

  /** The list without one key, order kept. */
  function Without<T(==)>(s: seq<T>, x: T): seq<T> {
    if s == [] then []
    else if s[0] == x then Without(s[1..], x)
    else [s[0]] + Without(s[1..], x)
  }

  /** The key moved, or added, to the back. */
  function ToBack<T(==)>(s: seq<T>, x: T): seq<T> {
    Without(s, x) + [x]
  }

  /** The key moved, or added, to the front. */
  function ToFront<T(==)>(s: seq<T>, x: T): seq<T> {
    [x] + Without(s, x)
  }

  lemma {:induction false} WithoutHolds<T(!new)>(s: seq<T>, x: T)
    ensures forall y :: y in Without(s, x) <==> y in s && y != x
  {
    if s != [] {
      WithoutHolds(s[1..], x);
      assert s == [s[0]] + s[1..];
    }
  }

  lemma {:induction false} WithoutDistinct<T(!new)>(s: seq<T>, x: T)
    requires Distinct(s)
    ensures Distinct(Without(s, x))
  {
    if s != [] {
      assert Distinct(s[1..]);
      WithoutDistinct(s[1..], x);
      WithoutHolds(s[1..], x);
      if s[0] != x {
        var t := Without(s[1..], x);
        assert s[0] !in t;
        forall i, j | 0 <= i < j < |[s[0]] + t| ensures ([s[0]] + t)[i] != ([s[0]] + t)[j] {
          if i == 0 {
            assert ([s[0]] + t)[j] in t;
          }
        }
      }
    }
  }

  lemma MirrorsRemove<K(!new), V>(list: seq<K>, m: map<K, V>, k: K)
    requires Mirrors(list, m)
    ensures Mirrors(Without(list, k), m - {k})
  {
    WithoutDistinct(list, k);
    WithoutHolds(list, k);
  }

  lemma MirrorsPut<K(!new), V>(list: seq<K>, m: map<K, V>, k: K, v: V)
    requires Mirrors(list, m)
    ensures Mirrors(ToBack(list, k), m[k := v])
  {
    var rest := Without(list, k);
    WithoutDistinct(list, k);
    WithoutHolds(list, k);
    assert forall i :: 0 <= i < |rest| ==> rest[i] in rest;
  }

  lemma MirrorsPutFront<K(!new), V>(list: seq<K>, m: map<K, V>, k: K, v: V)
    requires Mirrors(list, m)
    ensures Mirrors(ToFront(list, k), m[k := v])
  {
    var rest := Without(list, k);
    WithoutDistinct(list, k);
    WithoutHolds(list, k);
    assert forall i :: 0 <= i < |rest| ==> rest[i] in rest;
  }

  /** Taking the front off. */
  lemma MirrorsPop<K(!new), V>(list: seq<K>, m: map<K, V>)
    requires Mirrors(list, m) && list != []
    ensures list[0] in m && Mirrors(list[1..], m - {list[0]})
  {
    assert list == [list[0]] + list[1..];
    assert list[0] !in list[1..];
  }

  lemma {:induction false} MirrorsSize<K(!new), V>(list: seq<K>, m: map<K, V>)
    requires Mirrors(list, m)
    ensures |list| == |m|
    decreases |list|
  {
    if list == [] {
      assert m == map[];
    } else {
      MirrorsPop(list, m);
      MirrorsSize(list[1..], m - {list[0]});
      assert m.Keys == (m - {list[0]}).Keys + {list[0]};
    }
  }

  ghost predicate EndsWith<T(!new)>(s: seq<T>, tail: seq<T>) {
    |tail| <= |s| && s[|s| - |tail|..] == tail
  }

  lemma {:induction false} WithoutConcat<T(!new)>(a: seq<T>, b: seq<T>, x: T)
    ensures Without(a + b, x) == Without(a, x) + Without(b, x)
  {
    if a == [] {
      assert a + b == b;
    } else {
      hide Without;
      WithoutConcat(a[1..], b, x);
      WithoutHead(a, x);
      WithoutHead(a + b, x);
      assert (a + b)[1..] == a[1..] + b && (a + b)[0] == a[0];
      Regroup(if a[0] == x then [] else [a[0]], Without(a[1..], x), Without(b, x));
    }
  }

  lemma Regroup<T>(a: seq<T>, b: seq<T>, c: seq<T>)
    ensures a + (b + c) == a + b + c
  {
  }

  lemma WithoutHead<T(!new)>(s: seq<T>, x: T)
    requires s != []
    ensures Without(s, x) == (if s[0] == x then [] else [s[0]]) + Without(s[1..], x)
  {
  }

  lemma {:induction false} WithoutAbsent<T(!new)>(s: seq<T>, x: T)
    requires x !in s
    ensures Without(s, x) == s
  {
    if s != [] {
      WithoutAbsent(s[1..], x);
      assert s == [s[0]] + s[1..];
    }
  }

  /** Moving a key to the back puts it behind the keys moved there before. */
  lemma ToBackExtendsTail<T(!new)>(s: seq<T>, tail: seq<T>, x: T)
    requires EndsWith(s, tail) && x !in tail
    ensures EndsWith(ToBack(s, x), tail + [x])
  {
    var front := s[..|s| - |tail|];
    assert s == front + tail;
    WithoutConcat(front, tail, x);
    WithoutAbsent(tail, x);
    assert ToBack(s, x) == Without(front, x) + (tail + [x]);
  }

  /** What precedes what in a list without a key does so in the list. */
  lemma {:induction false} WithoutPairs<T(!new)>(s: seq<T>, x: T, i: nat, j: nat) returns (i': nat, j': nat)
    requires i < j < |Without(s, x)|
    ensures i' < j' < |s| && s[i'] == Without(s, x)[i] && s[j'] == Without(s, x)[j]
  {
    if s[0] == x {
      i', j' := WithoutPairs(s[1..], x, i, j);
      i', j' := i' + 1, j' + 1;
    } else if i > 0 {
      i', j' := WithoutPairs(s[1..], x, i - 1, j - 1);
      i', j' := i' + 1, j' + 1;
    } else {
      WithoutHolds(s[1..], x);
      assert Without(s[1..], x)[j - 1] in Without(s[1..], x);
      j' :| 0 <= j' < |s| - 1 && s[1..][j'] == Without(s[1..], x)[j - 1];
      i', j' := 0, j' + 1;
    }
  }

  lemma SameMap<K(!new), V>(a: map<K, V>, b: map<K, V>)
    requires forall k :: k in a <==> k in b
    requires forall k :: k in a ==> a[k] == b[k]
    ensures a == b
  {
  }
}
