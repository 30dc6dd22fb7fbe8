/** Doubling a delay, with products kept apart from the arithmetic around them. */
module Doubling {
  function Pow2(k: nat): (p: nat)
    ensures p >= 1
  {
    if k == 0 then 1 else 2 * Pow2(k - 1)
  }

  function Times(a: int, b: int): int {
    a * b
  }

  function Min(a: int, b: int): int {
    if a < b then a else b
  }

  function Max(a: int, b: int): int {
    if a < b then b else a
  }

  lemma TimesNext(a: int, b: int)
    ensures Times(a, b + 1) == Times(a, b) + a && Times(a, 0) == 0
  {
  }

  lemma TimesOne(a: int)
    ensures Times(a, Pow2(0)) == a
  {
  }

  lemma TimesDouble(a: int, i: nat)
    ensures Times(a, Pow2(i + 1)) == 2 * Times(a, Pow2(i))
  {
  }

  lemma {:induction false} Pow2Monotone(i: nat, k: nat)
    requires i <= k
    ensures Pow2(i) <= Pow2(k)
    decreases k
  {
    if i < k {
      Pow2Monotone(i, k - 1);
    }
  }

  lemma DoublingGrows(a: nat, i: nat, k: nat)
    requires i <= k
    ensures Times(a, Pow2(i)) <= Times(a, Pow2(k))
  {
    Pow2Monotone(i, k);
    TimesMonotone(a, Pow2(i), Pow2(k));
  }

  lemma TimesMonotone(a: nat, b: int, c: int)
    requires b <= c
    ensures Times(a, b) <= Times(a, c)
  {
  }
}
