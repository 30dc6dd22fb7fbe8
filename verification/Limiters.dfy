/** The concurrency limiters of accounts and API keys: one count per id, with no entry at zero. */
module Limiters {
  import opened Options

  function Get<K>(counts: map<K, int>, key: K): int {
    if key in counts then counts[key] else 0
  }

  function Raise<K>(counts: map<K, int>, key: K): map<K, int> {
    counts[key := Get(counts, key) + 1]
  }

  /** A count that drops to zero is removed. */
  function Lower<K>(counts: map<K, int>, key: K): map<K, int> {
    if Get(counts, key) <= 1 then counts - {key} else counts[key := Get(counts, key) - 1]
  }

  /** The limiter of the accounts, and that of the API keys: one count per id. */
  class KeyedLimiter {
    var inFlight: map<int, int>

    constructor ()
      ensures inFlight == map[]
    {
      inFlight := map[];
    }

    /** Only an acquisition with a limit and an id is counted; it fails when the limit is reached. */
    method Acquire(key: int, limit: int) returns (ok: bool)
      modifies this
      ensures ok == (key <= 0 || limit <= 0 || Get(old(inFlight), key) < limit)
      ensures inFlight == if key > 0 && limit > 0 && ok then Raise(old(inFlight), key) else old(inFlight)
    {
      if limit <= 0 || key <= 0 {
        return true;
      }
      if Get(inFlight, key) >= limit {
        return false;
      }
      inFlight := inFlight[key := Get(inFlight, key) + 1];
      return true;
    }

    /** What a counted acquisition hands out to be called later. */
    method Release(key: int)
      modifies this
      ensures inFlight == Lower(old(inFlight), key)
    {
      inFlight := inFlight[key := Get(inFlight, key) - 1];
      if inFlight[key] <= 0 {
        inFlight := inFlight - {key};
      }
    }

    /** The counts above zero. */
    method Snapshot() returns (snapshot: map<int, int>)
      ensures forall k :: k in snapshot <==> k in inFlight && inFlight[k] > 0
      ensures forall k :: k in snapshot ==> snapshot[k] == inFlight[k]
    {
      snapshot := map[];
      var rest := inFlight.Keys;
      while rest != {}
        invariant rest <= inFlight.Keys
        invariant forall k :: k in snapshot <==> k in inFlight && k !in rest && inFlight[k] > 0
        invariant forall k :: k in snapshot ==> snapshot[k] == inFlight[k]
      {
        var k := Pick(rest);
        rest := rest - {k};
        if inFlight[k] > 0 {
          snapshot := snapshot[k := inFlight[k]];
        }
      }
    }
  }
}
