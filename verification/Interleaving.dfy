/**
 * The shared concurrency limiters under every interleaving of gateway requests.
 * Each request appends the actions of its own log one at a time; acquiring or
 * releasing a slot is also one step of the limiter that counts the slot.
 */
module Interleaving {
  import opened Options
  import opened GatewayWorld
  import opened Failover
  import opened Limiters

  datatype Counter = WholeGateway | OfKey(id: int) | OfAccount(id: int)

  /** The count a slot is charged to, if it is limited at all. */
  function CounterOf(s: Slot, key: int, limit: int): Option<Counter> {
    match s
    case GatewaySlot => if limit > 0 then Some(WholeGateway) else None
    case KeySlot => if key > 0 && limit > 0 then Some(OfKey(key)) else None
    case AccountSlot(_) => if key > 0 && limit > 0 then Some(OfAccount(key)) else None
  }

  predicate Charges(a: Action, c: Counter) {
    a.Acquired? && CounterOf(a.slot, a.key, a.limit) == Some(c)
  }

  /** The charged slots a log holds. */
  function Holdings(log: Log): map<Slot, Counter> {
    if log == [] then map[] else Charge(Holdings(log[..|log| - 1]), log[|log| - 1])
  }

  function Charge(held: map<Slot, Counter>, a: Action): map<Slot, Counter> {
    match a
    case Acquired(s, key, limit) =>
      var c := CounterOf(s, key, limit);
      if c.Some? then held[s := c.value] else held
    case Released(s) => held - {s}
    case _ => held
  }

  /** The counts of all limiters, and the logs of the requests so far. */
  datatype System = System(counts: map<Counter, int>, logs: map<nat, Log>)

  const IDLE := System(map[], map[])

  function LogOf(sys: System, r: nat): Log {
    if r in sys.logs then sys.logs[r] else []
  }

  /** The limiters answer by their counts. */
  predicate Answers(counts: map<Counter, int>, a: Action) {
    match a
    case Acquired(s, key, limit) => CounterOf(s, key, limit).Some? ==> Get(counts, CounterOf(s, key, limit).value) < limit
    case Refused(s, key, limit) => CounterOf(s, key, limit).Some? ==> Get(counts, CounterOf(s, key, limit).value) >= limit
    case _ => true
  }

  function Counts(counts: map<Counter, int>, held: map<Slot, Counter>, a: Action): map<Counter, int> {
    match a
    case Acquired(s, key, limit) =>
      var c := CounterOf(s, key, limit);
      if c.Some? then Raise(counts, c.value) else counts
    case Released(s) => if s in held then Lower(counts, held[s]) else counts
    case _ => counts
  }

  /** One step: request r appends one action to its log. */
  datatype Step = Step(r: nat, a: Action)

  function Apply(sys: System, step: Step): System {
    var log := LogOf(sys, step.r);
    System(Counts(sys.counts, Holdings(log), step.a), sys.logs[step.r := log + [step.a]])
  }

  function After(steps: seq<Step>): System {
    if steps == [] then IDLE else Apply(After(steps[..|steps| - 1]), steps[|steps| - 1])
  }

  /** The request's own protocol allows the action, and so do the limiters. */
  ghost predicate Enabled(gs: nat -> Gateway, sys: System, step: Step) {
    LedgerOf(gs(step.r), LogOf(sys, step.r) + [step.a]).ok && Answers(sys.counts, step.a)
  }

  /** An interleaving of any number of requests, each with its own surroundings. */
  ghost predicate Interleaves(gs: nat -> Gateway, steps: seq<Step>) {
    forall i :: 0 <= i < |steps| ==> Enabled(gs, After(steps[..i]), steps[i])
  }

  /** The slots charged to a count, each with the request that holds it. */
  ghost function Holders(logs: map<nat, Log>, c: Counter): set<(nat, Slot)> {
    set r, s | r in logs && s in Holdings(logs[r]) && Holdings(logs[r])[s] == c :: (r, s)
  }

  ghost predicate CountsHolders(sys: System, c: Counter) {
    |Holders(sys.logs, c)| == Get(sys.counts, c) && (c in sys.counts ==> sys.counts[c] > 0)
  }

  // ---------- Slots of one request ----------

  lemma {:induction false} HoldingsAreHeld(g: Gateway, log: Log)
    requires LedgerOf(g, log).ok
    ensures Holdings(log).Keys <= LedgerOf(g, log).held <= LedgerOf(g, log).used
  {
    hide Post;
    if log != [] {
      var init, a := log[..|log| - 1], log[|log| - 1];
      forall s ensures s in Holdings(log) ==> s in LedgerOf(g, log).held
               ensures s in LedgerOf(g, log).held ==> s in LedgerOf(g, log).used {
        SlotStep(g, init, LedgerOf(g, init), a, s);
        HoldingsAreHeld(g, init);
      }
    }
  }

  /** A slot is acquired only when it is not held. */
  lemma AcquiresFree(g: Gateway, log: Log, a: Action)
    requires LedgerOf(g, log + [a]).ok && a.Acquired?
    ensures a.slot !in Holdings(log)
  {
    hide Post;
    assert (log + [a])[..|log|] == log;
    SlotStep(g, log, LedgerOf(g, log), a, a.slot);
    HoldingsAreHeld(g, log);
  }

  lemma HoldingsSnoc(log: Log, a: Action)
    ensures Holdings(log + [a]) == Charge(Holdings(log), a)
  {
    assert (log + [a])[..|log|] == log;
  }

  // ---------- One step of the system ----------

  /** The charged slots change only by the acting request's own slot. */
  lemma HoldersStep(sys: System, step: Step, c: Counter)
    requires step.a.Acquired? ==> step.a.slot !in Holdings(LogOf(sys, step.r))
    ensures var held, before, after :=
                Holdings(LogOf(sys, step.r)), Holders(sys.logs, c), Holders(Apply(sys, step).logs, c);
            match step.a
            case Acquired(s, _, _) =>
              (step.r, s) !in before && after == if Charges(step.a, c) then before + {(step.r, s)} else before
            case Released(s) =>
              if s in held && held[s] == c then (step.r, s) in before && after == before - {(step.r, s)} else after == before
            case _ => after == before
  {
    hide Counts, CounterOf, Holdings, Holders;
    var log := LogOf(sys, step.r);
    HoldingsSnoc(log, step.a);
    HoldersOfOthers(sys.logs, step.r, log, c);
    HoldersOfOthers(sys.logs[step.r := log + [step.a]], step.r, log + [step.a], c);
    assert sys.logs[step.r := log + [step.a]] - {step.r} == sys.logs - {step.r};
  }

  /** The holders are those of one request and those of the others. */
  lemma HoldersOfOthers(logs: map<nat, Log>, r: nat, log: Log, c: Counter)
    requires log == if r in logs then logs[r] else []
    ensures Holders(logs, c) == Holders(logs - {r}, c) + Own(r, log, c)
    ensures forall s :: (r, s) !in Holders(logs - {r}, c)
  {
  }

  ghost function Own(r: nat, log: Log, c: Counter): set<(nat, Slot)> {
    set s | s in Holdings(log) && Holdings(log)[s] == c :: (r, s)
  }

  lemma CountsHoldersStep(gs: nat -> Gateway, sys: System, step: Step, c: Counter)
    requires Enabled(gs, sys, step) && CountsHolders(sys, c)
    ensures CountsHolders(Apply(sys, step), c)
  {
    hide LedgerOf, Holdings, CounterOf, Holders;
    if step.a.Acquired? {
      AcquiresFree(gs(step.r), LogOf(sys, step.r), step.a);
    }
    HoldersStep(sys, step, c);
  }

  /** Over every interleaving each limiter counts exactly the slots held under it, and keeps no zero count. */
  lemma {:induction false} LimitersCountHolders(gs: nat -> Gateway, steps: seq<Step>, c: Counter)
    requires Interleaves(gs, steps)
    ensures CountsHolders(After(steps), c)
    decreases |steps|
  {
    hide CountsHolders, Enabled, Apply;
    if steps == [] {
      assert CountsHolders(After(steps), c) by { IdleHasNoHolders(c); }
    } else {
      var init, last := steps[..|steps| - 1], steps[|steps| - 1];
      assert forall i :: 0 <= i < |init| ==> init[..i] == steps[..i];
      LimitersCountHolders(gs, init, c);
      CountsHoldersStep(gs, After(init), last, c);
    }
  }

  lemma IdleHasNoHolders(c: Counter)
    ensures CountsHolders(IDLE, c)
  {
    assert Holders(map[], c) == {};
  }

  // ---------- What the interleaving keeps ----------

  /** No more slots of a count are held at once than the largest limit it was ever acquired under. */
  lemma {:induction false} HoldersWithinLimit(gs: nat -> Gateway, steps: seq<Step>, c: Counter, limit: nat)
    requires Interleaves(gs, steps)
    requires forall i :: 0 <= i < |steps| && Charges(steps[i].a, c) ==> steps[i].a.limit <= limit
    ensures |Holders(After(steps).logs, c)| <= limit
    decreases |steps|
  {
    hide Enabled, Apply, Charges;
    if steps == [] {
      assert Holders(map[], c) == {};
    } else {
      hide Holders;
      var init, last := steps[..|steps| - 1], steps[|steps| - 1];
      assert forall i :: 0 <= i < |init| ==> init[..i] == steps[..i];
      HoldersWithinLimit(gs, init, c, limit);
      LimitersCountHolders(gs, init, c);
      OneMoreHolder(gs, After(init), last, c);
    }
  }

  lemma OneMoreHolder(gs: nat -> Gateway, sys: System, step: Step, c: Counter)
    requires Enabled(gs, sys, step) && CountsHolders(sys, c)
    ensures var before, after := |Holders(sys.logs, c)|, |Holders(Apply(sys, step).logs, c)|;
            after <= before || (Charges(step.a, c) && after <= step.a.limit)
  {
    hide LedgerOf, Holdings, CounterOf, Holders;
    if step.a.Acquired? {
      AcquiresFree(gs(step.r), LogOf(sys, step.r), step.a);
    }
    HoldersStep(sys, step, c);
  }

  /** A request is turned away by a limiter only while as many slots as its limit are held. */
  lemma RefusedOnlyWhenFull(gs: nat -> Gateway, steps: seq<Step>, i: nat, c: Counter)
    requires Interleaves(gs, steps) && i < |steps| && steps[i].a.Refused?
    requires CounterOf(steps[i].a.slot, steps[i].a.key, steps[i].a.limit) == Some(c)
    ensures |Holders(After(steps[..i]).logs, c)| >= steps[i].a.limit
  {
    hide After, LedgerOf, Holders;
    PrefixInterleaves(gs, steps, i);
    LimitersCountHolders(gs, steps[..i], c);
  }

  /** When every request has finished, all limiters are back to their initial state. */
  lemma LimitersEndIdle(gs: nat -> Gateway, steps: seq<Step>)
    requires Interleaves(gs, steps)
    requires forall r :: r in After(steps).logs ==>
               exists attempts, fallbacks, canceled :: Accounted(gs(r), After(steps).logs[r], attempts, fallbacks, canceled)
    ensures After(steps).counts == map[]
  {
    var sys := After(steps);
    forall c ensures c !in sys.counts {
      LimitersCountHolders(gs, steps, c);
      forall r | r in sys.logs ensures Holdings(sys.logs[r]) == map[] {
        FinishedHoldsNothing(gs(r), sys.logs[r]);
      }
      assert Holders(sys.logs, c) == {};
    }
  }

  lemma FinishedHoldsNothing(g: Gateway, log: Log)
    requires exists attempts, fallbacks, canceled :: Accounted(g, log, attempts, fallbacks, canceled)
    ensures Holdings(log) == map[]
  {
    HoldingsAreHeld(g, log);
  }

  // ---------- Holders, told from the logs ----------

  /** The action takes the slot under the limiter, with an id where the limiter goes by id, and with a limit. */
  predicate TakesUnder(a: Action, s: Slot, c: Counter) {
    && a.Acquired? && a.slot == s && a.limit > 0
    && match c
       case WholeGateway => s.GatewaySlot?
       case OfKey(id) => s.KeySlot? && id == a.key > 0
       case OfAccount(id) => s.AccountSlot? && id == a.key > 0
  }

  predicate Touches(a: Action, s: Slot) {
    a == Released(s) || (a.Acquired? && a.slot == s && CounterOf(s, a.key, a.limit).Some?)
  }

  /** The slot was taken under the limiter at i, and neither given back nor taken again since. */
  ghost predicate HeldSince(log: Log, s: Slot, c: Counter, i: nat) {
    i < |log| && TakesUnder(log[i], s, c) && forall j :: i < j < |log| ==> !Touches(log[j], s)
  }

  lemma ChargeStep(held: map<Slot, Counter>, a: Action, s: Slot, c: Counter)
    ensures (s in Charge(held, a) && Charge(held, a)[s] == c) <==>
            TakesUnder(a, s, c) || (!Touches(a, s) && s in held && held[s] == c)
    ensures TakesUnder(a, s, c) ==> Touches(a, s)
  {
  }

  /** A request holds a slot under a limiter if and only if its log says so. */
  lemma {:induction false} HeldByLog(log: Log, s: Slot, c: Counter)
    ensures (s in Holdings(log) && Holdings(log)[s] == c) <==> exists i: nat :: HeldSince(log, s, c, i)
  {
    hide TakesUnder, Touches, Charge;
    if log != [] {
      var n := |log| - 1;
      var most := log[..n];
      HeldByLog(most, s, c);
      ChargeStep(Holdings(most), log[n], s, c);
      if i: nat :| HeldSince(most, s, c, i) && !Touches(log[n], s) {
        assert HeldSince(log, s, c, i);
      }
      if i: nat :| HeldSince(log, s, c, i) {
        assert i < n ==> HeldSince(most, s, c, i);
      }
      if TakesUnder(log[n], s, c) {
        assert HeldSince(log, s, c, n);
      }
    }
  }

  /** A limiter lets a request through only while fewer slots than its limit are held. */
  lemma AcquiredOnlyBelowLimit(gs: nat -> Gateway, steps: seq<Step>, i: nat, c: Counter)
    requires Interleaves(gs, steps) && i < |steps| && steps[i].a.Acquired? && TakesUnder(steps[i].a, steps[i].a.slot, c)
    ensures |Holders(After(steps[..i]).logs, c)| < steps[i].a.limit
  {
    hide After, LedgerOf, Holders, TakesUnder;
    PrefixInterleaves(gs, steps, i);
    LimitersCountHolders(gs, steps[..i], c);
    AnsweredBelow(gs, After(steps[..i]), steps[i], c);
  }

  lemma PrefixInterleaves(gs: nat -> Gateway, steps: seq<Step>, i: nat)
    requires Interleaves(gs, steps) && i < |steps|
    ensures Interleaves(gs, steps[..i]) && Enabled(gs, After(steps[..i]), steps[i])
  {
    hide After, Enabled;
    forall j | 0 <= j < i ensures Enabled(gs, After(steps[..i][..j]), steps[..i][j]) {
      assert steps[..i][..j] == steps[..j];
    }
  }

  lemma AnsweredBelow(gs: nat -> Gateway, sys: System, step: Step, c: Counter)
    requires Enabled(gs, sys, step) && step.a.Acquired? && TakesUnder(step.a, step.a.slot, c)
    ensures Get(sys.counts, c) < step.a.limit
  {
    hide LedgerOf;
  }
}
