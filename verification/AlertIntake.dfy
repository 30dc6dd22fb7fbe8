/** What becomes of the events offered to the dispatcher, over every run: accepted in order, dropped, or turned away. */
module AlertIntake {
  import opened Options
  import opened AlertDispatch
  import opened Doubling

  predicate Offers(step: Step) {
    step.ByCaller? && step.caller.Offer?
  }

  predicate Takes(step: Step) {
    step.ByEvaluator? && step.evaluator.TakeEvent?
  }

  // ---------- One step ----------

  /** Only an offer and the evaluator touch the event queue; an offer is accepted exactly when there is room. */
  lemma IntakeStep(cfg: Config, s: State, step: Step)
    requires Keeps(cfg, s) && Enabled(cfg, s, step)
    ensures var n, t := s.intake, Next(cfg, s, step).intake;
            if Offers(step) then
              var event := s.gate.callers[step.c].event;
              t == if |n.queue| < cfg.eventCapacity then Intake(n.queue + [event], n.accepted + [event], n.dropped)
                   else Intake(n.queue, n.accepted, n.dropped + 1)
            else t.accepted == n.accepted && t.dropped == n.dropped && |t.queue| <= |n.queue|
  {
    hide QueuesKept, WaitsKept, EventFlow, JobFlow, Drained, NoneReading, IndexOf;
  }

  lemma Moved(cfg: Config, states: seq<State>, steps: seq<Step>, i: nat)
    requires IsRun(cfg, states, steps) && i < |steps|
    ensures Keeps(cfg, states[i]) && Shape(cfg, states[i].delivery) && Enabled(cfg, states[i], steps[i])
    ensures states[i + 1] == Next(cfg, states[i], steps[i])
  {
    hide Keeps, Shape, Enabled, Next;
    RunKeeps(cfg, states, steps, i);
    assert Moves(cfg, states[i], steps[i], states[i + 1]);
  }

  // ---------- Accepted, in order ----------

  /** The events of the offers that found room, in order. */
  ghost function AcceptedBy(cfg: Config, states: seq<State>, steps: seq<Step>, n: nat): seq<Event>
    requires IsRun(cfg, states, steps) && n <= |steps|
  {
    if n == 0 then []
    else
      var before, step := AcceptedBy(cfg, states, steps, n - 1), steps[n - 1];
      if Offers(step) && step.c in states[n - 1].gate.callers && |states[n - 1].intake.queue| < cfg.eventCapacity
      then before + [states[n - 1].gate.callers[step.c].event] else before
  }

  lemma OfferHasCaller(cfg: Config, s: State, step: Step)
    requires Shape(cfg, s.delivery) && Enabled(cfg, s, step) && Offers(step)
    ensures step.c in s.gate.callers && s.gate.callers[step.c].Admitted?
  {
  }

  lemma {:induction false} AcceptedInOrder(cfg: Config, states: seq<State>, steps: seq<Step>, n: nat)
    requires IsRun(cfg, states, steps) && n <= |steps|
    ensures states[n].intake.accepted == AcceptedBy(cfg, states, steps, n)
    ensures |states[n].intake.queue| <= cfg.eventCapacity
  {
    hide Keeps, Shape, Enabled, Next, Moves;
    if n > 0 {
      AcceptedInOrder(cfg, states, steps, n - 1);
      Moved(cfg, states, steps, n - 1);
      IntakeStep(cfg, states[n - 1], steps[n - 1]);
      if Offers(steps[n - 1]) {
        OfferHasCaller(cfg, states[n - 1], steps[n - 1]);
      }
    }
  }

  // ---------- Every offered event is accounted for ----------

  function Entered(steps: seq<Step>, n: nat): nat
    requires n <= |steps|
  {
    if n == 0 then 0
    else Entered(steps, n - 1) + if steps[n - 1].ByCaller? && steps[n - 1].caller.Enter? then 1 else 0
  }

  /** Callers that came back from the second check because events were no longer accepted. */
  ghost function TurnedAway(cfg: Config, states: seq<State>, steps: seq<Step>, n: nat): nat
    requires IsRun(cfg, states, steps) && n <= |steps|
  {
    if n == 0 then 0
    else TurnedAway(cfg, states, steps, n - 1) +
         if steps[n - 1].ByCaller? && steps[n - 1].caller.Check? && !states[n - 1].gate.accepting then 1 else 0
  }

  lemma CallersStep(cfg: Config, s: State, step: Step)
    requires Shape(cfg, s.delivery) && Enabled(cfg, s, step)
    ensures var a, b := s.gate.callers, Next(cfg, s, step).gate.callers;
            if !step.ByCaller? then b == a
            else
              match step.caller
              case Enter(event) => step.c !in a && b == a[step.c := Waiting(event)]
              case Lock => step.c in a && b == a[step.c := Reading(a[step.c].event)]
              case Check =>
                step.c in a && b == if s.gate.accepting then a[step.c := Admitted(a[step.c].event)] else a - {step.c}
              case Offer => step.c in a && b == a - {step.c}
  {
    hide NoneReading, IndexOf, FinisherReady, FinisherNext, EvaluatorReady, EvaluatorNext, WorkerNext;
    match step
    case FinisherMoves => FinisherKeepsCallers(s);
    case ByEvaluator(evaluator) => EvaluatorKeepsGate(cfg, s, evaluator);
    case _ =>
  }

  lemma FinisherKeepsCallers(s: State)
    ensures FinisherNext(s).gate.callers == s.gate.callers
  {
  }

  lemma EvaluatorKeepsGate(cfg: Config, s: State, step: EvaluatorStep)
    requires Shape(cfg, s.delivery) && EvaluatorReady(cfg, s, step)
    ensures EvaluatorNext(cfg, s, step).gate == s.gate
  {
    hide IndexOf;
  }

  lemma CallersCount(a: map<CallerId, Caller>, c: CallerId, next: Caller)
    ensures |a[c := next].Keys| == |a.Keys| + if c in a then 0 else 1
    ensures |(a - {c}).Keys| == |a.Keys| - if c in a then 1 else 0
  {
    assert a[c := next].Keys == a.Keys + {c};
    assert (a - {c}).Keys == a.Keys - {c};
  }

  lemma CountStep(cfg: Config, s: State, step: Step)
    requires Keeps(cfg, s) && Shape(cfg, s.delivery) && Enabled(cfg, s, step)
    ensures var t := Next(cfg, s, step);
            |t.gate.callers.Keys| + |t.intake.accepted| + t.intake.dropped ==
            |s.gate.callers.Keys| + |s.intake.accepted| + s.intake.dropped +
            (if step.ByCaller? && step.caller.Enter? then 1 else 0) -
            (if step.ByCaller? && step.caller.Check? && !s.gate.accepting then 1 else 0)
  {
    hide Keeps, Shape, Enabled, Next;
    CallersStep(cfg, s, step);
    IntakeStep(cfg, s, step);
    if step.ByCaller? {
      var a := s.gate.callers;
      var event := if step.caller.Enter? then step.caller.event else a[step.c].event;
      CallersCount(a, step.c, if step.caller.Enter? then Waiting(event) else if step.caller.Lock? then Reading(event) else Admitted(event));
    }
  }

  /** Of the events offered, each is still on its way, was accepted or dropped, or was turned away. */
  lemma {:induction false} OffersAreAccounted(cfg: Config, states: seq<State>, steps: seq<Step>, n: nat)
    requires IsRun(cfg, states, steps) && n <= |steps|
    ensures Entered(steps, n) ==
            |states[n].gate.callers.Keys| + |states[n].intake.accepted| + states[n].intake.dropped + TurnedAway(cfg, states, steps, n)
  {
    hide Keeps, Shape, Enabled, Next, Moves;
    if n > 0 {
      OffersAreAccounted(cfg, states, steps, n - 1);
      Moved(cfg, states, steps, n - 1);
      CountStep(cfg, states[n - 1], steps[n - 1]);
    }
  }

  // ---------- Whose event it is ----------

  /** The caller entered with this event at step j, and has not entered again. */
  ghost predicate LastEntered(steps: seq<Step>, c: CallerId, event: Event, j: nat, n: nat) {
    j < n <= |steps| && steps[j] == ByCaller(c, Enter(event)) &&
    forall m :: j < m < n ==> !(steps[m].ByCaller? && steps[m].c == c && steps[m].caller.Enter?)
  }

  /** A caller offers the event it came with. */
  lemma {:induction false} OffersOwnEvent(cfg: Config, states: seq<State>, steps: seq<Step>, c: CallerId, n: nat)
    requires IsRun(cfg, states, steps) && n <= |steps| && c in states[n].gate.callers
    ensures exists j: nat :: LastEntered(steps, c, states[n].gate.callers[c].event, j, n)
  {
    hide Keeps, Shape, Enabled, Next, Moves;
    if n > 0 {
      Moved(cfg, states, steps, n - 1);
      var step := steps[n - 1];
      CallersStep(cfg, states[n - 1], step);
      if step.ByCaller? && step.c == c && step.caller.Enter? {
        assert LastEntered(steps, c, step.caller.event, n - 1, n);
      } else {
        assert c in states[n - 1].gate.callers && states[n - 1].gate.callers[c].event == states[n].gate.callers[c].event;
        OffersOwnEvent(cfg, states, steps, c, n - 1);
        var j: nat :| LastEntered(steps, c, states[n - 1].gate.callers[c].event, j, n - 1);
        assert LastEntered(steps, c, states[n].gate.callers[c].event, j, n);
      }
    }
  }

  // ---------- When events are accepted ----------

  ghost predicate Happened(steps: seq<Step>, step: Step, n: nat) {
    exists i :: 0 <= i < n && i < |steps| && steps[i] == step
  }

  lemma AcceptingStep(cfg: Config, s: State, step: Step)
    requires Shape(cfg, s.delivery) && Enabled(cfg, s, step)
    ensures var g, h := s.gate, Next(cfg, s, step).gate;
            && (h.accepting <==> step.Start? || (g.accepting && !step.StopAccepting?))
            && (h.started <==> g.started || step.Start?) && (step.Start? ==> !g.started) && (step.StopAccepting? ==> g.started)
  {
    hide NoneReading, IndexOf;
  }

  /** Events are accepted from the start until the shutdown begins. */
  lemma {:induction false} AcceptedWhileRunning(cfg: Config, states: seq<State>, steps: seq<Step>, n: nat)
    requires IsRun(cfg, states, steps) && n <= |steps|
    ensures states[n].gate.started <==> Happened(steps, Start, n)
    ensures states[n].gate.accepting <==> Happened(steps, Start, n) && !Happened(steps, StopAccepting, n)
    ensures Happened(steps, StopAccepting, n) ==> Happened(steps, Start, n)
  {
    hide Keeps, Shape, Enabled, Next, Moves;
    if n > 0 {
      AcceptedWhileRunning(cfg, states, steps, n - 1);
      Moved(cfg, states, steps, n - 1);
      AcceptingStep(cfg, states[n - 1], steps[n - 1]);
      HappenedNext(steps, Start, n - 1);
      HappenedNext(steps, StopAccepting, n - 1);
    }
  }

  lemma HappenedNext(steps: seq<Step>, step: Step, n: nat)
    requires n < |steps|
    ensures Happened(steps, step, n + 1) <==> Happened(steps, step, n) || steps[n] == step
  {
  }

  // ---------- The delivery queues ----------

  /** The worker is the remainder of the number in the key hash, or of the rule id where there is none. */
  lemma WorkerIsRemainder(hexValue: string -> Option<nat>, ruleId: int, keyHash: string, workers: nat)
    requires workers > 0
    ensures var value := if hexValue(keyHash).Some? then hexValue(keyHash).value else ruleId;
            exists q :: value == Times(q, workers) + WorkerIndex(hexValue, ruleId, keyHash, workers)
  {
    var value := if hexValue(keyHash).Some? then hexValue(keyHash).value else ruleId;
    DivMod(value, workers);
  }

  lemma DivMod(value: int, n: nat)
    requires n > 0
    ensures value == Times(value / n, n) + value % n
    ensures n == 1 ==> value % n == 0
  {
  }

  ghost predicate WithinCapacity(cfg: Config, d: Delivery) {
    |d.queues| == |cfg.capacities| && forall i :: 0 <= i < |d.queues| ==> |d.queues[i]| <= cfg.capacities[i]
  }

  lemma CapacityStep(cfg: Config, s: State, step: Step)
    requires Keeps(cfg, s) && Shape(cfg, s.delivery) && Enabled(cfg, s, step) && WithinCapacity(cfg, s.delivery)
    ensures WithinCapacity(cfg, Next(cfg, s, step).delivery)
  {
    hide QueuesKept, WaitsKept, EventFlow, JobFlow, Drained, GateKept, NoneReading, IndexOf, AllGone;
  }

  /** No queue ever holds more than it was made for. */
  lemma {:induction false} QueuesAreBounded(cfg: Config, states: seq<State>, steps: seq<Step>, n: nat)
    requires IsRun(cfg, states, steps) && n <= |steps|
    ensures WithinCapacity(cfg, states[n].delivery) && |states[n].intake.queue| <= cfg.eventCapacity
  {
    hide Keeps, Shape, Enabled, Next, Moves;
    AcceptedInOrder(cfg, states, steps, n);
    if n > 0 {
      QueuesAreBounded(cfg, states, steps, n - 1);
      Moved(cfg, states, steps, n - 1);
      CapacityStep(cfg, states[n - 1], steps[n - 1]);
    }
  }
}
