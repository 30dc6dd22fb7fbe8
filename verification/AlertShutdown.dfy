/**
 * The dispatcher's shutdown ends: every step after its launch uses up some of the work that is left or decides on
 * one of the jobs the rules allow, and until shutdown is done there is a step to take.
 */
module AlertShutdown {
  import opened Options
  import opened AlertDispatch
  import opened Doubling

  function Total(weights: seq<nat>): nat {
    if weights == [] then 0 else Total(weights[..|weights| - 1]) + weights[|weights| - 1]
  }

  lemma {:induction false} TotalUpdate(weights: seq<nat>, i: nat, w: nat)
    requires i < |weights|
    ensures Total(weights[i := w]) + weights[i] == Total(weights) + w
  {
    var n, changed := |weights| - 1, weights[i := w];
    if i == n {
      assert changed[..n] == weights[..n];
    } else {
      assert changed[..n] == weights[..n][i := w];
      TotalUpdate(weights[..n], i, w);
    }
  }

  // ---------- The work that is left ----------

  function WorkerWork(w: Worker): nat {
    match w
    case Gone => 0
    case Free => 1
    case Delivering(_) => 2
  }

  /** For every worker: the jobs in its queue and what it is doing. */
  function DeliveryWork(d: Delivery): seq<nat>
    requires |d.queues| == |d.workers|
  {
    seq(|d.queues|, i requires 0 <= i < |d.queues| => 3 * |d.queues[i]| + WorkerWork(d.workers[i]))
  }

  function EvaluatorWork(e: Evaluator, n: nat): nat {
    match e
    case Exited => 0
    case ClosingQueues(k) => if k <= n then n - k + 1 else 1
    case Idle => n + 2
    case Evaluating(_, pending) => n + 3 + if pending.Some? then 4 else 0
  }

  function FinisherWork(f: Finisher): nat {
    match f
    case NotLaunched => 10
    case AwaitListener => 9
    case WantLock => 8
    case Locked => 7
    case Unlocking => 6
    case AwaitEvaluator => 5
    case AwaitWorkers => 4
    case Canceling => 3
    case AwaitReporter => 2
    case Closing => 1
    case Finished => 0
  }

  function StopWork(s: Stop): nat {
    match s
    case Running => 3
    case Refusing => 2
    case ListenerCanceled => 1
    case Launched => 0
  }

  function Early(callers: map<CallerId, Caller>): set<CallerId> {
    set c | c in callers && !callers[c].Admitted?
  }

  function Unlocked(callers: map<CallerId, Caller>): set<CallerId> {
    set c | c in callers && callers[c].Waiting?
  }

  function CallerWork(callers: map<CallerId, Caller>): nat {
    3 * |callers.Keys| + |Early(callers)| + |Unlocked(callers)|
  }

  function SignalWork(g: Signals): nat {
    (if g.listenerDone then 0 else 1) + (if g.workersDone then 0 else 1) + (if g.reporterDone then 0 else 1)
  }

  function Work(s: State): nat
    requires |s.delivery.queues| == |s.delivery.workers|
  {
    CallerWork(s.gate.callers) + 2 * |s.intake.queue| + EvaluatorWork(s.evaluation.phase, |s.delivery.queues|) +
    Total(DeliveryWork(s.delivery)) + FinisherWork(s.gate.finisher) + StopWork(s.gate.stop) + SignalWork(s.signals)
  }

  // ---------- Every step of the dispatcher uses some up ----------

  lemma CallerUpdate(callers: map<CallerId, Caller>, c: CallerId, next: Caller)
    requires c in callers && ((callers[c].Waiting? && next.Reading?) || (callers[c].Reading? && next.Admitted?))
    ensures CallerWork(callers[c := next]) < CallerWork(callers)
  {
    var after := callers[c := next];
    assert after.Keys == callers.Keys;
    if next.Reading? {
      assert Early(after) == Early(callers);
      assert Unlocked(callers) == Unlocked(after) + {c};
    } else {
      assert Early(callers) == Early(after) + {c};
      assert Unlocked(after) == Unlocked(callers);
    }
  }

  lemma CallerLeaves(callers: map<CallerId, Caller>, c: CallerId)
    requires c in callers
    ensures CallerWork(callers - {c}) + 3 <= CallerWork(callers)
  {
    var after := callers - {c};
    assert callers.Keys == after.Keys + {c};
    assert Early(after) == Early(callers) - {c} && Unlocked(after) == Unlocked(callers) - {c};
  }

  lemma CallerUsesUp(cfg: Config, s: State, c: CallerId, step: CallerStep)
    requires Keeps(cfg, s) && CallerReady(s.gate, c, step) && !step.Enter?
    ensures Work(CallerNext(cfg, s, c, step)) < Work(s)
  {
    hide CallerWork, Total, DeliveryWork, EventFlow, JobFlow, Drained, QueuesKept, WaitsKept;
    CallerLeaves(s.gate.callers, c);
    match step
    case Lock => CallerUpdate(s.gate.callers, c, Reading(s.gate.callers[c].event));
    case Check =>
      if s.gate.accepting {
        CallerUpdate(s.gate.callers, c, Admitted(s.gate.callers[c].event));
      }
    case Offer =>
  }

  lemma WorkerUsesUp(d: Delivery, i: nat, step: WorkerStep)
    requires |d.queues| == |d.workers| == |d.handed| && i < |d.workers| && !d.workers[i].Gone?
    requires step.TakeJob? ==> d.queues[i] != [] && d.workers[i].Free?
    requires step.EndJob? ==> d.workers[i].Delivering?
    ensures var e := WorkerNext(d, i, step);
            |e.queues| == |e.workers| == |d.queues| && Total(DeliveryWork(e)) < Total(DeliveryWork(d))
  {
    var before, after := DeliveryWork(d), DeliveryWork(WorkerNext(d, i, step));
    assert after == before[i := after[i]];
    TotalUpdate(before, i, after[i]);
  }

  lemma QueueMoves(cfg: Config, s: State)
    requires Keeps(cfg, s) && EvaluatorReady(cfg, s, Queue)
    ensures Work(EvaluatorNext(cfg, s, Queue)) < Work(s)
  {
    hide EventFlow, JobFlow, Drained, GateKept, WaitsKept, Total, IndexOf, CallerWork;
    var t := EvaluatorNext(cfg, s, Queue);
    var i := IndexOf(cfg, s.evaluation.phase.pending.value);
    var before, after := DeliveryWork(s.delivery), DeliveryWork(t.delivery);
    assert after == before[i := before[i] + 3];
    TotalUpdate(before, i, before[i] + 3);
  }

  lemma CloseNextUsesUp(cfg: Config, s: State)
    requires Keeps(cfg, s) && EvaluatorReady(cfg, s, CloseNext)
    ensures Work(EvaluatorNext(cfg, s, CloseNext)) < Work(s)
  {
    hide EventFlow, JobFlow, Drained, GateKept, WaitsKept, Total, DeliveryWork, CallerWork, IndexOf;
  }

  lemma FinisherUsesUp(cfg: Config, s: State)
    requires Keeps(cfg, s) && FinisherReady(s)
    ensures Work(FinisherNext(s)) < Work(s)
  {
    hide Keeps, Total, DeliveryWork, CallerWork, EvaluatorWork, FinisherReady, FinisherNext, FinisherWork, SignalWork;
    KeptShape(cfg, s);
    FinisherAdvances(s);
  }

  lemma FinisherAdvances(s: State)
    requires FinisherReady(s)
    ensures var t := FinisherNext(s);
            && t.intake == s.intake && t.evaluation == s.evaluation && t.delivery == s.delivery
            && t.gate.callers == s.gate.callers && t.gate.stop == s.gate.stop && SignalWork(t.signals) == SignalWork(s.signals)
            && FinisherWork(t.gate.finisher) < FinisherWork(s.gate.finisher)
  {
    hide NoneReading;
  }

  lemma EvaluatorUsesUp(cfg: Config, s: State, step: EvaluatorStep)
    requires Keeps(cfg, s) && EvaluatorReady(cfg, s, step) && !step.Decide?
    ensures Work(EvaluatorNext(cfg, s, step)) < Work(s)
  {
    if step.Queue? {
      QueueMoves(cfg, s);
    } else if step.CloseNext? {
      CloseNextUsesUp(cfg, s);
    } else {
      hide QueuesKept, EventFlow, JobFlow, Drained, GateKept, WaitsKept, Total, DeliveryWork, CallerWork, IndexOf;
    }
  }

  /** Every step the dispatcher takes by itself leaves less work. */
  lemma InternalUsesUp(cfg: Config, s: State, step: Step)
    requires Keeps(cfg, s) && Enabled(cfg, s, step) && Internal(step)
    ensures Work(Next(cfg, s, step)) < Work(s)
  {
    hide EventFlow, JobFlow, Drained, QueuesKept, WaitsKept, CallerNext, FinisherNext, EvaluatorNext, WorkerNext,
         Total, DeliveryWork, CallerWork;
    match step
    case ByCaller(c, caller) => CallerUsesUp(cfg, s, c, caller);
    case FinisherMoves => FinisherUsesUp(cfg, s);
    case ByEvaluator(evaluator) => EvaluatorUsesUp(cfg, s, evaluator);
    case ByWorker(i, worker) => WorkerUsesUp(s.delivery, i, worker);
    case _ =>
  }

  predicate IsDecision(step: Step) {
    step.ByEvaluator? && step.evaluator.Decide?
  }

  lemma DecisionAddsWork(cfg: Config, s: State, step: Step)
    requires Keeps(cfg, s) && Enabled(cfg, s, step) && IsDecision(step)
    ensures Work(Next(cfg, s, step)) == Work(s) + 4
  {
    hide EventFlow, JobFlow, Drained, GateKept, QueuesKept, WaitsKept, Total, DeliveryWork, CallerWork, IndexOf;
  }

  lemma ForcingAddsNothing(cfg: Config, s: State)
    requires Keeps(cfg, s) && Enabled(cfg, s, ForceCancel)
    ensures Work(Next(cfg, s, ForceCancel)) == Work(s)
  {
    hide EventFlow, JobFlow, Drained, GateKept, QueuesKept, WaitsKept, Total, DeliveryWork, CallerWork;
  }

  /** Once launched, a shutdown stays launched, and nobody can offer a further event. */
  lemma LaunchedStays(cfg: Config, s: State, step: Step)
    requires Keeps(cfg, s) && Enabled(cfg, s, step) && s.gate.stop.Launched?
    ensures Next(cfg, s, step).gate.stop.Launched?
    ensures Internal(step) || IsDecision(step) || step.ForceCancel?
  {
    hide EventFlow, JobFlow, Drained, QueuesKept, WaitsKept, NoneReading, NoneAdmitted, IndexOf;
  }

  /** After launch every step leaves less work, except that a decision adds a job and a caller may force the end. */
  lemma StepUsesUp(cfg: Config, s: State, step: Step)
    requires Keeps(cfg, s) && Enabled(cfg, s, step) && s.gate.stop.Launched?
    ensures Keeps(cfg, Next(cfg, s, step))
    ensures Work(Next(cfg, s, step)) + 1 <= Work(s) + (if IsDecision(step) then 5 else 0) + if step.ForceCancel? then 1 else 0
  {
    hide Keeps, Enabled, Next, Work, Internal;
    StepKeeps(cfg, s, step);
    LaunchedStays(cfg, s, step);
    if IsDecision(step) {
      DecisionAddsWork(cfg, s, step);
    } else if step.ForceCancel? {
      ForcingAddsNothing(cfg, s);
    } else {
      InternalUsesUp(cfg, s, step);
    }
  }

  // ---------- Runs after launch ----------

  function Decisions(steps: seq<Step>, i: nat, n: nat): nat
    requires i <= n <= |steps|
  {
    if i == n then 0 else Decisions(steps, i, n - 1) + if IsDecision(steps[n - 1]) then 1 else 0
  }

  function Forcings(steps: seq<Step>, i: nat, n: nat): nat
    requires i <= n <= |steps|
  {
    if i == n then 0 else Forcings(steps, i, n - 1) + if steps[n - 1].ForceCancel? then 1 else 0
  }

  /** Steps and work left are paid for by the work at launch, five for each decision and one for each forcing. */
  lemma {:induction false} RunsEnd(cfg: Config, states: seq<State>, steps: seq<Step>, i: nat, n: nat)
    requires IsRun(cfg, states, steps) && i <= n < |states| && states[i].gate.stop.Launched?
    ensures Keeps(cfg, states[i]) && Keeps(cfg, states[n]) && states[n].gate.stop.Launched?
    ensures n - i + Work(states[n]) <= Work(states[i]) + 5 * Decisions(steps, i, n) + Forcings(steps, i, n)
    decreases n
  {
    hide Keeps, Enabled, Next, Work, IsDecision;
    RunKeeps(cfg, states, steps, i);
    KeptShape(cfg, states[i]);
    if i < n {
      RunsEnd(cfg, states, steps, i, n - 1);
      KeptShape(cfg, states[n - 1]);
      assert Moves(cfg, states[n - 1], steps[n - 1], states[n]);
      LaunchedStays(cfg, states[n - 1], steps[n - 1]);
      StepUsesUp(cfg, states[n - 1], steps[n - 1]);
      KeptShape(cfg, states[n]);
    }
  }

  lemma KeptShape(cfg: Config, s: State)
    requires Keeps(cfg, s)
    ensures Shape(cfg, s.delivery)
  {
  }

  // ---------- Decisions are bounded by the rules ----------

  /** Decisions since the evaluator took its last event. */
  function Since(steps: seq<Step>, n: nat): nat
    requires n <= |steps|
  {
    if n == 0 then 0 else SinceNext(Since(steps, n - 1), steps[n - 1])
  }

  function SinceNext(since: nat, step: Step): nat {
    if step.ByEvaluator? && step.evaluator.TakeEvent? then 0
    else if IsDecision(step) then since + 1
    else since
  }

  /** The evaluator decides on at most one job for each of at most `rules` rules of an event. */
  ghost predicate AtMostPerEvent(steps: seq<Step>, rules: nat) {
    forall n :: 0 <= n <= |steps| ==> Since(steps, n) <= rules
  }

  /** Events that may still be evaluated: offered, queued, or at hand. */
  function EventsWaiting(s: State): nat {
    |s.gate.callers.Keys| + |s.intake.queue|
  }

  function EventsLeft(s: State): nat {
    EventsWaiting(s) + if s.evaluation.phase.Evaluating? then 1 else 0
  }

  function Allowance(s: State, since: nat, rules: nat): int {
    Times(rules, EventsWaiting(s)) + if s.evaluation.phase.Evaluating? then rules - since else 0
  }

  /** Only taking an event makes the evaluator busy, and that event was waiting. */
  ghost predicate Consumes(s: State, step: Step, t: State) {
    && EventsWaiting(t) <= EventsWaiting(s)
    && (if step.ByEvaluator? && step.evaluator.TakeEvent? then EventsWaiting(t) == EventsWaiting(s) - 1
        else t.evaluation.phase.Evaluating? ==> s.evaluation.phase.Evaluating?)
    && (IsDecision(step) ==> s.evaluation.phase.Evaluating? && t.evaluation.phase.Evaluating?)
  }

  lemma CallerConsumes(cfg: Config, s: State, c: CallerId, step: CallerStep)
    requires CallerReady(s.gate, c, step) && !step.Enter?
    ensures Consumes(s, ByCaller(c, step), CallerNext(cfg, s, c, step))
  {
    var callers := s.gate.callers;
    CallerKeys(callers, c, if step.Lock? then Reading(callers[c].event) else Admitted(callers[c].event));
  }

  lemma CallerKeys(callers: map<CallerId, Caller>, c: CallerId, next: Caller)
    requires c in callers
    ensures callers[c := next].Keys == callers.Keys && |(callers - {c}).Keys| + 1 == |callers.Keys|
  {
    assert callers.Keys == (callers - {c}).Keys + {c};
  }

  lemma EvaluatorConsumes(cfg: Config, s: State, step: EvaluatorStep)
    requires Shape(cfg, s.delivery) && EvaluatorReady(cfg, s, step)
    ensures Consumes(s, ByEvaluator(step), EvaluatorNext(cfg, s, step))
  {
    hide IndexOf;
  }

  lemma StepConsumes(cfg: Config, s: State, step: Step)
    requires Keeps(cfg, s) && Enabled(cfg, s, step) && s.gate.stop.Launched?
    ensures Consumes(s, step, Next(cfg, s, step))
  {
    LaunchedStays(cfg, s, step);
    KeptShape(cfg, s);
    hide Keeps, CallerNext, EvaluatorNext, FinisherNext, FinisherReady, WorkerNext;
    match step
    case ByCaller(c, caller) => CallerConsumes(cfg, s, c, caller);
    case ByEvaluator(evaluator) => EvaluatorConsumes(cfg, s, evaluator);
    case FinisherMoves => FinisherAdvances(s);
    case _ =>
  }

  lemma AllowanceStep(cfg: Config, s: State, step: Step, since: nat, rules: nat)
    requires Keeps(cfg, s) && Enabled(cfg, s, step) && s.gate.stop.Launched?
    requires since <= rules && SinceNext(since, step) <= rules
    ensures Allowance(Next(cfg, s, step), SinceNext(since, step), rules) + (if IsDecision(step) then 1 else 0)
            <= Allowance(s, since, rules)
  {
    hide Keeps, Enabled, Next, Times, EventsWaiting;
    KeptShape(cfg, s);
    StepConsumes(cfg, s, step);
    TimesMonotone(rules, EventsWaiting(Next(cfg, s, step)), EventsWaiting(s));
    TimesNext(rules, EventsWaiting(s) - 1);
  }

  lemma {:induction false} DecisionsAllowed(cfg: Config, states: seq<State>, steps: seq<Step>, i: nat, n: nat, rules: nat)
    requires IsRun(cfg, states, steps) && i <= n < |states| && states[i].gate.stop.Launched? && AtMostPerEvent(steps, rules)
    ensures Decisions(steps, i, n) + Allowance(states[n], Since(steps, n), rules) <= Allowance(states[i], Since(steps, i), rules)
    decreases n
  {
    hide Keeps, Enabled, Next, Allowance, IsDecision, SinceNext;
    if i < n {
      DecisionsAllowed(cfg, states, steps, i, n - 1, rules);
      RunsEnd(cfg, states, steps, i, n - 1);
      assert Moves(cfg, states[n - 1], steps[n - 1], states[n]);
      assert Since(steps, n - 1) <= rules && Since(steps, n) <= rules;
      AllowanceStep(cfg, states[n - 1], steps[n - 1], Since(steps, n - 1), rules);
    }
  }

  /** After launch no more jobs are decided on than the rules allow for the events still left. */
  lemma DecisionsAreBounded(cfg: Config, states: seq<State>, steps: seq<Step>, i: nat, n: nat, rules: nat)
    requires IsRun(cfg, states, steps) && i <= n < |states| && states[i].gate.stop.Launched? && AtMostPerEvent(steps, rules)
    ensures Decisions(steps, i, n) <= Times(rules, EventsLeft(states[i]))
  {
    hide Moves, Times;
    DecisionsAllowed(cfg, states, steps, i, n, rules);
    assert Since(steps, n) <= rules;
    TimesNext(rules, EventsWaiting(states[i]));
    TimesNext(rules, 0);
    TimesMonotone(rules, 0, EventsWaiting(states[n]));
  }

  // ---------- Shutdown completes ----------

  /**
   * A launched shutdown is done after a bounded number of steps, whatever the goroutines do: a run that has made
   * that many, or that cannot go on, has closed `done`.
   */
  lemma ShutdownCompletes(cfg: Config, states: seq<State>, steps: seq<Step>, i: nat, rules: nat)
    requires IsRun(cfg, states, steps) && i < |states| && states[i].gate.stop.Launched? && AtMostPerEvent(steps, rules)
    requires forall k :: 0 <= k < |cfg.capacities| ==> cfg.capacities[k] > 0
    ensures Keeps(cfg, states[i]) && Keeps(cfg, states[|steps|])
    ensures var bound := Work(states[i]) + 5 * Times(rules, EventsLeft(states[i])) + Forcings(steps, i, |steps|);
            && |steps| - i <= bound
            && (|steps| - i == bound || !CanMove(cfg, states[|steps|]) ==> states[|steps|].signals.done)
  {
    hide Keeps, Enabled, Next, Work, Internal, Times, EventsLeft, AtMostPerEvent;
    var last := states[|steps|];
    RunsEnd(cfg, states, steps, i, |steps|);
    DecisionsAreBounded(cfg, states, steps, i, |steps|, rules);
    KeptShape(cfg, states[i]);
    KeptShape(cfg, last);
    if !last.signals.done {
      ShutdownNeverStuck(cfg, states, steps, |steps|);
      var step :| Internal(step) && Enabled(cfg, last, step);
      InternalUsesUp(cfg, last, step);
    }
  }
}
