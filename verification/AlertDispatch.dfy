/**
 * The alert dispatcher: callers offering events, the evaluator, the delivery workers and the shutdown, as
 * a state machine whose steps are the atomic actions of the goroutines, in any interleaving.
 */
module AlertDispatch {
  import opened Options

  datatype Event = Event(id: int)

  /** A notification to deliver; the rule and the hash identify the deduplication key. */
  datatype Job = Job(event: Event, ruleId: int, keyHash: string)

  /** Queue sizes, one delivery queue per worker, and the number behind the first digits of a key hash. */
  datatype Config = Config(eventCapacity: nat, capacities: seq<nat>, hexValue: string -> Option<nat>)

  function WorkerIndex(hexValue: string -> Option<nat>, ruleId: int, keyHash: string, workers: nat): (i: nat)
    requires workers > 0
    ensures i < workers
  {
    if workers <= 1 then 0
    else if hexValue(keyHash).None? then ruleId % workers
    else hexValue(keyHash).value % workers
  }

  function IndexOf(cfg: Config, job: Job): (i: nat)
    requires |cfg.capacities| > 0
    ensures i < |cfg.capacities|
  {
    WorkerIndex(cfg.hexValue, job.ruleId, job.keyHash, |cfg.capacities|)
  }

  // ---------- State ----------

  datatype CallerId = CallerId(number: nat)

  /** A goroutine inside tryEnqueue: past the first check, holding the read lock, past the second check. */
  datatype Caller = Waiting(event: Event) | Reading(event: Event) | Admitted(event: Event)

  datatype Stop = Running | Refusing | ListenerCanceled | Launched

  datatype Finisher =
    | NotLaunched | AwaitListener | WantLock | Locked | Unlocking
    | AwaitEvaluator | AwaitWorkers | Canceling | AwaitReporter | Closing | Finished

  datatype Evaluator = Idle | Evaluating(event: Event, pending: Option<Job>) | ClosingQueues(next: nat) | Exited

  datatype Worker = Free | Delivering(job: Job) | Gone

  /** Who may send on the event queue, and the goroutine that will close it. */
  datatype Gate = Gate(
    started: bool, accepting: bool, callers: map<CallerId, Caller>, writer: bool, closed: bool, stop: Stop, finisher: Finisher)

  datatype Intake = Intake(queue: seq<Event>, accepted: seq<Event>, dropped: nat)

  datatype Processed = Processed(event: Event, complete: bool)

  /** The evaluator, with the events it is done with and the jobs it decided on and queued. */
  datatype Evaluation = Evaluation(
    phase: Evaluator, closedQueues: set<nat>, processed: seq<Processed>, decided: seq<Job>, sent: seq<Job>)

  /** The delivery queues and their workers, with the jobs handed to each. */
  datatype Delivery = Delivery(queues: seq<seq<Job>>, workers: seq<Worker>, handed: seq<seq<Job>>)

  datatype Signals = Signals(
    listenerDone: bool, workersDone: bool, reporterDone: bool, canceled: bool, forced: bool, done: bool)

  datatype State = State(
    gate: Gate, intake: Intake, evaluation: Evaluation, delivery: Delivery, signals: Signals, panicked: bool)

  function Initial(cfg: Config): State {
    var n := |cfg.capacities|;
    State(
      Gate(false, false, map[], false, false, Running, NotLaunched),
      Intake([], [], 0),
      Evaluation(Idle, {}, [], [], []),
      Delivery(seq(n, _ => []), seq(n, _ => Free), seq(n, _ => [])),
      Signals(false, false, false, false, false, false), false)
  }

  ghost predicate Shape(cfg: Config, d: Delivery) {
    |d.queues| == |d.workers| == |d.handed| == |cfg.capacities| > 0
  }

  ghost predicate AllGone(workers: seq<Worker>) {
    forall i :: 0 <= i < |workers| ==> workers[i].Gone?
  }

  ghost predicate NoneReading(callers: map<CallerId, Caller>) {
    forall c :: c in callers ==> callers[c].Waiting?
  }

  // ---------- Steps ----------

  datatype CallerStep = Enter(event: Event) | Lock | Check | Offer

  datatype EvaluatorStep = TakeEvent | Decide(job: Job) | Queue | Drop | EndEvent | Quit | CloseNext

  datatype WorkerStep = TakeJob | EndJob | Leave

  datatype Step =
    | Start
    | ByCaller(c: CallerId, caller: CallerStep)
    | StopAccepting | CancelListener | LaunchFinisher | ListenerExits
    | FinisherMoves
    | ByEvaluator(evaluator: EvaluatorStep)
    | ByWorker(i: nat, worker: WorkerStep)
    | WorkersJoin | ReporterExits | ForceCancel

  predicate CallerReady(g: Gate, c: CallerId, step: CallerStep) {
    match step
    case Enter(_) => c !in g.callers && g.accepting
    case Lock => c in g.callers && g.callers[c].Waiting? && !g.writer
    case Check => c in g.callers && g.callers[c].Reading?
    case Offer => c in g.callers && g.callers[c].Admitted?
  }

  /** Sending on a closed channel panics; a full queue drops the event. */
  function CallerNext(cfg: Config, s: State, c: CallerId, step: CallerStep): State
    requires CallerReady(s.gate, c, step)
  {
    var callers := s.gate.callers;
    match step
    case Enter(event) => s.(gate := s.gate.(callers := callers[c := Waiting(event)]))
    case Lock => s.(gate := s.gate.(callers := callers[c := Reading(callers[c].event)]))
    case Check =>
      s.(gate := s.gate.(callers := if s.gate.accepting then callers[c := Admitted(callers[c].event)] else callers - {c}))
    case Offer =>
      var freed := s.(gate := s.gate.(callers := callers - {c}));
      if s.gate.closed then freed.(panicked := true)
      else if |s.intake.queue| < cfg.eventCapacity then
        freed.(intake := s.intake.(queue := s.intake.queue + [callers[c].event],
                                   accepted := s.intake.accepted + [callers[c].event]))
      else freed.(intake := s.intake.(dropped := s.intake.dropped + 1))
  }

  ghost predicate FinisherReady(s: State) {
    match s.gate.finisher
    case NotLaunched => false
    case AwaitListener => s.signals.listenerDone
    case WantLock => !s.gate.writer && NoneReading(s.gate.callers)
    case AwaitEvaluator => s.evaluation.phase.Exited?
    case AwaitWorkers => s.signals.workersDone
    case AwaitReporter => s.signals.reporterDone
    case Finished => false
    case _ => true
  }

  function Following(f: Finisher): Finisher {
    match f
    case AwaitListener => WantLock
    case WantLock => Locked
    case Locked => Unlocking
    case Unlocking => AwaitEvaluator
    case AwaitEvaluator => AwaitWorkers
    case AwaitWorkers => Canceling
    case Canceling => AwaitReporter
    case AwaitReporter => Closing
    case Closing => Finished
    case _ => f
  }

  /** Locks, closes the event queue, unlocks, cancels the work, closes `done`; closing a closed channel panics. */
  function FinisherNext(s: State): State {
    var f := s.gate.finisher;
    s.(gate := s.gate.(finisher := Following(f), closed := s.gate.closed || f.Locked?,
                       writer := f.WantLock? || (s.gate.writer && !f.Unlocking?)),
       signals := s.signals.(canceled := s.signals.canceled || f.Canceling?, done := s.signals.done || f.Closing?),
       panicked := s.panicked || (f.Locked? && s.gate.closed) || (f.Closing? && s.signals.done))
  }

  /** A send waits while the queue is full, a receive while it is empty and open. */
  predicate EvaluatorReady(cfg: Config, s: State, step: EvaluatorStep)
    requires |cfg.capacities| > 0 && |s.delivery.queues| == |cfg.capacities|
  {
    var e := s.evaluation.phase;
    match step
    case TakeEvent => s.gate.started && e.Idle? && s.intake.queue != []
    case Decide(job) => e.Evaluating? && e.pending.None? && job.event == e.event
    case Queue =>
      && e.Evaluating? && e.pending.Some?
      && var i := IndexOf(cfg, e.pending.value);
         i in s.evaluation.closedQueues || |s.delivery.queues[i]| < cfg.capacities[i]
    case Drop => e.Evaluating? && e.pending.Some? && s.signals.canceled
    case EndEvent => e.Evaluating? && e.pending.None?
    case Quit => s.gate.started && e.Idle? && (s.signals.canceled || (s.gate.closed && s.intake.queue == []))
    case CloseNext => e.ClosingQueues?
  }

  function EvaluatorNext(cfg: Config, s: State, step: EvaluatorStep): State
    requires |cfg.capacities| > 0 && |s.delivery.queues| == |cfg.capacities| && EvaluatorReady(cfg, s, step)
  {
    var v := s.evaluation;
    match step
    case TakeEvent =>
      s.(evaluation := v.(phase := Evaluating(s.intake.queue[0], None)), intake := s.intake.(queue := s.intake.queue[1..]))
    case Decide(job) => s.(evaluation := v.(phase := Evaluating(v.phase.event, Some(job)), decided := v.decided + [job]))
    case Queue =>
      var job := v.phase.pending.value;
      var i := IndexOf(cfg, job);
      if i in v.closedQueues then s.(panicked := true)
      else s.(evaluation := v.(phase := Evaluating(v.phase.event, None), sent := v.sent + [job]),
              delivery := s.delivery.(queues := s.delivery.queues[i := s.delivery.queues[i] + [job]]))
    case Drop => s.(evaluation := v.(phase := Idle, processed := v.processed + [Processed(v.phase.event, false)]))
    case EndEvent => s.(evaluation := v.(phase := Idle, processed := v.processed + [Processed(v.phase.event, true)]))
    case Quit => s.(evaluation := v.(phase := ClosingQueues(0)))
    case CloseNext =>
      var k := v.phase.next;
      if k >= |s.delivery.queues| then s.(evaluation := v.(phase := Exited))
      else s.(evaluation := v.(phase := ClosingQueues(k + 1), closedQueues := v.closedQueues + {k}),
              panicked := s.panicked || k in v.closedQueues)
  }

  predicate WorkerReady(s: State, i: nat, step: WorkerStep)
    requires |s.delivery.queues| == |s.delivery.workers|
  {
    && s.gate.started && i < |s.delivery.workers|
    && match step
       case TakeJob => s.delivery.workers[i].Free? && s.delivery.queues[i] != []
       case EndJob => s.delivery.workers[i].Delivering?
       case Leave =>
         s.delivery.workers[i].Free? &&
         (s.signals.canceled || (i in s.evaluation.closedQueues && s.delivery.queues[i] == []))
  }

  function WorkerNext(d: Delivery, i: nat, step: WorkerStep): Delivery
    requires |d.queues| == |d.workers| == |d.handed| && i < |d.workers|
    requires step.TakeJob? ==> d.queues[i] != []
  {
    match step
    case TakeJob =>
      var job := d.queues[i][0];
      Delivery(d.queues[i := d.queues[i][1..]], d.workers[i := Delivering(job)], d.handed[i := d.handed[i] + [job]])
    case EndJob => d.(workers := d.workers[i := Free])
    case Leave => d.(workers := d.workers[i := Gone])
  }

  ghost predicate Enabled(cfg: Config, s: State, step: Step)
    requires Shape(cfg, s.delivery)
  {
    match step
    case Start => !s.gate.started
    case ByCaller(c, caller) => CallerReady(s.gate, c, caller)
    case StopAccepting => s.gate.started && s.gate.stop.Running?
    case CancelListener => s.gate.stop.Refusing?
    case LaunchFinisher => s.gate.stop.ListenerCanceled?
    case ListenerExits => !s.signals.listenerDone && (s.gate.stop.ListenerCanceled? || s.gate.stop.Launched?)
    case FinisherMoves => FinisherReady(s)
    case ByEvaluator(evaluator) => EvaluatorReady(cfg, s, evaluator)
    case ByWorker(i, worker) => WorkerReady(s, i, worker)
    case WorkersJoin => !s.signals.workersDone && AllGone(s.delivery.workers)
    case ReporterExits => s.gate.started && s.signals.canceled && !s.signals.reporterDone
    case ForceCancel => s.gate.stop.Launched?
  }

  ghost function Next(cfg: Config, s: State, step: Step): State
    requires Shape(cfg, s.delivery) && Enabled(cfg, s, step)
  {
    match step
    case Start => s.(gate := s.gate.(started := true, accepting := true))
    case ByCaller(c, caller) => CallerNext(cfg, s, c, caller)
    case StopAccepting => s.(gate := s.gate.(accepting := false, stop := Refusing))
    case CancelListener => s.(gate := s.gate.(stop := ListenerCanceled))
    case LaunchFinisher => s.(gate := s.gate.(stop := Launched, finisher := AwaitListener))
    case ListenerExits => s.(signals := s.signals.(listenerDone := true))
    case FinisherMoves => FinisherNext(s)
    case ByEvaluator(evaluator) => EvaluatorNext(cfg, s, evaluator)
    case ByWorker(i, worker) => s.(delivery := WorkerNext(s.delivery, i, worker))
    case WorkersJoin => s.(signals := s.signals.(workersDone := true))
    case ReporterExits => s.(signals := s.signals.(reporterDone := true))
    case ForceCancel => s.(signals := s.signals.(canceled := true, forced := true))
  }

  // ---------- What every step keeps ----------

  predicate PastLocked(f: Finisher) {
    !f.NotLaunched? && !f.AwaitListener? && !f.WantLock? && !f.Locked?
  }

  predicate PastEvaluator(f: Finisher) {
    PastLocked(f) && !f.Unlocking? && !f.AwaitEvaluator?
  }

  predicate PastWorkers(f: Finisher) {
    PastEvaluator(f) && !f.AwaitWorkers?
  }

  predicate PastCancel(f: Finisher) {
    PastWorkers(f) && !f.Canceling?
  }

  ghost predicate NoneAdmitted(callers: map<CallerId, Caller>) {
    forall c :: c in callers ==> !callers[c].Admitted?
  }

  /** The event queue is closed once, under the write lock, when nobody can send on it any more. */
  ghost predicate GateKept(g: Gate) {
    && (g.accepting ==> g.stop.Running?) && (!g.stop.Running? ==> g.started)
    && (g.finisher.NotLaunched? <==> !g.stop.Launched?)
    && (g.writer <==> g.finisher.Locked? || g.finisher.Unlocking?)
    && (g.writer ==> NoneReading(g.callers))
    && (g.closed <==> PastLocked(g.finisher))
    && (g.closed ==> NoneAdmitted(g.callers))
  }

  function ClosedBefore(e: Evaluator, n: nat): nat {
    match e
    case ClosingQueues(k) => k
    case Exited => n
    case _ => 0
  }

  ghost predicate Prefix(closed: set<nat>, k: nat) {
    forall i: nat :: i in closed <==> i < k
  }

  /** The evaluator closes the delivery queues one by one, and sends on none of them afterwards. */
  ghost predicate QueuesKept(v: Evaluation, n: nat) {
    Prefix(v.closedQueues, ClosedBefore(v.phase, n)) && ClosedBefore(v.phase, n) <= n
  }

  predicate Leaving(e: Evaluator) {
    e.ClosingQueues? || e.Exited?
  }

  /** The finisher has waited for what it says; only it, or a caller in a hurry, cancels the work. */
  ghost predicate WaitsKept(f: Finisher, e: Evaluator, workers: seq<Worker>, g: Signals) {
    && (PastEvaluator(f) ==> e.Exited?)
    && (PastWorkers(f) ==> g.workersDone)
    && (g.workersDone ==> AllGone(workers))
    && (g.canceled ==> g.forced || PastCancel(f)) && (g.forced ==> g.canceled)
    && (PastCancel(f) ==> g.canceled)
    && (g.done <==> f.Finished?)
  }

  /** A worker that left did so after the last job of its closed queue. */
  ghost predicate WorkersDrained(closedQueues: set<nat>, d: Delivery) {
    forall i :: 0 <= i < |d.workers| && i < |d.queues| && d.workers[i].Gone? ==> i in closedQueues && d.queues[i] == []
  }

  /** The evaluator left after the last event of the closed queue. */
  predicate EventsDrained(closed: bool, queue: seq<Event>, e: Evaluator) {
    Leaving(e) ==> closed && queue == []
  }

  function EventsOf(processed: seq<Processed>): seq<Event> {
    seq(|processed|, i requires 0 <= i < |processed| => processed[i].event)
  }

  ghost predicate AllComplete(processed: seq<Processed>) {
    forall i :: 0 <= i < |processed| ==> processed[i].complete
  }

  function Current(e: Evaluator): seq<Event> {
    if e.Evaluating? then [e.event] else []
  }

  function Pending(e: Evaluator): seq<Job> {
    if e.Evaluating? && e.pending.Some? then [e.pending.value] else []
  }

  /** Accepted events, in order: processed, being evaluated, queued. */
  ghost predicate EventFlow(n: Intake, processed: seq<Processed>, e: Evaluator) {
    n.accepted == EventsOf(processed) + Current(e) + n.queue
  }

  /** Every event was evaluated to its end, and every decided job was queued. */
  ghost predicate NothingLost(v: Evaluation) {
    AllComplete(v.processed) && v.decided == v.sent + Pending(v.phase)
  }

  /** The jobs meant for one worker, in order. */
  function For(cfg: Config, jobs: seq<Job>, i: nat): seq<Job>
    requires |cfg.capacities| > 0
  {
    if jobs == [] then []
    else
      var last := jobs[|jobs| - 1];
      For(cfg, jobs[..|jobs| - 1], i) + if IndexOf(cfg, last) == i then [last] else []
  }

  /** Jobs sent to a worker, in order: handed over, queued. */
  ghost predicate JobFlow(cfg: Config, sent: seq<Job>, d: Delivery) {
    Shape(cfg, d) && forall i :: 0 <= i < |d.queues| ==> For(cfg, sent, i) == d.handed[i] + d.queues[i]
  }

  ghost predicate Drained(s: State) {
    && EventsDrained(s.gate.closed, s.intake.queue, s.evaluation.phase)
    && WorkersDrained(s.evaluation.closedQueues, s.delivery)
    && NothingLost(s.evaluation)
  }

  ghost predicate Keeps(cfg: Config, s: State) {
    && Shape(cfg, s.delivery) && !s.panicked
    && GateKept(s.gate)
    && QueuesKept(s.evaluation, |s.delivery.queues|)
    && WaitsKept(s.gate.finisher, s.evaluation.phase, s.delivery.workers, s.signals)
    && EventFlow(s.intake, s.evaluation.processed, s.evaluation.phase)
    && JobFlow(cfg, s.evaluation.sent, s.delivery)
    && (!s.signals.forced ==> Drained(s))
  }

  lemma InitialKeeps(cfg: Config)
    requires |cfg.capacities| > 0
    ensures Keeps(cfg, Initial(cfg))
  {
    assert EventsOf([]) == [];
  }

  lemma CallerKeeps(cfg: Config, s: State, c: CallerId, step: CallerStep)
    requires Keeps(cfg, s) && CallerReady(s.gate, c, step)
    ensures Keeps(cfg, CallerNext(cfg, s, c, step))
  {
    hide QueuesKept, WaitsKept, JobFlow, WorkersDrained, NothingLost, Shape;
  }

  lemma FinisherKeeps(cfg: Config, s: State)
    requires Keeps(cfg, s) && FinisherReady(s)
    ensures Keeps(cfg, FinisherNext(s))
  {
    hide QueuesKept, EventFlow, JobFlow, WorkersDrained, NothingLost, Shape, AllGone, NoneReading, NoneAdmitted;
    NoReaderIsAdmitted(s.gate.callers);
  }

  lemma NoReaderIsAdmitted(callers: map<CallerId, Caller>)
    ensures NoneReading(callers) ==> NoneAdmitted(callers)
  {
  }

  lemma ForSnoc(cfg: Config, jobs: seq<Job>, job: Job, i: nat)
    requires |cfg.capacities| > 0
    ensures For(cfg, jobs + [job], i) == For(cfg, jobs, i) + if IndexOf(cfg, job) == i then [job] else []
  {
    assert (jobs + [job])[..|jobs|] == jobs;
  }

  lemma QueueKeeps(cfg: Config, s: State)
    requires Keeps(cfg, s) && EvaluatorReady(cfg, s, Queue)
    ensures Keeps(cfg, EvaluatorNext(cfg, s, Queue))
  {
    hide GateKept, AllGone, For, IndexOf, AllComplete;
    var v := s.evaluation;
    var job := v.phase.pending.value;
    forall i: nat ensures For(cfg, v.sent + [job], i) == For(cfg, v.sent, i) + if IndexOf(cfg, job) == i then [job] else [] {
      ForSnoc(cfg, v.sent, job, i);
    }
  }

  lemma CloseNextKeeps(cfg: Config, s: State)
    requires Keeps(cfg, s) && EvaluatorReady(cfg, s, CloseNext)
    ensures Keeps(cfg, EvaluatorNext(cfg, s, CloseNext))
  {
    hide GateKept, JobFlow, AllComplete, AllGone;
  }

  lemma EvaluatorKeeps(cfg: Config, s: State, step: EvaluatorStep)
    requires Keeps(cfg, s) && EvaluatorReady(cfg, s, step) && !step.Queue? && !step.CloseNext?
    ensures Keeps(cfg, EvaluatorNext(cfg, s, step))
  {
    hide GateKept, JobFlow, Shape, Prefix, AllGone, WorkersDrained;
  }

  lemma WorkerKeeps(cfg: Config, s: State, i: nat, step: WorkerStep)
    requires Keeps(cfg, s) && WorkerReady(s, i, step)
    ensures Keeps(cfg, s.(delivery := WorkerNext(s.delivery, i, step)))
  {
    hide GateKept, QueuesKept, EventFlow, EventsDrained, NothingLost, For;
  }

  /** Every step of every goroutine keeps the invariant; in particular none panics. */
  lemma StepKeeps(cfg: Config, s: State, step: Step)
    requires Keeps(cfg, s) && Enabled(cfg, s, step)
    ensures Keeps(cfg, Next(cfg, s, step))
  {
    hide QueuesKept, EventFlow, JobFlow, WorkersDrained, NothingLost, AllGone, NoneReading, NoneAdmitted,
         CallerNext, FinisherNext, EvaluatorNext, WorkerNext;
    match step
    case ByCaller(c, caller) => CallerKeeps(cfg, s, c, caller);
    case FinisherMoves => FinisherKeeps(cfg, s);
    case ByEvaluator(evaluator) =>
      if evaluator.Queue? { QueueKeeps(cfg, s); }
      else if evaluator.CloseNext? { CloseNextKeeps(cfg, s); }
      else { EvaluatorKeeps(cfg, s, evaluator); }
    case ByWorker(i, worker) => WorkerKeeps(cfg, s, i, worker);
    case _ =>
  }

  // ---------- Runs ----------

  ghost predicate Moves(cfg: Config, s: State, step: Step, t: State) {
    Shape(cfg, s.delivery) && Enabled(cfg, s, step) && t == Next(cfg, s, step)
  }

  /** Any interleaving of the goroutines from the start. */
  ghost predicate IsRun(cfg: Config, states: seq<State>, steps: seq<Step>) {
    && |cfg.capacities| > 0 && |states| == |steps| + 1 && states[0] == Initial(cfg)
    && forall i :: 0 <= i < |steps| ==> Moves(cfg, states[i], steps[i], states[i + 1])
  }

  lemma {:induction false} RunKeeps(cfg: Config, states: seq<State>, steps: seq<Step>, i: nat)
    requires IsRun(cfg, states, steps) && i < |states|
    ensures Keeps(cfg, states[i])
  {
    hide Keeps, Enabled, Next, Initial, Shape;
    if i == 0 {
      InitialKeeps(cfg);
    } else {
      RunKeeps(cfg, states, steps, i - 1);
      assert Moves(cfg, states[i - 1], steps[i - 1], states[i]);
      StepKeeps(cfg, states[i - 1], steps[i - 1]);
    }
  }

  /** No goroutine ever sends on, or closes, a channel that is closed. */
  lemma NeverPanics(cfg: Config, states: seq<State>, steps: seq<Step>, i: nat)
    requires IsRun(cfg, states, steps) && i < |states|
    ensures !states[i].panicked
  {
    hide IsRun;
    RunKeeps(cfg, states, steps, i);
  }

  /**
   * When shutdown is done and nobody forced it, every accepted event was evaluated to its end, in order, and
   * every job that was decided on was handed to its worker, in order.
   */
  lemma DoneMeansDrained(cfg: Config, states: seq<State>, steps: seq<Step>, i: nat)
    requires IsRun(cfg, states, steps) && i < |states| && states[i].signals.done && !states[i].signals.forced
    ensures var s := states[i];
            && EventsOf(s.evaluation.processed) == s.intake.accepted && AllComplete(s.evaluation.processed)
            && |s.delivery.handed| == |cfg.capacities|
            && (forall w :: 0 <= w < |cfg.capacities| ==> s.delivery.handed[w] == For(cfg, s.evaluation.decided, w))
            && NoneAdmitted(s.gate.callers)
  {
    hide IsRun, For;
    RunKeeps(cfg, states, steps, i);
    var s := states[i];
    assert s.evaluation.decided == s.evaluation.sent;
    forall w | 0 <= w < |cfg.capacities| ensures s.delivery.handed[w] == For(cfg, s.evaluation.decided, w) {
      assert s.delivery.workers[w].Gone?;
      assert For(cfg, s.evaluation.sent, w) == s.delivery.handed[w] + s.delivery.queues[w];
    }
  }

  /** The jobs of one deduplication key, in order. */
  function WithKey(jobs: seq<Job>, ruleId: int, keyHash: string): seq<Job> {
    if jobs == [] then []
    else
      var last := jobs[|jobs| - 1];
      WithKey(jobs[..|jobs| - 1], ruleId, keyHash) + if last.ruleId == ruleId && last.keyHash == keyHash then [last] else []
  }

  lemma {:induction false} WithKeyConcat(a: seq<Job>, b: seq<Job>, ruleId: int, keyHash: string)
    ensures WithKey(a + b, ruleId, keyHash) == WithKey(a, ruleId, keyHash) + WithKey(b, ruleId, keyHash)
    decreases |b|
  {
    if b == [] {
      assert a + b == a;
    } else {
      WithKeyConcat(a, b[..|b| - 1], ruleId, keyHash);
      assert (a + b)[..|a + b| - 1] == a + b[..|b| - 1];
    }
  }

  /** A key has one worker. */
  lemma {:induction false} KeyHasOneWorker(cfg: Config, jobs: seq<Job>, ruleId: int, keyHash: string, w: nat)
    requires |cfg.capacities| > 0
    ensures WithKey(For(cfg, jobs, w), ruleId, keyHash) ==
            if w == WorkerIndex(cfg.hexValue, ruleId, keyHash, |cfg.capacities|) then WithKey(jobs, ruleId, keyHash) else []
  {
    hide WorkerIndex;
    if jobs != [] {
      var init, last := jobs[..|jobs| - 1], jobs[|jobs| - 1];
      KeyHasOneWorker(cfg, init, ruleId, keyHash, w);
      WithKeyConcat(For(cfg, init, w), if IndexOf(cfg, last) == w then [last] else [], ruleId, keyHash);
      assert [last][..0] == [];
    }
  }

  /**
   * In every schedule, the jobs of a key are handed only to that key's worker, in the order in which the
   * evaluator queued them.
   */
  lemma SameKeyInOrder(cfg: Config, states: seq<State>, steps: seq<Step>, i: nat, ruleId: int, keyHash: string, w: nat)
    requires IsRun(cfg, states, steps) && i < |states| && w < |states[i].delivery.handed|
    ensures var s := states[i];
            var started := WithKey(s.delivery.handed[w], ruleId, keyHash);
            if w == WorkerIndex(cfg.hexValue, ruleId, keyHash, |cfg.capacities|)
            then started <= WithKey(s.evaluation.sent, ruleId, keyHash)
            else started == []
    ensures !states[i].signals.forced ==> states[i].evaluation.sent <= states[i].evaluation.decided
  {
    hide IsRun, For, WithKey;
    RunKeeps(cfg, states, steps, i);
    var s := states[i];
    assert For(cfg, s.evaluation.sent, w) == s.delivery.handed[w] + s.delivery.queues[w];
    WithKeyConcat(s.delivery.handed[w], s.delivery.queues[w], ruleId, keyHash);
    KeyHasOneWorker(cfg, s.evaluation.sent, ruleId, keyHash, w);
  }

  // ---------- Shutdown cannot get stuck ----------

  /** Steps that some goroutine of the dispatcher takes by itself, apart from deciding on one more job. */
  predicate Internal(step: Step) {
    match step
    case ByCaller(_, caller) => !caller.Enter?
    case ByEvaluator(evaluator) => !evaluator.Decide?
    case ForceCancel => false
    case Start => false
    case _ => true
  }

  ghost predicate CanMove(cfg: Config, s: State)
    requires Shape(cfg, s.delivery)
  {
    exists step :: Internal(step) && Enabled(cfg, s, step)
  }

  lemma CallersLetFinisherIn(cfg: Config, s: State)
    requires Keeps(cfg, s) && s.gate.finisher.WantLock?
    ensures CanMove(cfg, s)
  {
    if NoneReading(s.gate.callers) {
      assert Enabled(cfg, s, FinisherMoves);
    } else {
      var c :| c in s.gate.callers && !s.gate.callers[c].Waiting?;
      var step := ByCaller(c, if s.gate.callers[c].Reading? then Check else Offer);
      assert Internal(step) && Enabled(cfg, s, step);
    }
  }

  lemma EvaluatorCanLeave(cfg: Config, s: State)
    requires Keeps(cfg, s) && s.gate.closed && forall i :: 0 <= i < |cfg.capacities| ==> cfg.capacities[i] > 0
    ensures s.evaluation.phase.Exited? || CanMove(cfg, s)
  {
    hide EventFlow, JobFlow, NothingLost, IndexOf;
    var e := s.evaluation.phase;
    if e.Evaluating? && e.pending.Some? && !EvaluatorReady(cfg, s, Queue) {
      var i := IndexOf(cfg, e.pending.value);
      assert s.delivery.queues[i] != [];
      var step := if s.delivery.workers[i].Free? then ByWorker(i, TakeJob)
                  else if s.delivery.workers[i].Delivering? then ByWorker(i, EndJob)
                  else ByEvaluator(Drop);
      assert Internal(step) && Enabled(cfg, s, step);
    } else if !e.Exited? {
      var step := if e.Evaluating? then (if e.pending.None? then EndEvent else Queue)
                  else if e.ClosingQueues? then CloseNext
                  else if s.intake.queue == [] then Quit else TakeEvent;
      assert Internal(ByEvaluator(step)) && Enabled(cfg, s, ByEvaluator(step));
    }
  }

  lemma WorkersCanLeave(cfg: Config, s: State)
    requires Keeps(cfg, s) && s.gate.finisher.AwaitWorkers?
    ensures CanMove(cfg, s)
  {
    hide EventFlow, JobFlow, NothingLost;
    if s.signals.workersDone {
      assert Enabled(cfg, s, FinisherMoves);
    } else if AllGone(s.delivery.workers) {
      assert Enabled(cfg, s, WorkersJoin);
    } else {
      var i: nat :| i < |s.delivery.workers| && !s.delivery.workers[i].Gone?;
      var step := if s.delivery.workers[i].Delivering? then EndJob
                  else if s.delivery.queues[i] == [] then Leave else TakeJob;
      assert Enabled(cfg, s, ByWorker(i, step));
    }
  }

  /** Once shutdown was launched, the dispatcher can always take a further step by itself until it is done. */
  lemma ShutdownNeverStuck(cfg: Config, states: seq<State>, steps: seq<Step>, i: nat)
    requires IsRun(cfg, states, steps) && i < |states|
    requires forall k :: 0 <= k < |cfg.capacities| ==> cfg.capacities[k] > 0
    requires states[i].gate.stop.Launched? && !states[i].signals.done
    ensures Keeps(cfg, states[i]) && CanMove(cfg, states[i])
  {
    hide IsRun, EventFlow, JobFlow, QueuesKept, Drained;
    RunKeeps(cfg, states, steps, i);
    var s := states[i];
    if s.gate.finisher.WantLock? {
      CallersLetFinisherIn(cfg, s);
    } else if s.gate.finisher.AwaitEvaluator? && !s.evaluation.phase.Exited? {
      EvaluatorCanLeave(cfg, s);
    } else if s.gate.finisher.AwaitWorkers? {
      WorkersCanLeave(cfg, s);
    } else {
      var step := if s.gate.finisher.AwaitListener? && !s.signals.listenerDone then ListenerExits
                  else if s.gate.finisher.AwaitReporter? && !s.signals.reporterDone then ReporterExits
                  else FinisherMoves;
      assert Internal(step) && Enabled(cfg, s, step);
    }
  }
}
