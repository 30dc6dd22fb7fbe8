/**
 * What a rule decides, told from the events alone: no phase, no counter and no
 * deadline is kept, only which events came and when. The evaluation of a rule
 * decides this on every run.
 */
module AlertHistory {
  import opened Options
  import opened AlertMatching

  // ---------- What an event is to a rule ----------

  /** The rule and the event pass validation, the time is set, and the event carries the machine's key. */
  ghost predicate Accepted(m: Machine, input: Input) {
    && ValidRule(m.cat, m.rule) && m.cat.validEvent(input.event)
    && m.rule.id > 0 && input.now != 0 && KeyHash(m.cat, m.rule, input.event) == m.key
  }

  /** The events the delivery of alerts itself causes. */
  ghost predicate OwnNoise(action: string) {
    action in {"alert_delivery.tested", "alert_delivery.failed", "alert_delivery.queue_overflow"}
  }

  ghost predicate Passes(filter: string, value: string) {
    filter == "" || filter == value
  }

  ghost predicate Recovers(m: Machine, input: Input) {
    && Accepted(m, input) && m.rule.enabled && !OwnNoise(input.event.action)
    && input.event.action != "" && input.event.action == m.rule.recoveryAction
  }

  ghost predicate Triggers(m: Machine, input: Input) {
    && Accepted(m, input) && m.rule.enabled && !OwnNoise(input.event.action) && !Recovers(m, input)
    && Passes(m.rule.category, input.event.category)
    && Passes(m.rule.severity, input.event.severity)
    && Passes(m.rule.eventAction, input.event.action)
  }

  lemma KindIsFiltered(m: Machine, input: Input)
    ensures KindOf(m, input).Rejected? <==> !Accepted(m, input)
    ensures KindOf(m, input).Recovery? <==> Recovers(m, input)
    ensures KindOf(m, input).Match? <==> Triggers(m, input)
  {
    hide KeyHash, ValidRule;
  }

  // ---------- The decisions ----------

  /** The time allows the event at `now` into the window begun at `start`. */
  ghost predicate Within(m: Machine, start: int, now: int) {
    m.rule.windowSeconds == 0 || now <= start + m.rule.windowSeconds * SECOND
  }

  /** The number of triggers in inputs[lo..hi]. */
  ghost function Count(m: Machine, inputs: seq<Input>, lo: nat, hi: nat): nat
    requires lo <= hi <= |inputs|
  {
    if lo == hi then 0 else Count(m, inputs, lo, hi - 1) + if Triggers(m, inputs[hi - 1]) then 1 else 0
  }

  /** The last notification before n, unless a recovery event came after it. */
  ghost function Alarm(m: Machine, inputs: seq<Input>, n: nat): (r: Option<nat>)
    requires n <= |inputs|
    ensures r.Some? ==> r.value < n
    decreases n, 0
  {
    if n == 0 || Recovers(m, inputs[n - 1]) then None
    else if Expected(m, inputs, n - 1) == Notify then Some(n - 1)
    else Alarm(m, inputs, n - 1)
  }

  /** The trigger the window of a trigger at n begins with: an earlier one that still admits it, or itself. */
  ghost function Opener(m: Machine, inputs: seq<Input>, n: nat): (r: nat)
    requires n < |inputs|
    ensures r <= n
    decreases n, 1
  {
    var r := LastOpener(m, inputs, n);
    if r.Some? && Within(m, inputs[r.value].now, inputs[n].now) then r.value else n
  }

  /** The trigger that opened the last window before n, unless an alarm closed it. */
  ghost function LastOpener(m: Machine, inputs: seq<Input>, n: nat): (r: Option<nat>)
    requires n <= |inputs|
    ensures r.Some? ==> r.value < n
    decreases n, 0
  {
    if n == 0 then None
    else if !Triggers(m, inputs[n - 1]) then LastOpener(m, inputs, n - 1)
    else if Alarm(m, inputs, n - 1).Some? || Expected(m, inputs, n - 1) == Notify then None
    else Some(Opener(m, inputs, n - 1))
  }

  ghost function Expected(m: Machine, inputs: seq<Input>, i: nat): Decision
    requires i < |inputs|
    decreases i, 2
  {
    var alarm := Alarm(m, inputs, i);
    if Recovers(m, inputs[i]) then
      if alarm.Some? && m.rule.notifyRecovery then Recover else Nothing
    else if !Triggers(m, inputs[i]) then Nothing
    else if alarm.Some? then
      if inputs[i].now >= inputs[alarm.value].now + m.rule.cooldownSeconds * SECOND then Notify else Suppress
    else if Count(m, inputs, Opener(m, inputs, i), i + 1) >= m.rule.count then Notify
    else Nothing
  }

  // ---------- The state tells the same story ----------

  /** What the state after n inputs remembers of them. */
  ghost predicate Tells(m: Machine, inputs: seq<Input>, n: nat, s: RuleState)
    requires n <= |inputs|
  {
    var alarm, opener := Alarm(m, inputs, n), LastOpener(m, inputs, n);
    && Sane(m, s) && (s.phase.Firing? <==> alarm.Some?)
    && (alarm.Some? ==> s.lastNotifiedAt == Some(inputs[alarm.value].now))
    && (s.windowStartedAt.Some? <==> opener.Some?)
    && (opener.Some? ==> s.windowStartedAt == Some(inputs[opener.value].now) &&
                         s.windowMatchCount == Count(m, inputs, opener.value, n))
  }

  lemma Begins(m: Machine, inputs: seq<Input>)
    ensures Tells(m, inputs, 0, Fresh(m))
  {
  }

  /** An event that is neither a trigger nor a recovery changes nothing. */
  lemma PassBy(m: Machine, inputs: seq<Input>, n: nat, s: RuleState)
    requires n < |inputs| && Tells(m, inputs, n, s) && !Triggers(m, inputs[n]) && !Recovers(m, inputs[n])
    ensures Step(m, s, inputs[n]).decision == Expected(m, inputs, n) && Tells(m, inputs, n + 1, Step(m, s, inputs[n]).state)
  {
    hide Triggers, Recovers, Step, Sane;
    KindIsFiltered(m, inputs[n]);
    assert Sane(m, s);
    StepByKind(m, s, inputs[n]);
  }

  lemma RecoverOn(m: Machine, inputs: seq<Input>, n: nat, s: RuleState)
    requires n < |inputs| && Tells(m, inputs, n, s) && Recovers(m, inputs[n])
    ensures Step(m, s, inputs[n]).decision == Expected(m, inputs, n) && Tells(m, inputs, n + 1, Step(m, s, inputs[n]).state)
  {
    assert !Triggers(m, inputs[n]);
    hide Triggers, Recovers, Step;
    KindIsFiltered(m, inputs[n]);
    StepByKind(m, s, inputs[n]);
  }

  lemma FiringTrigger(m: Machine, inputs: seq<Input>, n: nat, s: RuleState)
    requires n < |inputs| && Tells(m, inputs, n, s) && Triggers(m, inputs[n]) && s.phase.Firing?
    ensures Step(m, s, inputs[n]).decision == Expected(m, inputs, n) && Tells(m, inputs, n + 1, Step(m, s, inputs[n]).state)
  {
    assert !Recovers(m, inputs[n]);
    hide Triggers, Recovers, Step, Opener, Count;
    KindIsFiltered(m, inputs[n]);
    StepByKind(m, s, inputs[n]);
  }

  lemma IdleTrigger(m: Machine, inputs: seq<Input>, n: nat, s: RuleState)
    requires n < |inputs| && Tells(m, inputs, n, s) && Triggers(m, inputs[n]) && s.phase.Idle?
    ensures Step(m, s, inputs[n]).decision == Expected(m, inputs, n) && Tells(m, inputs, n + 1, Step(m, s, inputs[n]).state)
  {
    assert !Recovers(m, inputs[n]);
    hide Triggers, Recovers, Step;
    KindIsFiltered(m, inputs[n]);
    StepByKind(m, s, inputs[n]);
    var j := Opener(m, inputs, n);
    assert Count(m, inputs, j, n + 1) == Count(m, inputs, j, n) + 1;
    assert j == n ==> Count(m, inputs, j, n) == 0;
  }

  lemma {:induction false} StateTells(m: Machine, inputs: seq<Input>, n: nat)
    requires n <= |inputs|
    ensures Tells(m, inputs, n, StateAfter(m, inputs[..n]))
  {
    hide Tells, Triggers, Recovers, Step, Expected;
    if n == 0 {
      Begins(m, inputs);
      assert StateAfter(m, inputs[..0]) == Fresh(m);
    } else {
      StateTells(m, inputs, n - 1);
      Next(m, inputs, n - 1);
      OneMore(m, inputs, n - 1, StateAfter(m, inputs[..n - 1]));
    }
  }

  lemma OneMore(m: Machine, inputs: seq<Input>, n: nat, s: RuleState)
    requires n < |inputs| && Tells(m, inputs, n, s)
    ensures Step(m, s, inputs[n]).decision == Expected(m, inputs, n) && Tells(m, inputs, n + 1, Step(m, s, inputs[n]).state)
  {
    assert s.phase.Idle? || s.phase.Firing?;
    hide Tells, Triggers, Recovers, Step, Expected;
    if Recovers(m, inputs[n]) {
      RecoverOn(m, inputs, n, s);
    } else if !Triggers(m, inputs[n]) {
      PassBy(m, inputs, n, s);
    } else if s.phase.Firing? {
      FiringTrigger(m, inputs, n, s);
    } else {
      IdleTrigger(m, inputs, n, s);
    }
  }

  /** Every decision of every run is the one its events call for. */
  lemma DecisionsAreExpected(m: Machine, inputs: seq<Input>, i: nat)
    requires i < |inputs|
    ensures DecisionAt(m, inputs, i) == Expected(m, inputs, i)
  {
    hide Tells, Step, Expected, StateAfter;
    StateTells(m, inputs, i);
    OneMore(m, inputs, i, StateAfter(m, inputs[..i]));
  }

  /** An evaluation is refused exactly when its input is not acceptable, and then changes nothing. */
  lemma RefusedIsUnacceptable(m: Machine, inputs: seq<Input>, i: nat)
    requires i < |inputs|
    ensures var s := StateAfter(m, inputs[..i]); var e := Step(m, s, inputs[i]);
            (e.invalid <==> !Accepted(m, inputs[i])) && (e.invalid ==> e.state == s && e.decision == Nothing)
  {
    hide Step, StateAfter, Accepted;
    KindIsFiltered(m, inputs[i]);
    ReachableIsSane(m, inputs[..i]);
    StepByKind(m, StateAfter(m, inputs[..i]), inputs[i]);
  }

  // ---------- Notifying again, and recovering ----------

  /** The last notification before j is at i, and no recovery event lies between them. */
  ghost predicate LastAlarm(m: Machine, inputs: seq<Input>, i: nat, j: nat) {
    && i < j <= |inputs| && DecisionAt(m, inputs, i) == Notify
    && forall k :: i < k < j ==> DecisionAt(m, inputs, k) != Notify && !Recovers(m, inputs[k])
  }

  lemma {:induction false} AlarmFound(m: Machine, inputs: seq<Input>, i: nat, n: nat)
    requires LastAlarm(m, inputs, i, n)
    ensures Alarm(m, inputs, n) == Some(i)
    decreases n
  {
    hide Expected, DecisionAt, Recovers;
    DecisionsAreExpected(m, inputs, n - 1);
    if i < n - 1 {
      AlarmFound(m, inputs, i, n - 1);
    } else {
      NotifyIsNoRecovery(m, inputs, i);
    }
  }

  lemma NotifyIsNoRecovery(m: Machine, inputs: seq<Input>, i: nat)
    requires i < |inputs| && Expected(m, inputs, i) == Notify
    ensures !Recovers(m, inputs[i])
  {
    hide Recovers, Triggers;
  }

  /** A trigger while firing notifies again if and only if the cooldown since the last notification is over. */
  lemma CooldownDecides(m: Machine, inputs: seq<Input>, i: nat, j: nat)
    requires j < |inputs| && LastAlarm(m, inputs, i, j) && Triggers(m, inputs[j])
    ensures DecisionAt(m, inputs, j) ==
            if inputs[j].now >= inputs[i].now + m.rule.cooldownSeconds * 1_000_000_000 then Notify else Suppress
  {
    assert !Recovers(m, inputs[j]);
    hide DecisionAt, Recovers, Triggers, LastAlarm;
    AlarmFound(m, inputs, i, j);
    DecisionsAreExpected(m, inputs, j);
  }

  /** A recovery event ends an alarm, and tells of it if and only if the rule asks for that. */
  lemma RecoveryDecides(m: Machine, inputs: seq<Input>, j: nat)
    requires j < |inputs| && Recovers(m, inputs[j])
    ensures DecisionAt(m, inputs, j) ==
            if StateAfter(m, inputs[..j]).phase.Firing? && m.rule.notifyRecovery then Recover else Nothing
    ensures StateAfter(m, inputs[..j + 1]).phase.Idle?
  {
    hide Recovers, Triggers, StateAfter, Step;
    KindIsFiltered(m, inputs[j]);
    Next(m, inputs, j);
    StepByKind(m, StateAfter(m, inputs[..j]), inputs[j]);
  }

  // ---------- The times a state records ----------

  /** A state knows when its rule last matched, notified and recovered. */
  lemma {:induction false} TimesAreRecorded(m: Machine, inputs: seq<Input>, i: nat, n: nat)
    requires i < n <= |inputs|
    ensures (Triggers(m, inputs[i]) && forall k :: i < k < n ==> !Triggers(m, inputs[k])) ==>
              StateAfter(m, inputs[..n]).lastMatchedAt == Some(inputs[i].now)
    ensures (DecisionAt(m, inputs, i) == Notify && forall k :: i < k < n ==> DecisionAt(m, inputs, k) != Notify) ==>
              StateAfter(m, inputs[..n]).lastNotifiedAt == Some(inputs[i].now)
    ensures (Ended(m, inputs, i) && forall k :: i < k < n ==> !Ended(m, inputs, k)) ==>
              StateAfter(m, inputs[..n]).lastRecoveredAt == Some(inputs[i].now)
    decreases n
  {
    hide Triggers, Recovers, StateAfter, Step, DecisionAt, Ended;
    if i < n - 1 {
      TimesAreRecorded(m, inputs, i, n - 1);
    }
    TimesStep(m, inputs, n - 1);
  }

  /** Input k is a recovery event while the rule fires. */
  ghost predicate Ended(m: Machine, inputs: seq<Input>, k: nat) {
    k < |inputs| && Recovers(m, inputs[k]) && StateAfter(m, inputs[..k]).phase.Firing?
  }

  lemma TimesStep(m: Machine, inputs: seq<Input>, n: nat)
    requires n < |inputs|
    ensures var s, t := StateAfter(m, inputs[..n]), StateAfter(m, inputs[..n + 1]);
            && t.lastMatchedAt == (if Triggers(m, inputs[n]) then Some(inputs[n].now) else s.lastMatchedAt)
            && t.lastNotifiedAt == (if DecisionAt(m, inputs, n) == Notify then Some(inputs[n].now) else s.lastNotifiedAt)
            && t.lastRecoveredAt == (if Ended(m, inputs, n) then Some(inputs[n].now) else s.lastRecoveredAt)
  {
    hide Triggers, Recovers, StateAfter, Step;
    KindIsFiltered(m, inputs[n]);
    Next(m, inputs, n);
    StepByKind(m, StateAfter(m, inputs[..n]), inputs[n]);
  }
}
