/**
 * Alert rules: one evaluation step, and what whole runs of it guarantee.
 * Times are nanoseconds since the zero time.
 */
module AlertMatching {
  import opened Options
  import opened Bytes
  import opened AlertKeys

  const MAX_AGGREGATION_COUNT := 1024
  const MAX_AGGREGATION_WINDOW_SECONDS := 24 * 60 * 60
  const MAX_COOLDOWN_SECONDS := 7 * 24 * 60 * 60
  const SECOND := 1_000_000_000
  const ZERO_TIME := 0

  datatype Scope = PerRule | PerTarget | OtherScope

  datatype Rule = Rule(
    id: int, name: string, actionId: int, enabled: bool,
    category: string, severity: string, eventAction: string, recoveryAction: string,
    count: int, windowSeconds: int, cooldownSeconds: int, scope: Scope, notifyRecovery: bool)

  datatype Event = Event(action: string, category: string, severity: string, targetType: Bytes, targetId: Bytes)

  /** The system-event vocabulary, event validation, and the digest behind deduplication keys. */
  datatype Catalogue = Catalogue(
    goodName: string -> bool, knownCategory: string -> bool, knownSeverity: string -> bool, knownAction: string -> bool,
    validEvent: Event -> bool, digest: Bytes -> string, decimal: int -> Bytes)

  datatype Phase = Idle | Firing | OtherPhase

  datatype RuleState = RuleState(
    ruleId: int, key: string, phase: Phase,
    windowStartedAt: Option<int>, windowMatchCount: int, cooldownUntil: Option<int>,
    lastMatchedAt: Option<int>, lastNotifiedAt: Option<int>, lastRecoveredAt: Option<int>, updatedAt: int)

  datatype Decision = Nothing | Notify | Suppress | Recover

  datatype Evaluation = Evaluation(state: RuleState, decision: Decision, invalid: bool)

  predicate IsDeliveryAction(action: string) {
    action == "alert_delivery.tested" || action == "alert_delivery.failed" || action == "alert_delivery.queue_overflow"
  }

  predicate ValidRule(cat: Catalogue, rule: Rule) {
    && cat.goodName(rule.name) && rule.actionId > 0
    && !(rule.category == "" && rule.severity == "" && rule.eventAction == "")
    && (rule.category != "" ==> cat.knownCategory(rule.category))
    && (rule.severity != "" ==> cat.knownSeverity(rule.severity))
    && (rule.eventAction != "" ==> cat.knownAction(rule.eventAction))
    && (rule.recoveryAction != "" ==> cat.knownAction(rule.recoveryAction))
    && !IsDeliveryAction(rule.eventAction) && !IsDeliveryAction(rule.recoveryAction)
    && (rule.eventAction != "" ==> rule.recoveryAction != rule.eventAction)
    && (rule.notifyRecovery ==> rule.recoveryAction != "")
    && 1 <= rule.count <= MAX_AGGREGATION_COUNT
    && 0 <= rule.windowSeconds <= MAX_AGGREGATION_WINDOW_SECONDS
    && (rule.count > 1 ==> rule.windowSeconds != 0)
    && 0 <= rule.cooldownSeconds <= MAX_COOLDOWN_SECONDS
    && !rule.scope.OtherScope?
  }

  /** None when the rule or the event is invalid. */
  function MatchesTrigger(cat: Catalogue, rule: Rule, event: Event): Option<bool> {
    if !ValidRule(cat, rule) || !cat.validEvent(event) then None
    else if IsDeliveryAction(event.action) || !rule.enabled then Some(false)
    else Some((rule.category == "" || rule.category == event.category) &&
              (rule.severity == "" || rule.severity == event.severity) &&
              (rule.eventAction == "" || rule.eventAction == event.action))
  }

  function MatchesRecovery(cat: Catalogue, rule: Rule, event: Event): Option<bool> {
    if !ValidRule(cat, rule) || !cat.validEvent(event) then None
    else if IsDeliveryAction(event.action) || !rule.enabled then Some(false)
    else Some(rule.recoveryAction != "" && rule.recoveryAction == event.action)
  }

  /** What goes into a deduplication key. */
  function KeyComponents(cat: Catalogue, rule: Rule, event: Event): seq<Bytes> {
    [Ascii("n2api-alert-deduplication-v1"), cat.decimal(rule.id), if rule.scope.PerTarget? then Ascii("target") else Ascii("rule")] +
    if rule.scope.PerTarget? then [event.targetType, event.targetId] else []
  }

  function KeyHash(cat: Catalogue, rule: Rule, event: Event): string {
    cat.digest(Framed(KeyComponents(cat, rule, event)))
  }

  /** Whether two events of rules belong together. */
  predicate SameSubject(r: Rule, e: Event, r': Rule, e': Event) {
    && r.id == r'.id && r.scope.PerTarget? == r'.scope.PerTarget?
    && (r.scope.PerTarget? ==> e.targetType == e'.targetType && e.targetId == e'.targetId)
  }

  predicate NoCollision(cat: Catalogue, a: Bytes, b: Bytes) {
    cat.digest(a) == cat.digest(b) ==> a == b
  }

  ghost predicate DecimalSeparates(cat: Catalogue) {
    forall m, n :: cat.decimal(m) == cat.decimal(n) ==> m == n
  }

  /**
   * Unless the digest collides, two events share a deduplication key exactly when they belong to the same rule
   * and, for a rule that deduplicates by target, to the same target: the framing of the components is unambiguous.
   */
  lemma KeysSeparateSubjects(cat: Catalogue, r: Rule, e: Event, r': Rule, e': Event)
    requires DecimalSeparates(cat) && NoCollision(cat, Framed(KeyComponents(cat, r, e)), Framed(KeyComponents(cat, r', e')))
    requires Framable(KeyComponents(cat, r, e)) && Framable(KeyComponents(cat, r', e'))
    ensures KeyHash(cat, r, e) == KeyHash(cat, r', e') <==> SameSubject(r, e, r', e')
  {
    var a, b := KeyComponents(cat, r, e), KeyComponents(cat, r', e');
    if KeyHash(cat, r, e) == KeyHash(cat, r', e') {
      assert Framed(a) == Framed(b);
      FramingIsUnambiguous(a, b);
      hide Ascii;
      assert a[1] == b[1] && |a| == |b|;
      assert r.scope.PerTarget? ==> a[3] == b[3] && a[4] == b[4];
    }
  }

  predicate WindowExpired(state: RuleState, rule: Rule, now: int) {
    state.windowStartedAt.None? ||
    (rule.windowSeconds != 0 && now > state.windowStartedAt.value + rule.windowSeconds * SECOND)
  }

  function MarkNotified(state: RuleState, now: int, cooldownSeconds: int): RuleState {
    state.(lastNotifiedAt := Some(now), cooldownUntil := Some(now + cooldownSeconds * SECOND), updatedAt := now)
  }

  function Evaluate(cat: Catalogue, rule: Rule, state: RuleState, event: Event, now: int): Evaluation {
    if !ValidRule(cat, rule) || rule.id <= 0 || now == ZERO_TIME then Evaluation(state, Nothing, true)
    else if state.ruleId != rule.id || state.key != KeyHash(cat, rule, event) || state.phase.OtherPhase? then
      Evaluation(state, Nothing, true)
    else
      var recovery := MatchesRecovery(cat, rule, event);
      if recovery.None? then Evaluation(state, Nothing, true)
      else if recovery.value then
        if !state.phase.Firing? then Evaluation(state, Nothing, false)
        else
          Evaluation(
            state.(phase := Idle, windowStartedAt := None, windowMatchCount := 0, cooldownUntil := None,
                   lastRecoveredAt := Some(now), updatedAt := now),
            if rule.notifyRecovery then Recover else Nothing, false)
      else if MatchesTrigger(cat, rule, event) != Some(true) then Evaluation(state, Nothing, false)
      else EvaluateMatch(rule, state.(lastMatchedAt := Some(now), updatedAt := now), now)
  }

  /** A trigger match, firing or counted into the aggregation window. */
  function EvaluateMatch(rule: Rule, state: RuleState, now: int): Evaluation {
    if state.phase.Firing? then
      if state.cooldownUntil.Some? && now < state.cooldownUntil.value then Evaluation(state, Suppress, false)
      else Evaluation(MarkNotified(state, now, rule.cooldownSeconds), Notify, false)
    else
      var counted :=
        if WindowExpired(state, rule, now) then state.(windowStartedAt := Some(now), windowMatchCount := 1)
        else state.(windowMatchCount := state.windowMatchCount + 1);
      if counted.windowMatchCount < rule.count then Evaluation(counted, Nothing, false)
      else
        Evaluation(
          MarkNotified(counted.(phase := Firing, windowStartedAt := None, windowMatchCount := 0), now, rule.cooldownSeconds),
          Notify, false)
  }

  // ---------- Runs ----------

  /** One rule and one deduplication key. */
  datatype Machine = Machine(cat: Catalogue, rule: Rule, key: string)

  datatype Input = Input(event: Event, now: int)

  datatype Kind = Rejected | Recovery | Match | Unrelated

  /** What an input is to the machine, whatever the state. */
  function KindOf(m: Machine, input: Input): Kind {
    var recovery := MatchesRecovery(m.cat, m.rule, input.event);
    if !ValidRule(m.cat, m.rule) || m.rule.id <= 0 || input.now == ZERO_TIME then Rejected
    else if m.key != KeyHash(m.cat, m.rule, input.event) || recovery.None? then Rejected
    else if recovery.value then Recovery
    else if MatchesTrigger(m.cat, m.rule, input.event) == Some(true) then Match
    else Unrelated
  }

  function Fresh(m: Machine): RuleState {
    RuleState(m.rule.id, m.key, Idle, None, 0, None, None, None, None, ZERO_TIME)
  }

  function Step(m: Machine, s: RuleState, input: Input): Evaluation {
    Evaluate(m.cat, m.rule, s, input.event, input.now)
  }

  function StateAfter(m: Machine, inputs: seq<Input>): RuleState {
    if inputs == [] then Fresh(m)
    else Step(m, StateAfter(m, inputs[..|inputs| - 1]), inputs[|inputs| - 1]).state
  }

  function DecisionAt(m: Machine, inputs: seq<Input>, i: nat): Decision
    requires i < |inputs|
  {
    Step(m, StateAfter(m, inputs[..i]), inputs[i]).decision
  }

  /** Number of trigger matches in inputs[lo..hi]. */
  function Matches(m: Machine, inputs: seq<Input>, lo: nat, hi: nat): nat
    requires lo <= hi <= |inputs|
  {
    if lo == hi then 0
    else Matches(m, inputs, lo, hi - 1) + if KindOf(m, inputs[hi - 1]).Match? then 1 else 0
  }

  ghost predicate InOrder(inputs: seq<Input>) {
    forall i, j :: 0 <= i < j < |inputs| ==> inputs[i].now <= inputs[j].now
  }

  /** What every reachable state satisfies. */
  predicate Sane(m: Machine, s: RuleState) {
    && s.ruleId == m.rule.id && s.key == m.key && !s.phase.OtherPhase?
    && (s.windowStartedAt.None? <==> s.windowMatchCount == 0)
    && 0 <= s.windowMatchCount && (s.windowMatchCount == 0 || s.windowMatchCount < m.rule.count)
    && (s.phase.Firing? ==> s.windowMatchCount == 0 && s.cooldownUntil.Some? && s.lastNotifiedAt.Some? &&
                            s.cooldownUntil.value == s.lastNotifiedAt.value + m.rule.cooldownSeconds * SECOND)
  }

  /** One step, by the kind of the input. */
  lemma StepByKind(m: Machine, s: RuleState, input: Input)
    requires Sane(m, s)
    ensures var e := Step(m, s, input);
            Sane(m, e.state) && (e.invalid <==> KindOf(m, input).Rejected?) &&
            match KindOf(m, input)
            case Recovery =>
              e.state.phase.Idle? && e.state.windowStartedAt == s.windowStartedAt &&
              e.decision == (if s.phase.Firing? && m.rule.notifyRecovery then Recover else Nothing) &&
              e.state.lastMatchedAt == s.lastMatchedAt && e.state.lastNotifiedAt == s.lastNotifiedAt &&
              (s.phase.Firing? ==> e.state.lastRecoveredAt == Some(input.now)) && (s.phase.Idle? ==> e.state == s)
            case Match =>
              ValidRule(m.cat, m.rule) && e == EvaluateMatch(m.rule, s.(lastMatchedAt := Some(input.now), updatedAt := input.now), input.now)
            case _ => e.state == s && e.decision.Nothing?
  {
    hide IsDeliveryAction, KeyHash;
  }

  lemma {:induction false} ReachableIsSane(m: Machine, inputs: seq<Input>)
    ensures Sane(m, StateAfter(m, inputs))
  {
    hide Step, Sane;
    if inputs == [] {
      assert Sane(m, Fresh(m)) by { FreshIsSane(m); }
    } else {
      ReachableIsSane(m, inputs[..|inputs| - 1]);
      StepByKind(m, StateAfter(m, inputs[..|inputs| - 1]), inputs[|inputs| - 1]);
    }
  }

  lemma FreshIsSane(m: Machine)
    ensures Sane(m, Fresh(m))
  {
  }

  lemma Next(m: Machine, inputs: seq<Input>, k: nat)
    requires k < |inputs|
    ensures StateAfter(m, inputs[..k + 1]) == Step(m, StateAfter(m, inputs[..k]), inputs[k]).state
    ensures Sane(m, StateAfter(m, inputs[..k]))
  {
    assert inputs[..k + 1][..k] == inputs[..k];
    ReachableIsSane(m, inputs[..k]);
  }

  // ---------- Enough matches within one window always notify ----------

  /** The number of matches within one window that is always enough. */
  function Enough(count: int): int {
    if count <= 1 then 1 else 2 * count - 2
  }

  /** Matches still missing when no further window expires than one begun before time t0. */
  function Missing(m: Machine, s: RuleState, t0: int): int {
    if s.windowStartedAt.Some? && s.windowStartedAt.value < t0 then 2 * m.rule.count - 1 - s.windowMatchCount
    else m.rule.count - s.windowMatchCount
  }

  lemma SilentStep(m: Machine, s: RuleState, input: Input, t0: int)
    requires Sane(m, s) && s.phase.Idle? && Step(m, s, input).decision != Notify
    requires t0 <= input.now && (m.rule.windowSeconds == 0 || input.now <= t0 + m.rule.windowSeconds * SECOND)
    ensures var s' := Step(m, s, input).state;
            s'.phase.Idle? &&
            Missing(m, s', t0) + (if KindOf(m, input).Match? then 1 else 0) <= Missing(m, s, t0)
  {
    hide KindOf, Step, IsDeliveryAction, KeyHash;
    StepByKind(m, s, input);
  }

  /** While nothing is notified, every match brings the machine one closer. */
  lemma {:induction false} SilentSegment(m: Machine, inputs: seq<Input>, lo: nat, hi: nat)
    requires InOrder(inputs) && lo <= hi <= |inputs| && lo < |inputs|
    requires StateAfter(m, inputs[..lo]).phase.Idle?
    requires forall i :: lo <= i < hi ==> DecisionAt(m, inputs, i) != Notify
    requires m.rule.windowSeconds == 0 || hi == lo || inputs[hi - 1].now <= inputs[lo].now + m.rule.windowSeconds * SECOND
    ensures StateAfter(m, inputs[..hi]).phase.Idle?
    ensures Matches(m, inputs, lo, hi) + Missing(m, StateAfter(m, inputs[..hi]), inputs[lo].now)
            <= Missing(m, StateAfter(m, inputs[..lo]), inputs[lo].now)
    decreases hi
  {
    hide Step, Sane, Missing, KindOf;
    if lo < hi {
      Next(m, inputs, hi - 1);
      assert DecisionAt(m, inputs, hi - 1) != Notify;
      SilentSegment(m, inputs, lo, hi - 1);
      SilentStep(m, StateAfter(m, inputs[..hi - 1]), inputs[hi - 1], inputs[lo].now);
    }
  }

  /**
   * Although a window tumbles instead of sliding, a rule that is idle notifies within any stretch that is no
   * longer than its window and holds twice its count less two matches (one match, for a count of one).
   */
  lemma EnoughMatchesNotify(m: Machine, inputs: seq<Input>, lo: nat, hi: nat)
    requires ValidRule(m.cat, m.rule) && InOrder(inputs) && lo < hi <= |inputs|
    requires StateAfter(m, inputs[..lo]).phase.Idle?
    requires m.rule.windowSeconds == 0 || inputs[hi - 1].now <= inputs[lo].now + m.rule.windowSeconds * SECOND
    requires Matches(m, inputs, lo, hi) >= Enough(m.rule.count)
    ensures exists i :: lo <= i < hi && DecisionAt(m, inputs, i) == Notify
  {
    hide DecisionAt, KindOf, Matches, StateAfter;
    if forall i :: lo <= i < hi ==> DecisionAt(m, inputs, i) != Notify {
      SilentSegment(m, inputs, lo, hi);
      ReachableIsSane(m, inputs[..lo]);
      ReachableIsSane(m, inputs[..hi]);
      assert false;
    }
  }

  /** A run that stays silent although one match fewer would be enough. */
  function SilentRun(m: Machine, event: Event): seq<Input>
    requires m.rule.count >= 2
  {
    var deadline := 1 + m.rule.windowSeconds * SECOND;
    seq(2 * m.rule.count - 2,
        i => Input(event, if i == 0 then 1 else if i < m.rule.count - 1 then deadline else deadline + 1))
  }

  /** The state after k inputs of the silent run. */
  predicate SilentState(m: Machine, s: RuleState, k: int) {
    && Sane(m, s) && s.phase.Idle?
    && (if k < m.rule.count then s.windowMatchCount == k && (k > 0 ==> s.windowStartedAt == Some(1))
        else s.windowMatchCount == k - m.rule.count + 1 &&
             s.windowStartedAt == Some(2 + m.rule.windowSeconds * SECOND))
  }

  lemma SilentRunStep(m: Machine, event: Event, s: RuleState, k: nat)
    requires m.rule.count >= 2 && KindOf(m, Input(event, 1)).Match? && k < 2 * m.rule.count - 2 && SilentState(m, s, k)
    ensures var e := Step(m, s, SilentRun(m, event)[k]);
            SilentState(m, e.state, k + 1) && e.decision == Nothing && KindOf(m, SilentRun(m, event)[k]).Match?
  {
    hide Step, KeyHash, IsDeliveryAction, ValidRule;
    var input := SilentRun(m, event)[k];
    assert KindOf(m, input).Match? && ValidRule(m.cat, m.rule);
    hide KindOf;
    assert m.rule.windowSeconds > 0 by { CountNeedsWindow(m); }
    StepByKind(m, s, input);
  }

  lemma CountNeedsWindow(m: Machine)
    requires ValidRule(m.cat, m.rule) && m.rule.count >= 2
    ensures m.rule.windowSeconds > 0
  {
  }

  lemma {:induction false} SilentRunState(m: Machine, event: Event, k: nat)
    requires m.rule.count >= 2 && KindOf(m, Input(event, 1)).Match? && k <= 2 * m.rule.count - 2
    ensures SilentState(m, StateAfter(m, SilentRun(m, event)[..k]), k)
  {
    hide Step, KindOf;
    if k > 0 {
      SilentRunState(m, event, k - 1);
      Next(m, SilentRun(m, event), k - 1);
      SilentRunStep(m, event, StateAfter(m, SilentRun(m, event)[..k - 1]), k - 1);
    }
  }

  lemma {:induction false} AllMatch(m: Machine, inputs: seq<Input>, lo: nat, hi: nat)
    requires lo <= hi <= |inputs| && forall i :: lo <= i < hi ==> KindOf(m, inputs[i]).Match?
    ensures Matches(m, inputs, lo, hi) == hi - lo
  {
    if lo < hi {
      AllMatch(m, inputs, lo, hi - 1);
    }
  }

  /** The bound is sharp: for every rule that aggregates, one match fewer may pass silently. */
  lemma OneFewerMayBeSilent(m: Machine, event: Event)
    requires m.rule.count >= 2 && KindOf(m, Input(event, 1)).Match?
    ensures var inputs := SilentRun(m, event);
            && |inputs| > 1 && InOrder(inputs) && StateAfter(m, inputs[..1]).phase.Idle?
            && inputs[|inputs| - 1].now <= inputs[1].now + m.rule.windowSeconds * SECOND
            && Matches(m, inputs, 1, |inputs|) == Enough(m.rule.count) - 1
            && forall i :: 0 <= i < |inputs| ==> DecisionAt(m, inputs, i) != Notify
  {
    var inputs := SilentRun(m, event);
    assert ValidRule(m.cat, m.rule);
    hide KindOf, ValidRule, StateAfter;
    forall i: nat | i < |inputs| ensures DecisionAt(m, inputs, i) == Nothing && KindOf(m, inputs[i]).Match? {
      SilentRunState(m, event, i);
      SilentRunStep(m, event, StateAfter(m, inputs[..i]), i);
    }
    SilentRunState(m, event, 1);
    CountNeedsWindow(m);
    AllMatch(m, inputs, 1, |inputs|);
  }

  // ---------- Every alarm is earned ----------

  /** inputs[j..n] is one window: opened by a match at j, with `count` matches, none after its deadline. */
  ghost predicate Window(m: Machine, inputs: seq<Input>, j: nat, n: nat, count: int) {
    && j < n <= |inputs| && KindOf(m, inputs[j]).Match? && Matches(m, inputs, j, n) == count
    && (forall k :: j <= k < n && KindOf(m, inputs[k]).Match? && m.rule.windowSeconds != 0 ==>
          inputs[k].now <= inputs[j].now + m.rule.windowSeconds * SECOND)
  }

  /** Nothing was decided from j until n, and the rule stayed idle. */
  ghost predicate Quiet(m: Machine, inputs: seq<Input>, j: nat, n: nat) {
    forall k :: j <= k < n <= |inputs| ==> DecisionAt(m, inputs, k) == Nothing && StateAfter(m, inputs[..k]).phase.Idle?
  }

  lemma {:induction false} OpenWindow(m: Machine, inputs: seq<Input>, n: nat) returns (j: nat)
    requires n <= |inputs|
    ensures var s := StateAfter(m, inputs[..n]);
            s.windowStartedAt.Some? ==>
              Window(m, inputs, j, n, s.windowMatchCount) && Quiet(m, inputs, j, n) &&
              inputs[j].now == s.windowStartedAt.value && s.phase.Idle?
  {
    hide Step, KindOf;
    j := 0;
    if n > 0 {
      var i := OpenWindow(m, inputs, n - 1);
      Next(m, inputs, n - 1);
      var s := StateAfter(m, inputs[..n - 1]);
      StepByKind(m, s, inputs[n - 1]);
      var opens := KindOf(m, inputs[n - 1]).Match? && WindowExpired(s, m.rule, inputs[n - 1].now);
      j := if opens then n - 1 else i;
      hide StateAfter, DecisionAt;
      if opens {
        WindowBegins(m, inputs, n - 1);
      } else if s.windowStartedAt.Some? {
        WindowGoesOn(m, inputs, i, n - 1, s.windowMatchCount);
      }
    }
  }

  lemma WindowBegins(m: Machine, inputs: seq<Input>, n: nat)
    requires n < |inputs| && KindOf(m, inputs[n]).Match? && m.rule.windowSeconds >= 0
    ensures Window(m, inputs, n, n + 1, 1)
    ensures DecisionAt(m, inputs, n) == Nothing && StateAfter(m, inputs[..n]).phase.Idle? ==> Quiet(m, inputs, n, n + 1)
  {
    hide KindOf, DecisionAt, StateAfter;
    assert Matches(m, inputs, n, n) == 0;
  }

  lemma WindowGoesOn(m: Machine, inputs: seq<Input>, j: nat, n: nat, count: int)
    requires Window(m, inputs, j, n, count) && n < |inputs|
    ensures var matches := KindOf(m, inputs[n]).Match?;
            (!matches || m.rule.windowSeconds == 0 || inputs[n].now <= inputs[j].now + m.rule.windowSeconds * SECOND) ==>
              Window(m, inputs, j, n + 1, if matches then count + 1 else count)
    ensures Quiet(m, inputs, j, n) && DecisionAt(m, inputs, n) == Nothing && StateAfter(m, inputs[..n]).phase.Idle? ==>
              Quiet(m, inputs, j, n + 1)
  {
    hide KindOf, DecisionAt, StateAfter;
  }

  /** An idle rule notifies only on the last of exactly as many matches as it aggregates, all within one window. */
  lemma NotifyIsBacked(m: Machine, inputs: seq<Input>, i: nat)
    requires i < |inputs| && DecisionAt(m, inputs, i) == Notify && StateAfter(m, inputs[..i]).phase.Idle?
    ensures KindOf(m, inputs[i]).Match?
    ensures exists j: nat :: Window(m, inputs, j, i + 1, m.rule.count) && Quiet(m, inputs, j, i)
  {
    hide Step, KindOf;
    var j := OpenWindow(m, inputs, i);
    Next(m, inputs, i);
    var s := StateAfter(m, inputs[..i]);
    StepByKind(m, s, inputs[i]);
    hide StateAfter, DecisionAt;
    if WindowExpired(s, m.rule, inputs[i].now) {
      WindowBegins(m, inputs, i);
      assert Window(m, inputs, i, i + 1, m.rule.count) && Quiet(m, inputs, i, i);
    } else {
      WindowGoesOn(m, inputs, j, i, s.windowMatchCount);
      assert Window(m, inputs, j, i + 1, m.rule.count);
    }
  }

  // ---------- Cooldown and recovery ----------

  ghost predicate NoRecovery(m: Machine, inputs: seq<Input>, lo: nat, hi: nat) {
    forall k :: lo <= k < hi <= |inputs| ==> !KindOf(m, inputs[k]).Recovery?
  }

  lemma {:induction false} FiresUntilRecovery(m: Machine, inputs: seq<Input>, i: nat, n: nat)
    requires i < n <= |inputs| && DecisionAt(m, inputs, i) == Notify && NoRecovery(m, inputs, i + 1, n)
    ensures var s := StateAfter(m, inputs[..n]);
            s.phase.Firing? && s.lastNotifiedAt.Some? && s.lastNotifiedAt.value >= inputs[i].now
    decreases n
  {
    hide Step, KindOf;
    Next(m, inputs, n - 1);
    StepByKind(m, StateAfter(m, inputs[..n - 1]), inputs[n - 1]);
    if i < n - 1 {
      FiresUntilRecovery(m, inputs, i, n - 1);
    }
  }

  /** Two notifications with no recovery between them are a cooldown apart, whatever the clock did in between. */
  lemma NotifiesAreSpaced(m: Machine, inputs: seq<Input>, i: nat, j: nat)
    requires i < j < |inputs| && DecisionAt(m, inputs, i) == Notify && DecisionAt(m, inputs, j) == Notify
    requires NoRecovery(m, inputs, i + 1, j)
    ensures inputs[j].now >= inputs[i].now + m.rule.cooldownSeconds * SECOND
  {
    hide Step, KindOf;
    FiresUntilRecovery(m, inputs, i, j);
    Next(m, inputs, j);
    StepByKind(m, StateAfter(m, inputs[..j]), inputs[j]);
  }

  ghost predicate Raised(m: Machine, inputs: seq<Input>, i: nat, n: nat) {
    i < n <= |inputs| && DecisionAt(m, inputs, i) == Notify && NoRecovery(m, inputs, i + 1, n)
  }

  /** Only a notification makes a rule fire, and a recovery event stops it. */
  lemma NotifyStarts(m: Machine, inputs: seq<Input>, n: nat)
    requires 0 < n <= |inputs| && DecisionAt(m, inputs, n - 1) != Notify && StateAfter(m, inputs[..n]).phase.Firing?
    ensures StateAfter(m, inputs[..n - 1]).phase.Firing? && !KindOf(m, inputs[n - 1]).Recovery?
  {
    hide Step, KindOf;
    Next(m, inputs, n - 1);
    StepByKind(m, StateAfter(m, inputs[..n - 1]), inputs[n - 1]);
  }

  /** A rule is firing exactly when it has notified since its last recovery event. */
  lemma {:induction false} FiringSinceNotify(m: Machine, inputs: seq<Input>, n: nat)
    requires n <= |inputs|
    ensures StateAfter(m, inputs[..n]).phase.Firing? <==> exists i: nat :: Raised(m, inputs, i, n)
  {
    hide Step, KindOf;
    if i: nat :| Raised(m, inputs, i, n) {
      FiresUntilRecovery(m, inputs, i, n);
    }
    if StateAfter(m, inputs[..n]).phase.Firing? {
      hide StateAfter, DecisionAt;
      if DecisionAt(m, inputs, n - 1) == Notify {
        assert Raised(m, inputs, n - 1, n);
      } else {
        NotifyStarts(m, inputs, n);
        FiringSinceNotify(m, inputs, n - 1);
        var i: nat :| Raised(m, inputs, i, n - 1);
        assert Raised(m, inputs, i, n);
      }
    }
  }

  /** Before every recovery notice, and after the one before it, there is a notification. */
  lemma RecoverAfterNotify(m: Machine, inputs: seq<Input>, j: nat)
    requires j < |inputs| && DecisionAt(m, inputs, j) == Recover
    ensures exists i: nat :: i < j && DecisionAt(m, inputs, i) == Notify &&
                             forall k :: i < k < j ==> DecisionAt(m, inputs, k) != Recover
  {
    hide Step, KindOf;
    Next(m, inputs, j);
    StepByKind(m, StateAfter(m, inputs[..j]), inputs[j]);
    FiringSinceNotify(m, inputs, j);
    var i: nat :| Raised(m, inputs, i, j);
    forall k | i < k < j ensures DecisionAt(m, inputs, k) != Recover {
      Next(m, inputs, k);
      StepByKind(m, StateAfter(m, inputs[..k]), inputs[k]);
    }
  }
}
