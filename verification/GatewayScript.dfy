/**
 * The request as a machine that takes one action at a time: at every spot the log so far and the outside fix the next
 * action.
 */
module GatewayScript {
  import opened Options
  import opened GatewayWorld

  /** What an attempt inherits: its number, the accounts given up, the answer carried over, the admission. */
  datatype Vars = Vars(attempt: nat, failed: seq<int>, carried: Option<nat>, admission: string, limited: bool)

  datatype Spot =
    | AtGateway | AtKey | AtBody(status: int)
    | AtChoice(v: Vars)
    | AtMiss(v: Vars, status: int)
    | AtPick(v: Vars, account: Account)
    | AtAdmission(v: Vars, account: Account)
    | AtRecord(v: Vars, account: Account)
    | AtSend(v: Vars, account: Account, again: bool)
    | AtCheck(v: Vars, account: Account, body: nat)
    | AtRefresh(v: Vars, account: Account, body: nat)
    | AtReclose(v: Vars, account: Account, body: nat)
    | AtRuling(v: Vars, account: Account, body: nat)
    | AtDelivery(v: Vars, body: nat)
    | AtClose(v: Vars, body: nat, byWriter: bool)
    | AtRelease(v: Vars)
    | AtHandover(v: Vars, account: Account, body: nat)
    | AtFailure(v: Vars, account: Account)
    | AtReturn(v: Vars, status: int)
    | AtReply(status: int, admission: string, slots: nat)
    | AtAbandon(admission: string)
    | AtKeyRelease(admission: string)
    | AtGatewayRelease(admission: string)
    | AtSettlement(admission: string)
    | AtEnd
    | Astray

  /** Bodies are numbered by the sends before them. */
  function SendCount(log: Log): nat {
    if log == [] then 0 else SendCount(log[..|log| - 1]) + if log[|log| - 1].Sent? then 1 else 0
  }

  predicate SlotFree(key: int, limit: int, granted: bool) {
    key <= 0 || limit <= 0 || granted
  }

  function SlotAction(slot: Slot, key: int, limit: int, granted: bool): Action {
    if SlotFree(key, limit, granted) then Acquired(slot, key, limit) else Refused(slot, key, limit)
  }

  function AnswerOf(g: Gateway, log: Log): Response {
    if g.w.send(log).0 then Response(g.w.send(log).1, SendCount(log)) else NoResponse
  }

  function SendAction(g: Gateway, log: Log, attempt: nat, sender: int): Action {
    if !g.w.buildRequest(log) then RequestUnbuilt
    else if !g.w.client(log) then ClientMissing(attempt)
    else Sent(attempt, sender, AnswerOf(g, log))
  }

  predicate RefreshWorks(g: Gateway, log: Log, account: Account) {
    var r := g.w.refresh(log);
    account.id > 0 && account.refreshable && r.retry && !r.failed && r.token != ""
  }

  function PickAction(g: Gateway, log: Log, v: Vars, account: Account): Action {
    if v.carried.Some? then Closed(v.carried.value)
    else if account.id != 0 && account.id in v.failed then Replied(502)
    else SlotAction(AccountSlot(v.attempt), account.id, EffectiveLimit(account.limit, g.accountLimit), g.w.accountSlot(log))
  }

  function AdmissionAction(g: Gateway, log: Log): Action {
    match g.w.admit(log)
    case Granted(id) => Admitted(id)
    case Denied(id, err) => AdmissionDenied(id, err)
  }

  /** The next action, if there is one. */
  function Due(g: Gateway, log: Log, s: Spot): Option<Action> {
    match s
    case AtGateway =>
      Some(if g.gatewayLimit <= 0 || g.w.gatewaySlot(log) then Acquired(GatewaySlot, 0, g.gatewayLimit)
           else Refused(GatewaySlot, 0, g.gatewayLimit))
    case AtKey => Some(SlotAction(KeySlot, g.keyId, g.keyLimit, g.w.keySlot(log)))
    case AtBody(status) => Some(BodyRefused(status))
    case AtChoice(_) => Some(ChoiceAction(g, log))
    case AtMiss(v, status) => Some(if v.carried.Some? then Closed(v.carried.value) else Replied(status))
    case AtPick(v, account) => Some(PickAction(g, log, v, account))
    case AtAdmission(_, _) => Some(AdmissionAction(g, log))
    case AtRecord(_, _) => Some(UsageRecorded(g.w.recordUsed(log)))
    case AtSend(v, account, _) => Some(SendAction(g, log, v.attempt, account.id))
    case AtCheck(_, _, _) => Some(RulesRead(g.w.passThrough(log)))
    case AtRefresh(_, account, _) => Some(Refreshed(RefreshWorks(g, log, account)))
    case AtReclose(_, _, body) => Some(Closed(body))
    case AtRuling(_, _, _) => Some(RulesRead(g.w.passThrough(log)))
    case AtDelivery(_, body) => Some(Served(body, g.w.aggregates(log)))
    case AtClose(_, body, byWriter) => Some(if byWriter then ClosedByWriter(body) else Closed(body))
    case AtRelease(v) => Some(Released(AccountSlot(v.attempt)))
    case AtHandover(v, _, _) => Some(Released(AccountSlot(v.attempt)))
    case AtFailure(v, _) => Some(Released(AccountSlot(v.attempt)))
    case AtReturn(v, _) => Some(Released(AccountSlot(v.attempt)))
    case AtReply(status, _, _) => Some(Replied(status))
    case AtAbandon(_) => Some(Abandoned)
    case AtKeyRelease(_) => Some(Released(KeySlot))
    case AtGatewayRelease(_) => Some(Released(GatewaySlot))
    case AtSettlement(admission) => Some(Settled(admission))
    case _ => None
  }

  function ChoiceAction(g: Gateway, log: Log): Action {
    match g.w.select(log)
    case Chosen(account) => Selected(account)
    case _ => NotSelected
  }

  // ---------- What an action leads to ----------

  function NextTry(v: Vars, account: Account): Vars {
    v.(attempt := v.attempt + 1, failed := AppendUnique(v.failed, account.id))
  }

  /** After both request slots are taken the body is read; `log` ends with the key's slot. */
  function AfterKey(g: Gateway, log: Log): Spot {
    match g.w.readBody(log)
    case BodyCanceled => AtAbandon("")
    case BodyRejected(status) => AtBody(status)
    case BodyReady => AtChoice(Vars(0, [], None, "", false))
  }

  function AfterPick(g: Gateway, v: Vars, account: Account, a: Action): Spot {
    match a
    case Closed(_) => AtPick(v.(carried := None), account)
    case Replied(_) => AtKeyRelease(v.admission)
    case Acquired(_, _, _) => if v.admission == "" && g.budgets then AtAdmission(v, account) else AtRecord(v, account)
    case _ =>
      if v.attempt + 1 < g.maxAttempts then AtChoice(NextTry(v, account).(limited := true))
      else AtReply(429, v.admission, 2)
  }

  /** What an answer leads to: a check for a refresh, a ruling on whether to fall back, or the client. */
  function AfterSend(g: Gateway, v: Vars, account: Account, again: bool, a: Action): Spot {
    match a
    case RequestUnbuilt => AtReturn(v, 502)
    case Sent(_, _, Response(status, body)) =>
      if !again && g.maxAttempts != 1 && AuthorizationFailure(status) then AtCheck(v, account, body)
      else if RetryableStatus(status) then AtRuling(v, account, body)
      else AtDelivery(v, body)
    case _ => AtFailure(v, account)
  }

  /** A failed attempt gave its slot back; `log` ends with that. */
  function AfterFailure(g: Gateway, log: Log, v: Vars, account: Account): Spot {
    if g.w.canceled(log) then AtAbandon(v.admission)
    else if v.attempt + 1 < g.maxAttempts then AtChoice(NextTry(v, account))
    else AtReply(502, v.admission, 2)
  }

  /** The spot after the due action. */
  function After(g: Gateway, before: Log, s: Spot, a: Action): Spot {
    var log := before + [a];
    match s
    case AtGateway => if a.Acquired? then AtKey else AtReply(429, "", 0)
    case AtKey => if a.Acquired? then AfterKey(g, log) else AtReply(429, "", 1)
    case AtBody(status) => AtReply(status, "", 2)
    case AtChoice(v) => if a.Selected? then AtPick(v, a.account) else AtMiss(v, SelectionStatus(g.w.select(before), v.limited))
    case AtMiss(v, status) => if a.Closed? then AtMiss(v.(carried := None), status) else AtKeyRelease(v.admission)
    case AtPick(v, account) => AfterPick(g, v, account, a)
    case AtAdmission(v, account) =>
      if a.Admitted? then AtRecord(v.(admission := a.id), account)
      else if a.AdmissionDenied? then AtReturn(v.(admission := a.id), AdmitStatus(a.err))
      else Astray
    case AtRecord(v, account) => if a == UsageRecorded(true) then AtSend(v, account, false) else AtReturn(v, 500)
    case AtSend(v, account, again) => AfterSend(g, v, account, again, a)
    case AtCheck(v, account, body) => if a == RulesRead(true) then AtRuling(v, account, body) else AtRefresh(v, account, body)
    case AtRefresh(v, account, body) => if a == Refreshed(true) then AtReclose(v, account, body) else AtRuling(v, account, body)
    case AtReclose(v, account, _) => AtSend(v, account, true)
    case AtRuling(v, account, body) =>
      if a == RulesRead(true) || v.attempt + 1 >= g.maxAttempts then AtDelivery(v, body) else AtHandover(v, account, body)
    case AtDelivery(v, body) => AtClose(v, body, a.Served? && a.aggregated)
    case AtClose(v, body, byWriter) => if byWriter then AtClose(v, body, false) else AtRelease(v)
    case AtRelease(v) => AtKeyRelease(v.admission)
    case AtHandover(v, account, body) => AtChoice(NextTry(v, account).(carried := Some(body)))
    case AtFailure(v, account) => AfterFailure(g, log, v, account)
    case AtReturn(v, status) => AtReply(status, v.admission, 2)
    case AtReply(_, admission, slots) =>
      if slots == 0 then AtEnd else if slots == 1 then AtGatewayRelease(admission) else AtKeyRelease(admission)
    case AtAbandon(admission) => AtKeyRelease(admission)
    case AtKeyRelease(admission) => AtGatewayRelease(admission)
    case AtGatewayRelease(admission) => if admission != "" && g.budgets then AtSettlement(admission) else AtEnd
    case AtSettlement(_) => AtEnd
    case _ => Astray
  }

  function Move(g: Gateway, log: Log, s: Spot, a: Action): Spot {
    if Due(g, log, s) == Some(a) then After(g, log, s, a) else Astray
  }

  function SpotOf(g: Gateway, log: Log): Spot {
    if log == [] then AtGateway
    else Move(g, log[..|log| - 1], SpotOf(g, log[..|log| - 1]), log[|log| - 1])
  }

  lemma SpotSnoc(g: Gateway, log: Log, a: Action)
    ensures SpotOf(g, log + [a]) == Move(g, log, SpotOf(g, log), a)
  {
    assert (log + [a])[..|log|] == log;
  }
}
