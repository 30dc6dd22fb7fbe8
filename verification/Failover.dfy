/**
 * One gateway request: slots, the account failover loop with its authorization retry, the budget admission, and the
 * deferred releases.  `Legal` says, action by action, what the protocol allows, and the ledger what a log amounts to.
 */
module Failover {
  import opened Options
  import opened GatewayWorld
  import opened GatewayScript

  // ---------- The protocol ----------

  datatype Send = Send(attempt: nat, account: int)

  /**
   * What a log amounts to: slots and bodies taken and not given back, sends, admissions, the
   * status the request is stuck with, and whether every action so far was legal.
   */
  datatype Ledger = Ledger(
    held: set<Slot>, used: set<Slot>,
    open: set<nat>, seen: set<nat>, reclosed: set<nat>, aggregated: set<nat>, owed: set<nat>,
    sends: seq<Send>, blamed: set<int>, limited: bool,
    admitted: seq<string>, settled: seq<string>,
    account: Option<Account>, ready: bool, refreshed: bool, passed: bool, last: Response, lastAttempt: nat,
    stuck: Option<int>, answers: nat, over: bool, ok: bool)

  const EMPTY_LEDGER :=
    Ledger({}, {}, {}, {}, {}, {}, {}, [], {}, false, [], [], None, false, false, false, NoResponse, 0, None, 0, false, true)

  /** A slot is free for the request when it is not limited or the limiter grants it. */
  predicate Grants(g: Gateway, log: Log, l: Ledger, slot: Slot, key: int, limit: int) {
    match slot
    case GatewaySlot => limit <= 0 || g.w.gatewaySlot(log)
    case KeySlot => key <= 0 || limit <= 0 || g.w.keySlot(log)
    case AccountSlot(_) => key <= 0 || limit <= 0 || g.w.accountSlot(log)
  }

  predicate SlotTerms(g: Gateway, l: Ledger, slot: Slot, key: int, limit: int) {
    match slot
    case GatewaySlot => limit == g.gatewayLimit
    case KeySlot => key == g.keyId && limit == g.keyLimit
    case AccountSlot(_) =>
      l.account.Some? && key == l.account.value.id && limit == EffectiveLimit(l.account.value.limit, g.accountLimit)
  }

  predicate MayRefresh(g: Gateway, log: Log, l: Ledger) {
    l.account.Some? && RefreshWorks(g, log, l.account.value)
  }

  /** What the protocol allows as the next action after `log`. */
  predicate Legal(g: Gateway, log: Log, l: Ledger, a: Action) {
    match a
    case Acquired(s, key, limit) => s !in l.used && l.stuck.None? && SlotTerms(g, l, s, key, limit) && Grants(g, log, l, s, key, limit)
    case Refused(s, key, limit) => s !in l.used && SlotTerms(g, l, s, key, limit) && !Grants(g, log, l, s, key, limit)
    case Released(s) => s in l.held
    case BodyRefused(status) => g.w.readBody(log) == BodyRejected(status)
    case Selected(account) => g.w.select(log) == Chosen(account)
    case NotSelected => !g.w.select(log).Chosen?
    case Admitted(id) => g.budgets && g.w.admit(log) == Granted(id)
    case AdmissionDenied(id, err) => g.budgets && g.w.admit(log) == Denied(id, err)
    case Settled(id) => g.budgets && l.settled == []
    case UsageRecorded(success) => success == g.w.recordUsed(log)
    case RequestUnbuilt => !g.w.buildRequest(log)
    case ClientMissing(_) => g.w.buildRequest(log) && !g.w.client(log)
    case Sent(attempt, sender, r) =>
      && AccountSlot(attempt) in l.held && l.account.Some? && l.account.value.id == sender && l.ready
      && (g.budgets ==> l.admitted != [])
      && l.open == {} && g.w.buildRequest(log) && g.w.client(log)
      && g.w.send(log).0 == r.Response?
      && (r.Response? ==> r.status == g.w.send(log).1 && r.body !in l.seen)
      && (l.sends != [] && l.lastAttempt == attempt ==> l.refreshed)
    case RulesRead(pass) => pass == g.w.passThrough(log)
    case Refreshed(again) =>
      && again == MayRefresh(g, log, l) && g.maxAttempts != 1
      && l.last.Response? && AuthorizationFailure(l.last.status) && !l.passed
    case Closed(b) => b in l.open
    case ClosedByWriter(b) => b in l.open && b in l.aggregated && b !in l.reclosed
    case Replied(status) => l.answers == 0 && l.stuck == Some(status)
    case Served(b, aggregated) =>
      && l.answers == 0 && b in l.open && l.last.Response? && l.last.body == b
      && (!RetryableStatus(l.last.status) || l.passed || l.lastAttempt + 1 == g.maxAttempts)
      && aggregated == g.w.aggregates(log)
    case Abandoned => g.w.canceled(log) || g.w.readBody(log).BodyCanceled?
  }

  function StuckIfLast(g: Gateway, attempt: nat, status: int): Option<int> {
    if attempt + 1 == g.maxAttempts then Some(status) else None
  }

  /** The slots, bodies, sends and debts of two ledgers are the same. */
  predicate SameResources(l: Ledger, r: Ledger) {
    && r.held == l.held && r.used == l.used
    && r.open == l.open && r.seen == l.seen && r.reclosed == l.reclosed && r.aggregated == l.aggregated
    && r.owed == l.owed && r.sends == l.sends
  }

  /** The actions that take or give back no slot, body or send. */
  function Booked(g: Gateway, log: Log, l: Ledger, a: Action): (r: Ledger)
    ensures SameResources(l, r) && (a.Admitted? || r.admitted == l.admitted)
  {
    match a
    case Refused(s, key, _) =>
      if s.AccountSlot? then l.(blamed := l.blamed + {key}, limited := true, stuck := StuckIfLast(g, s.attempt, 429))
      else l.(stuck := Some(429))
    case BodyRefused(status) => l.(stuck := Some(status))
    case Selected(account) =>
      l.(account := Some(account), ready := false, refreshed := false, passed := false,
         stuck := if account.id != 0 && account.id in l.blamed then Some(502) else None)
    case NotSelected => l.(stuck := Some(SelectionStatus(g.w.select(log), l.limited)))
    case Admitted(id) => l.(admitted := l.admitted + [id])
    case AdmissionDenied(_, err) => l.(stuck := Some(AdmitStatus(err)))
    case Settled(id) => l.(settled := l.settled + [id])
    case UsageRecorded(success) => l.(ready := success, stuck := if success then None else Some(500))
    case RequestUnbuilt => l.(stuck := Some(502))
    case ClientMissing(attempt) =>
      l.(blamed := l.blamed + (if l.account.Some? then {l.account.value.id} else {}), stuck := StuckIfLast(g, attempt, 502))
    case RulesRead(pass) => l.(passed := pass)
    case Refreshed(again) => l.(refreshed := again)
    case Replied(_) => l.(answers := l.answers + 1)
    case Abandoned => l.(over := true)
    case _ => l
  }

  function SentBy(g: Gateway, l: Ledger, attempt: nat, sender: int, r: Response): Ledger {
    var sent := l.(sends := l.sends + [Send(attempt, sender)], blamed := l.blamed + {sender},
                   lastAttempt := attempt, last := r, passed := false, refreshed := false);
    if r.NoResponse? then sent.(stuck := StuckIfLast(g, attempt, 502))
    else sent.(open := l.open + {r.body}, seen := l.seen + {r.body}, stuck := None,
               owed := if RetryableStatus(r.status) then l.owed else l.owed + {r.body})
  }

  function Effect(g: Gateway, log: Log, l: Ledger, a: Action): Ledger {
    if a.Acquired? then l.(held := l.held + {a.slot}, used := l.used + {a.slot})
    else if a.Released? then l.(held := l.held - {a.slot})
    else if a.Sent? then SentBy(g, l, a.attempt, a.sender, a.response)
    else if a.Closed? then l.(open := l.open - {a.body})
    else if a.ClosedByWriter? then l.(reclosed := l.reclosed + {a.body})
    else if a.Served? then
      l.(answers := l.answers + 1, owed := l.owed - {a.body},
         aggregated := if a.aggregated then l.aggregated + {a.body} else l.aggregated)
    else Booked(g, log, l, a)
  }

  function Post(g: Gateway, log: Log, l: Ledger, a: Action): Ledger {
    Effect(g, log, l, a).(ok := l.ok && Legal(g, log, l, a))
  }

  function LedgerOf(g: Gateway, log: Log): Ledger {
    if log == [] then EMPTY_LEDGER
    else Post(g, log[..|log| - 1], LedgerOf(g, log[..|log| - 1]), log[|log| - 1])
  }

  // ---------- The request in progress ----------

  /** The local variables of the request. */
  datatype Progress = Progress(
    log: Log, failed: seq<int>, carried: Option<nat>, admission: string, attempts: nat, fallbacks: nat, limited: bool)

  function Note(g: Gateway, p: Progress, a: Action): (r: Progress)
    ensures r == p.(log := p.log + [a])
    ensures LedgerOf(g, r.log) == Post(g, p.log, LedgerOf(g, p.log), a)
  {
    assert (p.log + [a])[..|p.log|] == p.log;
    p.(log := p.log + [a])
  }

  /** The variables of an attempt. */
  function VarsOf(p: Progress, attempt: nat): Vars {
    Vars(attempt, p.failed, p.carried, p.admission, p.limited)
  }

  /** Attempts in order, at most two sends each, and no account in two attempts. */
  ghost predicate SendsInOrder(sends: seq<Send>) {
    && (forall i, j :: 0 <= i < j < |sends| ==> sends[i].attempt <= sends[j].attempt)
    && (forall i, k :: 0 <= i && i + 2 <= k < |sends| ==> sends[i].attempt < sends[k].attempt)
    && (forall i, j :: 0 <= i < j < |sends| && sends[i].account == sends[j].account ==>
          sends[i].account == 0 || sends[i].attempt == sends[j].attempt)
  }

  /** A granted admission has an id and a denied one has none. */
  ghost predicate NamesAdmissions(w: World) {
    forall log :: w.admit(log).Granted? <==> w.admit(log).id != ""
  }

  ghost predicate AdmissionKept(g: Gateway, admission: string, admitted: seq<string>) {
    && (!g.budgets ==> admission == "" && admitted == [])
    && (NamesAdmissions(g.w) ==> admitted == if admission == "" then [] else [admission])
  }

  ghost predicate SlotsBelow(used: set<Slot>, bound: nat) {
    forall k: nat :: AccountSlot(k) in used ==> k < bound
  }

  ghost predicate BodiesBelow(seen: set<nat>, bound: nat) {
    forall b :: b in seen ==> b < bound
  }

  ghost predicate AttemptsBelow(sends: seq<Send>, bound: nat) {
    forall i :: 0 <= i < |sends| ==> sends[i].attempt < bound
  }

  ghost predicate LastAttemptIs(sends: seq<Send>, attempt: nat) {
    sends != [] ==> sends[|sends| - 1].attempt == attempt
  }

  /** The part of the loop invariant that no step may break; attempts below `bound` have been made. */
  ghost predicate Steady(g: Gateway, p: Progress, l: Ledger, bound: nat) {
    && l.ok
    && SlotsBelow(l.used, bound) && BodiesBelow(l.seen, |l.sends|)
    && SendsInOrder(l.sends) && AttemptsBelow(l.sends, bound) && LastAttemptIs(l.sends, l.lastAttempt)
    && |l.sends| <= p.attempts <= 2 * bound
    && (g.maxAttempts == 1 ==> |l.sends| <= 1)
    && l.reclosed == l.aggregated == {}
    && l.answers == 0 && l.settled == [] && !l.over
    && AdmissionKept(g, p.admission, l.admitted)
    && (p.admission != "" ==> l.admitted != [])
    && p.limited == l.limited
  }

  function Carried(p: Progress): set<nat> {
    if p.carried.Some? then {p.carried.value} else {}
  }

  /** The failed list and the accounts blamed in the log agree, up to the current account. */
  ghost predicate Blames(failed: seq<int>, blamed: set<int>, current: int) {
    && (forall a :: a in failed ==> a != 0 && a in blamed)
    && (forall a :: a in blamed ==> a == 0 || a == current || a in failed)
  }

  /** Every send belongs to an earlier attempt, and its account is among the failed ones. */
  ghost predicate Earlier(sends: seq<Send>, failed: seq<int>, attempt: nat) {
    forall i :: 0 <= i < |sends| ==> sends[i].attempt < attempt && (sends[i].account == 0 || sends[i].account in failed)
  }

  /** Between two attempts: no account slot is held and only the carried response is open. */
  ghost predicate Resting(g: Gateway, p: Progress, attempt: nat, base: set<Slot>) {
    var l := LedgerOf(g, p.log);
    && Steady(g, p, l, attempt)
    && l.held == base && l.open == Carried(p) && l.owed == {}
    && Earlier(l.sends, p.failed, attempt) && Blames(p.failed, l.blamed, 0)
    && p.fallbacks == attempt
  }

  /** The loop has been left: nothing of it is held or owed, and one answer was given unless it was abandoned. */
  ghost predicate Left(g: Gateway, p: Progress, base: set<Slot>, canceled: bool) {
    var l := LedgerOf(g, p.log);
    && l.ok && l.held == base && l.open == {} && l.owed == {}
    && SendsInOrder(l.sends)
    && |l.sends| <= p.attempts <= 2 * g.maxAttempts
    && (g.maxAttempts == 1 ==> |l.sends| <= 1)
    && l.reclosed == l.aggregated
    && l.answers == (if canceled then 0 else 1) && l.over == canceled && l.settled == []
    && AdmissionKept(g, p.admission, l.admitted)
    && p.fallbacks < g.maxAttempts
  }

  ghost predicate NoAccountSlots(slots: set<Slot>) {
    forall k: nat :: AccountSlot(k) !in slots
  }

  // ---------- Choosing an account ----------

  function CloseCarried(g: Gateway, p: Progress): (r: Progress)
    ensures r == p.(log := r.log, carried := None)
  {
    match p.carried
    case None => p
    case Some(b) => Note(g, p, Closed(b)).(carried := None)
  }

  ghost predicate JustChosen(l: Ledger, account: Account) {
    l.account == Some(account) && !l.ready && !l.refreshed
  }

  ghost predicate SameChoice(l: Ledger, l': Ledger) {
    l.stuck == l'.stuck && l.account == l'.account && l.ready == l'.ready && l.refreshed == l'.refreshed
  }

  /** Closing the carried response changes nothing else that matters here. */
  lemma CloseCarriedRests(g: Gateway, p: Progress, attempt: nat, base: set<Slot>)
    requires Resting(g, p, attempt, base)
    ensures var q := CloseCarried(g, p);
            Resting(g, q, attempt, base) && q.carried.None? &&
            SameChoice(LedgerOf(g, p.log), LedgerOf(g, q.log))
  {
    hide LedgerOf, SendsInOrder, Earlier, Blames, SlotsBelow, BodiesBelow, AttemptsBelow, LastAttemptIs, AdmissionKept;
  }

  lemma NothingChosen(g: Gateway, p: Progress, attempt: nat, base: set<Slot>)
    requires Resting(g, p, attempt, base) && !g.w.select(p.log).Chosen?
    ensures Resting(g, Note(g, p, NotSelected), attempt, base)
    ensures LedgerOf(g, Note(g, p, NotSelected).log).stuck == Some(SelectionStatus(g.w.select(p.log), p.limited))
  {
    hide LedgerOf, SendsInOrder, Earlier, Blames, SlotsBelow, BodiesBelow, AttemptsBelow, LastAttemptIs, AdmissionKept;
  }

  lemma ReplyLeaves(g: Gateway, p: Progress, attempt: nat, base: set<Slot>, status: int)
    requires attempt < g.maxAttempts && Resting(g, p, attempt, base) && p.carried.None?
    requires LedgerOf(g, p.log).stuck == Some(status)
    ensures Left(g, Note(g, p, Replied(status)), base, false)
    ensures Left(g, Note(g, p.(attempts := p.attempts + 1), Replied(status)), base, false)
  {
    hide LedgerOf, SendsInOrder, Earlier, Blames, SlotsBelow, BodiesBelow, AttemptsBelow, LastAttemptIs, AdmissionKept;
  }

  lemma AccountChosen(g: Gateway, p: Progress, attempt: nat, base: set<Slot>, account: Account)
    requires Resting(g, p, attempt, base) && g.w.select(p.log) == Chosen(account)
    ensures var q := Note(g, p, Selected(account));
            Resting(g, q, attempt, base) && JustChosen(LedgerOf(g, q.log), account) &&
            LedgerOf(g, q.log).stuck == if account.id in p.failed then Some(502) else None
  {
    hide LedgerOf, SendsInOrder, Earlier, SlotsBelow, BodiesBelow, AttemptsBelow, LastAttemptIs, AdmissionKept;
  }

  datatype Reservation = Ready(account: Account) | TryNext | GiveUp

  /** An account is chosen and counted; nothing is open and its slot is not taken yet. */
  ghost predicate Picked(g: Gateway, p: Progress, attempt: nat, base: set<Slot>, account: Account) {
    var l := LedgerOf(g, p.log);
    && Steady(g, p, l, attempt + 1)
    && SlotsBelow(l.used, attempt)
    && l.held == base && l.open == {} && l.owed == {} && p.carried.None?
    && Earlier(l.sends, p.failed, attempt) && Blames(p.failed, l.blamed, 0) && account.id !in p.failed
    && JustChosen(l, account) && l.stuck == None
    && |l.sends| < p.attempts <= 2 * attempt + 1 && p.fallbacks == attempt
    && (g.maxAttempts == 1 ==> l.sends == [])
  }

  lemma Pick(g: Gateway, p: Progress, attempt: nat, base: set<Slot>, account: Account)
    requires attempt < g.maxAttempts && Resting(g, p, attempt, base) && p.carried.None? && account.id !in p.failed
    requires JustChosen(LedgerOf(g, p.log), account) && LedgerOf(g, p.log).stuck == None
    ensures Picked(g, p.(attempts := p.attempts + 1), attempt, base, account)
  {
    hide LedgerOf, SendsInOrder, Blames, BodiesBelow, LastAttemptIs, AdmissionKept;
  }

  /** Selection, slot, admission and usage record of one attempt. */
  method Reserve(g: Gateway, p0: Progress, attempt: nat, ghost base: set<Slot>) returns (p: Progress, r: Reservation)
    requires attempt < g.maxAttempts && Resting(g, p0, attempt, base) && NoAccountSlots(base)
    requires SpotOf(g, p0.log) == AtChoice(VarsOf(p0, attempt))
    ensures r.Ready? ==> Trying(g, p, attempt, base, r.account, 0)
    ensures r.TryNext? ==> attempt + 1 < g.maxAttempts && Resting(g, p, attempt + 1, base)
    ensures r.GiveUp? ==> Left(g, p, base, false)
    ensures SpotOf(g, p.log) == SpotFor(p, attempt, r)
  {
    hide Resting, Left, Trying, Picked, LedgerOf, Note, CloseCarried, SpotOf, Move;
    var selection := g.w.select(p0.log);
    if !selection.Chosen? {
      var status := SelectionStatus(selection, p0.limited);
      NothingChosen(g, p0, attempt, base);
      ScriptMisses(g, p0, attempt);
      p := Note(g, p0, NotSelected);
      CloseCarriedRests(g, p, attempt, base);
      p := CloseCarried(g, p);
      ReplyLeaves(g, p, attempt, base, status);
      return Note(g, p, Replied(status)), GiveUp;
    }
    var account := selection.account;
    AccountChosen(g, p0, attempt, base, account);
    ScriptPicks(g, p0, attempt, account);
    p := Note(g, p0, Selected(account));
    CloseCarriedRests(g, p, attempt, base);
    p := CloseCarried(g, p);
    if account.id != 0 && account.id in p.failed {
      ScriptRejects(g, p, attempt, account);
      ReplyLeaves(g, p, attempt, base, 502);
      p := p.(attempts := p.attempts + 1);
      return Note(g, p, Replied(502)), GiveUp;
    }
    FailedHasNoZero(g, p, attempt, base);
    Pick(g, p, attempt, base, account);
    p := p.(attempts := p.attempts + 1);
    p, r := ReserveSlot(g, p, attempt, account, base);
  }

  /** Where the script stands after an account was reserved, refused or not found. */
  function SpotFor(p: Progress, attempt: nat, r: Reservation): Spot {
    match r
    case Ready(account) => AtSend(VarsOf(p, attempt), account, false)
    case TryNext => AtChoice(VarsOf(p, attempt + 1))
    case GiveUp => AtKeyRelease(p.admission)
  }

  lemma ScriptMisses(g: Gateway, p: Progress, attempt: nat)
    requires SpotOf(g, p.log) == AtChoice(VarsOf(p, attempt)) && !g.w.select(p.log).Chosen?
    ensures var q := CloseCarried(g, Note(g, p, NotSelected));
            SpotOf(g, Note(g, q, Replied(SelectionStatus(g.w.select(p.log), p.limited))).log) == AtKeyRelease(p.admission)
  {
    hide SpotOf, LedgerOf, Post, SelectionStatus;
    var status := SelectionStatus(g.w.select(p.log), p.limited);
    SpotSnoc(g, p.log, NotSelected);
    var q := Note(g, p, NotSelected);
    if q.carried.Some? {
      SpotSnoc(g, q.log, Closed(q.carried.value));
    }
    SpotSnoc(g, CloseCarried(g, q).log, Replied(status));
  }

  lemma ScriptPicks(g: Gateway, p: Progress, attempt: nat, account: Account)
    requires SpotOf(g, p.log) == AtChoice(VarsOf(p, attempt)) && g.w.select(p.log) == Chosen(account)
    ensures var q := CloseCarried(g, Note(g, p, Selected(account))); SpotOf(g, q.log) == AtPick(VarsOf(q, attempt), account)
  {
    hide SpotOf, LedgerOf, Post;
    SpotSnoc(g, p.log, Selected(account));
    var q := Note(g, p, Selected(account));
    if q.carried.Some? {
      SpotSnoc(g, q.log, Closed(q.carried.value));
    }
  }

  lemma ScriptRejects(g: Gateway, p: Progress, attempt: nat, account: Account)
    requires SpotOf(g, p.log) == AtPick(VarsOf(p, attempt), account) && p.carried.None?
    requires account.id != 0 && account.id in p.failed
    ensures SpotOf(g, Note(g, p, Replied(502)).log) == AtKeyRelease(p.admission)
  {
    hide SpotOf, LedgerOf, Post;
    SpotSnoc(g, p.log, Replied(502));
  }

  lemma ScriptSlotRefused(g: Gateway, p: Progress, attempt: nat, account: Account, limit: int)
    requires SpotOf(g, p.log) == AtPick(VarsOf(p, attempt), account) && p.carried.None? && account.id !in p.failed
    requires limit == EffectiveLimit(account.limit, g.accountLimit) && account.id > 0 && limit > 0 && !g.w.accountSlot(p.log)
    ensures var q := Note(g, p, Refused(AccountSlot(attempt), account.id, limit));
            var r := q.(limited := true, failed := AppendUnique(q.failed, account.id));
            && (attempt + 1 < g.maxAttempts ==>
                  SpotOf(g, r.log) == SpotFor(r.(fallbacks := r.fallbacks + 1), attempt, TryNext))
            && (attempt + 1 >= g.maxAttempts ==>
                  SpotOf(g, Note(g, r, Replied(429)).log) == SpotFor(Note(g, r, Replied(429)), attempt, GiveUp))
  {
    hide SpotOf, LedgerOf, Post, EffectiveLimit, AppendUnique, Move;
    var q := Note(g, p, Refused(AccountSlot(attempt), account.id, limit));
    SpotSnoc(g, p.log, Refused(AccountSlot(attempt), account.id, limit));
    SpotSnoc(g, q.log, Replied(429));
    SlotRefusedStep(g, p.log, VarsOf(p, attempt), account, limit);
    ReplyStep(g, q.log, 429, p.admission);
  }

  lemma SlotRefusedStep(g: Gateway, log: Log, v: Vars, account: Account, limit: int)
    requires v.carried.None? && account.id !in v.failed && limit == EffectiveLimit(account.limit, g.accountLimit)
    requires account.id > 0 && limit > 0 && !g.w.accountSlot(log)
    ensures Move(g, log, AtPick(v, account), Refused(AccountSlot(v.attempt), account.id, limit)) ==
            if v.attempt + 1 < g.maxAttempts then AtChoice(NextTry(v, account).(limited := true)) else AtReply(429, v.admission, 2)
  {
    hide EffectiveLimit, AppendUnique;
  }

  lemma ReplyStep(g: Gateway, log: Log, status: int, admission: string)
    ensures Move(g, log, AtReply(status, admission, 2), Replied(status)) == AtKeyRelease(admission)
  {
  }

  lemma ScriptTakesSlot(g: Gateway, p: Progress, attempt: nat, account: Account, limit: int)
    requires SpotOf(g, p.log) == AtPick(VarsOf(p, attempt), account) && p.carried.None? && account.id !in p.failed
    requires limit == EffectiveLimit(account.limit, g.accountLimit)
    requires !(account.id > 0 && limit > 0 && !g.w.accountSlot(p.log))
    ensures var q := Note(g, p, Acquired(AccountSlot(attempt), account.id, limit));
            SpotOf(g, q.log) == SpotWithSlot(g, q, attempt, account)
  {
    hide SpotOf, LedgerOf, Post, EffectiveLimit;
    SpotSnoc(g, p.log, Acquired(AccountSlot(attempt), account.id, limit));
  }

  function SpotWithSlot(g: Gateway, p: Progress, attempt: nat, account: Account): Spot {
    if p.admission == "" && g.budgets then AtAdmission(VarsOf(p, attempt), account) else AtRecord(VarsOf(p, attempt), account)
  }

  lemma FailedHasNoZero(g: Gateway, p: Progress, attempt: nat, base: set<Slot>)
    requires Resting(g, p, attempt, base)
    ensures 0 !in p.failed
  {
  }

  // ---------- Its slot, the admission and the usage record ----------

  /** The attempt holds its slot; the admission and the usage record may still be missing. */
  ghost predicate Holding(g: Gateway, p: Progress, attempt: nat, base: set<Slot>, account: Account) {
    var l := LedgerOf(g, p.log);
    && Steady(g, p, l, attempt + 1)
    && l.held == base + {AccountSlot(attempt)} && AccountSlot(attempt) !in base
    && l.open == {} && l.owed == {} && p.carried.None?
    && Earlier(l.sends, p.failed, attempt) && Blames(p.failed, l.blamed, 0) && account.id !in p.failed
    && JustChosen(l, account) && l.stuck == None
    && |l.sends| < p.attempts <= 2 * attempt + 1 && p.fallbacks == attempt
    && (g.maxAttempts == 1 ==> l.sends == [])
  }

  lemma TakeSlot(g: Gateway, p: Progress, attempt: nat, base: set<Slot>, account: Account, limit: int)
    requires Picked(g, p, attempt, base, account) && NoAccountSlots(base)
    requires limit == EffectiveLimit(account.limit, g.accountLimit)
    requires account.id <= 0 || limit <= 0 || g.w.accountSlot(p.log)
    ensures Holding(g, Note(g, p, Acquired(AccountSlot(attempt), account.id, limit)), attempt, base, account)
  {
    hide LedgerOf, SendsInOrder, Earlier, Blames, BodiesBelow, AttemptsBelow, LastAttemptIs, AdmissionKept;
  }

  lemma SlotRefused(g: Gateway, p: Progress, attempt: nat, base: set<Slot>, account: Account, limit: int)
    requires attempt < g.maxAttempts && Picked(g, p, attempt, base, account)
    requires limit == EffectiveLimit(account.limit, g.accountLimit)
    requires account.id > 0 && limit > 0 && !g.w.accountSlot(p.log)
    ensures var q := Note(g, p, Refused(AccountSlot(attempt), account.id, limit));
            var q' := q.(limited := true, failed := AppendUnique(q.failed, account.id), fallbacks := q.fallbacks + 1);
            Resting(g, q', attempt + 1, base)
  {
    hide LedgerOf, SendsInOrder, BodiesBelow, LastAttemptIs, AdmissionKept;
  }

  lemma LastSlotRefused(g: Gateway, p: Progress, attempt: nat, base: set<Slot>, account: Account, limit: int, failed: seq<int>)
    requires attempt + 1 == g.maxAttempts && Picked(g, p, attempt, base, account)
    requires limit == EffectiveLimit(account.limit, g.accountLimit)
    requires account.id > 0 && limit > 0 && !g.w.accountSlot(p.log)
    ensures var q := Note(g, p, Refused(AccountSlot(attempt), account.id, limit)).(limited := true, failed := failed);
            Left(g, Note(g, q, Replied(429)), base, false)
  {
    hide LedgerOf, SendsInOrder, Earlier, Blames, BodiesBelow, AttemptsBelow, LastAttemptIs, AdmissionKept;
  }

  method ReserveSlot(g: Gateway, p0: Progress, attempt: nat, account: Account, ghost base: set<Slot>)
    returns (p: Progress, r: Reservation)
    requires attempt < g.maxAttempts && Picked(g, p0, attempt, base, account) && NoAccountSlots(base)
    requires SpotOf(g, p0.log) == AtPick(VarsOf(p0, attempt), account)
    ensures r.Ready? ==> r.account == account && Trying(g, p, attempt, base, account, 0)
    ensures r.TryNext? ==> attempt + 1 < g.maxAttempts && Resting(g, p, attempt + 1, base)
    ensures r.GiveUp? ==> Left(g, p, base, false)
    ensures SpotOf(g, p.log) == SpotFor(p, attempt, r)
  {
    hide *;
    PickedIsFree(g, p0, attempt, base, account);
    var limit := EffectiveLimit(account.limit, g.accountLimit);
    if account.id > 0 && limit > 0 && !g.w.accountSlot(p0.log) {
      ScriptSlotRefused(g, p0, attempt, account, limit);
      p := Note(g, p0, Refused(AccountSlot(attempt), account.id, limit));
      p := p.(limited := true, failed := AppendUnique(p.failed, account.id));
      if attempt + 1 < g.maxAttempts {
        SlotRefused(g, p0, attempt, base, account, limit);
        p := p.(fallbacks := p.fallbacks + 1);
        return p, TryNext;
      }
      LastSlotRefused(g, p0, attempt, base, account, limit, p.failed);
      return Note(g, p, Replied(429)), GiveUp;
    }
    TakeSlot(g, p0, attempt, base, account, limit);
    ScriptTakesSlot(g, p0, attempt, account, limit);
    p := Note(g, p0, Acquired(AccountSlot(attempt), account.id, limit));
    p, r := Admit(g, p, attempt, account, base);
  }

  lemma PickedIsFree(g: Gateway, p: Progress, attempt: nat, base: set<Slot>, account: Account)
    requires Picked(g, p, attempt, base, account)
    ensures p.carried.None? && account.id !in p.failed
  {
  }

  lemma ScriptDenies(g: Gateway, p: Progress, attempt: nat, account: Account, id: string, err: AdmitError)
    requires SpotOf(g, p.log) == AtAdmission(VarsOf(p, attempt), account) && g.w.admit(p.log) == Denied(id, err)
    ensures var q := Note(g, Note(g, p, AdmissionDenied(id, err)).(admission := id), Released(AccountSlot(attempt)));
            SpotOf(g, Note(g, q, Replied(AdmitStatus(err))).log) == AtKeyRelease(id)
  {
    hide SpotOf, LedgerOf, Post, AdmitStatus;
    SpotSnoc(g, p.log, AdmissionDenied(id, err));
    var q := Note(g, p, AdmissionDenied(id, err)).(admission := id);
    ScriptReturns(g, q, VarsOf(q, attempt), AdmitStatus(err));
  }

  lemma ScriptGrants(g: Gateway, p: Progress, attempt: nat, account: Account, id: string)
    requires SpotOf(g, p.log) == AtAdmission(VarsOf(p, attempt), account) && g.w.admit(p.log) == Granted(id)
    ensures var q := Note(g, p, Admitted(id)).(admission := id); SpotOf(g, q.log) == AtRecord(VarsOf(q, attempt), account)
  {
    hide SpotOf, LedgerOf, Post;
    SpotSnoc(g, p.log, Admitted(id));
  }

  lemma ScriptRecords(g: Gateway, p: Progress, attempt: nat, account: Account)
    requires SpotOf(g, p.log) == AtRecord(VarsOf(p, attempt), account)
    ensures g.w.recordUsed(p.log) ==> SpotOf(g, Note(g, p, UsageRecorded(true)).log) == AtSend(VarsOf(p, attempt), account, false)
    ensures !g.w.recordUsed(p.log) ==>
              var q := Note(g, Note(g, p, UsageRecorded(false)), Released(AccountSlot(attempt)));
              SpotOf(g, Note(g, q, Replied(500)).log) == AtKeyRelease(p.admission)
  {
    hide SpotOf, LedgerOf, Post;
    SpotSnoc(g, p.log, UsageRecorded(g.w.recordUsed(p.log)));
    if !g.w.recordUsed(p.log) {
      ScriptReturns(g, Note(g, p, UsageRecorded(false)), VarsOf(p, attempt), 500);
    }
  }

  /** The slot goes back and the client is told. */
  lemma ScriptReturns(g: Gateway, p: Progress, v: Vars, status: int)
    requires SpotOf(g, p.log) == AtReturn(v, status)
    ensures SpotOf(g, Note(g, Note(g, p, Released(AccountSlot(v.attempt))), Replied(status)).log) == AtKeyRelease(v.admission)
  {
    hide SpotOf, LedgerOf, Post;
    SpotSnoc(g, p.log, Released(AccountSlot(v.attempt)));
    SpotSnoc(g, p.log + [Released(AccountSlot(v.attempt))], Replied(status));
  }

  lemma Denial(g: Gateway, p: Progress, attempt: nat, base: set<Slot>, account: Account, id: string, err: AdmitError)
    requires attempt < g.maxAttempts && Holding(g, p, attempt, base, account)
    requires g.budgets && p.admission == "" && g.w.admit(p.log) == Denied(id, err)
    ensures var q := Note(g, p, AdmissionDenied(id, err)).(admission := id);
            Left(g, Note(g, Note(g, q, Released(AccountSlot(attempt))), Replied(AdmitStatus(err))), base, false)
  {
    hide LedgerOf, SendsInOrder, Earlier, Blames, SlotsBelow, BodiesBelow, AttemptsBelow, LastAttemptIs;
  }

  lemma Grant(g: Gateway, p: Progress, attempt: nat, base: set<Slot>, account: Account, id: string)
    requires Holding(g, p, attempt, base, account)
    requires g.budgets && p.admission == "" && g.w.admit(p.log) == Granted(id)
    ensures var q := Note(g, p, Admitted(id)).(admission := id);
            Holding(g, q, attempt, base, account) && LedgerOf(g, q.log).admitted != []
  {
    hide LedgerOf, SendsInOrder, Earlier, Blames, SlotsBelow, BodiesBelow, AttemptsBelow, LastAttemptIs;
  }

  lemma AdmissionInHand(g: Gateway, p: Progress, attempt: nat, base: set<Slot>, account: Account)
    requires Holding(g, p, attempt, base, account) && p.admission != ""
    ensures LedgerOf(g, p.log).admitted != []
  {
  }

  lemma RecordUse(g: Gateway, p: Progress, attempt: nat, base: set<Slot>, account: Account)
    requires Holding(g, p, attempt, base, account) && (g.budgets ==> LedgerOf(g, p.log).admitted != [])
    requires g.w.recordUsed(p.log)
    ensures Trying(g, Note(g, p, UsageRecorded(true)), attempt, base, account, 0)
  {
    hide LedgerOf, SendsInOrder, BodiesBelow, LastAttemptIs, AdmissionKept;
    var sends := LedgerOf(g, p.log).sends;
    assert sends[..|sends| - 0] == sends;
  }

  lemma UseNotRecorded(g: Gateway, p: Progress, attempt: nat, base: set<Slot>, account: Account)
    requires attempt < g.maxAttempts && Holding(g, p, attempt, base, account) && !g.w.recordUsed(p.log)
    ensures var q := Note(g, p, UsageRecorded(false));
            Left(g, Note(g, Note(g, q, Released(AccountSlot(attempt))), Replied(500)), base, false)
  {
    hide LedgerOf, SendsInOrder, Earlier, Blames, SlotsBelow, BodiesBelow, AttemptsBelow, LastAttemptIs, AdmissionKept;
  }

  method Admit(g: Gateway, p0: Progress, attempt: nat, account: Account, ghost base: set<Slot>)
    returns (p: Progress, r: Reservation)
    requires attempt < g.maxAttempts && Holding(g, p0, attempt, base, account)
    requires SpotOf(g, p0.log) == SpotWithSlot(g, p0, attempt, account)
    ensures r.Ready? ==> r.account == account && Trying(g, p, attempt, base, account, 0)
    ensures !r.TryNext?
    ensures r.GiveUp? ==> Left(g, p, base, false)
    ensures SpotOf(g, p.log) == SpotFor(p, attempt, r)
  {
    hide Left, Trying, Holding, LedgerOf, Post, SpotOf, Move, AdmitStatus;
    p := p0;
    if p.admission == "" && g.budgets {
      var admission := g.w.admit(p.log);
      match admission {
        case Denied(id, err) =>
          Denial(g, p, attempt, base, account, id, err);
          ScriptDenies(g, p, attempt, account, id, err);
          p := Note(g, p, AdmissionDenied(id, err)).(admission := id);
          p := Note(g, p, Released(AccountSlot(attempt)));
          return Note(g, p, Replied(AdmitStatus(err))), GiveUp;
        case Granted(id) =>
          Grant(g, p, attempt, base, account, id);
          ScriptGrants(g, p, attempt, account, id);
          p := Note(g, p, Admitted(id)).(admission := id);
      }
    } else if g.budgets {
      AdmissionInHand(g, p, attempt, base, account);
    }
    ScriptRecords(g, p, attempt, account);
    if !g.w.recordUsed(p.log) {
      UseNotRecorded(g, p, attempt, base, account);
      p := Note(g, p, UsageRecorded(false));
      p := Note(g, p, Released(AccountSlot(attempt)));
      return Note(g, p, Replied(500)), GiveUp;
    }
    RecordUse(g, p, attempt, base, account);
    return Note(g, p, UsageRecorded(true)), Ready(account);
  }

  /** The last `sent` sends are the current attempt's. */
  ghost predicate CurrentSends(sends: seq<Send>, sent: nat, s: Send) {
    sent <= |sends| && forall i :: |sends| - sent <= i < |sends| ==> sends[i] == s
  }

  /** Inside an attempt that holds its slot and has sent `sent` times; one more send is counted for. */
  ghost predicate Trying(g: Gateway, p: Progress, attempt: nat, base: set<Slot>, account: Account, sent: nat) {
    var l := LedgerOf(g, p.log);
    && Steady(g, p, l, attempt + 1)
    && l.held == base + {AccountSlot(attempt)} && AccountSlot(attempt) !in base
    && l.open == {} && l.owed == {} && p.carried.None?
    && sent <= |l.sends| && Earlier(l.sends[..|l.sends| - sent], p.failed, attempt)
    && CurrentSends(l.sends, sent, Send(attempt, account.id))
    && Blames(p.failed, l.blamed, account.id) && account.id !in p.failed
    && l.account == Some(account) && l.ready && l.refreshed == (sent == 1)
    && |l.sends| < p.attempts <= 2 * attempt + 1 + sent && p.fallbacks == attempt
    && (g.maxAttempts == 1 ==> l.sends == [])
    && (g.budgets ==> l.admitted != [])
  }

  // ---------- Sending, with one retry after an authorization refresh ----------

  datatype Upstream = RequestError | TransportError | Answer(body: nat, status: int)

  /** Every send's account is failed or the current one. */
  ghost predicate SendersKnown(sends: seq<Send>, failed: seq<int>, account: int) {
    forall i :: 0 <= i < |sends| ==> sends[i].account == 0 || sends[i].account == account || sends[i].account in failed
  }

  /** The attempt has the upstream's word (or none) and sends no more. */
  ghost predicate Heard(g: Gateway, p: Progress, attempt: nat, base: set<Slot>, account: Account, u: Upstream) {
    var l := LedgerOf(g, p.log);
    && Steady(g, p, l, attempt + 1)
    && l.held == base + {AccountSlot(attempt)} && AccountSlot(attempt) !in base && p.carried.None?
    && SendersKnown(l.sends, p.failed, account.id) && Blames(p.failed, l.blamed, account.id)
    && p.fallbacks == attempt
    && match u
       case RequestError => l.open == {} && l.owed == {} && l.stuck == Some(502)
       case TransportError => l.open == {} && l.owed == {} && l.stuck == StuckIfLast(g, attempt, 502) && account.id in l.blamed
       case Answer(body, status) =>
         && l.open == {body} && l.last == Response(status, body) && l.lastAttempt == attempt && account.id in l.blamed
         && l.owed == if RetryableStatus(status) then {} else {body}
  }

  lemma AddSend(sends: seq<Send>, failed: seq<int>, attempt: nat, account: int, sent: nat)
    requires SendsInOrder(sends) && sent <= 1 && sent <= |sends| && Earlier(sends[..|sends| - sent], failed, attempt)
    requires CurrentSends(sends, sent, Send(attempt, account))
    requires account !in failed && AttemptsBelow(sends, attempt + 1)
    ensures var more := sends + [Send(attempt, account)];
            && SendsInOrder(more) && AttemptsBelow(more, attempt + 1) && LastAttemptIs(more, attempt)
            && SendersKnown(more, failed, account) && SendersKnown(sends, failed, account)
            && CurrentSends(more, sent + 1, Send(attempt, account)) && more[..|more| - (sent + 1)] == sends[..|sends| - sent]
  {
    hide SendsInOrder;
    EarlierSends(sends, failed, attempt, account, sent);
    InOrderSnoc(sends, Send(attempt, account));
  }

  /** What the sends so far are to one more send of the attempt. */
  lemma EarlierSends(sends: seq<Send>, failed: seq<int>, attempt: nat, account: int, sent: nat)
    requires sent <= 1 && sent <= |sends| && Earlier(sends[..|sends| - sent], failed, attempt)
    requires CurrentSends(sends, sent, Send(attempt, account)) && account !in failed
    ensures Follows(sends, Send(attempt, account)) && SendersKnown(sends, failed, account)
  {
    var before := sends[..|sends| - sent];
    assert forall i :: 0 <= i < |sends| - sent ==> sends[i] == before[i];
  }

  ghost predicate Follows(sends: seq<Send>, s: Send) {
    forall i :: 0 <= i < |sends| ==>
                  && sends[i].attempt <= s.attempt && (i + 2 <= |sends| ==> sends[i].attempt < s.attempt)
                  && (sends[i].account == s.account ==> s.account == 0 || sends[i].attempt == s.attempt)
  }

  lemma InOrderSnoc(sends: seq<Send>, s: Send)
    requires SendsInOrder(sends) && Follows(sends, s)
    ensures SendsInOrder(sends + [s])
  {
  }

  lemma FirstOfAttempt(sends: seq<Send>, failed: seq<int>, attempt: nat, last: nat)
    requires Earlier(sends[..|sends| - 0], failed, attempt) && LastAttemptIs(sends, last) && sends != []
    ensures last < attempt
  {
    assert sends[..|sends| - 0][|sends| - 1] == sends[|sends| - 1];
  }

  lemma BlameCurrent(failed: seq<int>, blamed: set<int>, account: int)
    requires Blames(failed, blamed, account)
    ensures Blames(failed, blamed + {account}, account)
  {
  }

  lemma NewBody(seen: set<nat>, n: nat)
    requires BodiesBelow(seen, n)
    ensures n !in seen && BodiesBelow(seen, n + 1) && BodiesBelow(seen + {n}, n + 1)
  {
  }

  /** A single send of the attempt so far, which may still be repeated. */
  ghost predicate SentOnce(g: Gateway, p: Progress, l: Ledger, attempt: nat, account: Account) {
    && |l.sends| > 0 && Earlier(l.sends[..|l.sends| - 1], p.failed, attempt)
    && CurrentSends(l.sends, 1, Send(attempt, account.id))
    && account.id !in p.failed && l.account == Some(account) && l.ready
    && (g.budgets ==> l.admitted != []) && p.attempts <= 2 * attempt + 1
  }

  ghost predicate AnswerFits(g: Gateway, p: Progress, r: Response) {
    && g.w.buildRequest(p.log) && g.w.client(p.log) && r.Response? == g.w.send(p.log).0
    && (r.Response? ==> r.body == |LedgerOf(g, p.log).sends| && r.status == g.w.send(p.log).1)
  }

  /** One send is legal, whether it is the first of the attempt or the one after the refresh. */
  lemma SendIsLegal(g: Gateway, p: Progress, attempt: nat, base: set<Slot>, account: Account, sent: nat, r: Response)
    requires Trying(g, p, attempt, base, account, sent) && sent <= 1 && AnswerFits(g, p, r)
    ensures Legal(g, p.log, LedgerOf(g, p.log), Sent(attempt, account.id, r))
  {
    hide LedgerOf, SendsInOrder, Earlier, Blames, SlotsBelow, BodiesBelow, AttemptsBelow, LastAttemptIs, AdmissionKept, SendersKnown, CurrentSends;
    var l := LedgerOf(g, p.log);
    NewBody(l.seen, |l.sends|);
    if l.sends != [] && sent == 0 {
      FirstOfAttempt(l.sends, p.failed, attempt, l.lastAttempt);
    }
  }

  lemma SendAnswered(g: Gateway, p: Progress, attempt: nat, base: set<Slot>, account: Account, sent: nat, r: Response)
    requires Trying(g, p, attempt, base, account, sent) && sent <= 1 && AnswerFits(g, p, r) && r.Response?
    ensures Heard(g, Note(g, p, Sent(attempt, account.id, r)), attempt, base, account, Answer(r.body, r.status))
  {
    hide LedgerOf, SendsInOrder, Earlier, Blames, SlotsBelow, BodiesBelow, AttemptsBelow, LastAttemptIs, AdmissionKept, SendersKnown, CurrentSends, Legal, RetryableStatus;
    var l := LedgerOf(g, p.log);
    SendIsLegal(g, p, attempt, base, account, sent, r);
    AddSend(l.sends, p.failed, attempt, account.id, sent);
    BlameCurrent(p.failed, l.blamed, account.id);
    NewBody(l.seen, |l.sends|);
  }

  lemma SendLost(g: Gateway, p: Progress, attempt: nat, base: set<Slot>, account: Account, sent: nat)
    requires Trying(g, p, attempt, base, account, sent) && sent <= 1 && AnswerFits(g, p, NoResponse)
    ensures Heard(g, Note(g, p, Sent(attempt, account.id, NoResponse)), attempt, base, account, TransportError)
  {
    hide LedgerOf, SendsInOrder, Earlier, Blames, SlotsBelow, BodiesBelow, AttemptsBelow, LastAttemptIs, AdmissionKept, SendersKnown, CurrentSends, Legal;
    var l := LedgerOf(g, p.log);
    SendIsLegal(g, p, attempt, base, account, sent, NoResponse);
    AddSend(l.sends, p.failed, attempt, account.id, sent);
    BlameCurrent(p.failed, l.blamed, account.id);
    NewBody(l.seen, |l.sends|);
  }

  lemma SendOnce(g: Gateway, p: Progress, attempt: nat, base: set<Slot>, account: Account, sent: nat, r: Response)
    requires Trying(g, p, attempt, base, account, sent) && sent <= 1 && AnswerFits(g, p, r)
    ensures var u := if r.Response? then Answer(r.body, r.status) else TransportError;
            Heard(g, Note(g, p, Sent(attempt, account.id, r)), attempt, base, account, u)
  {
    hide LedgerOf, Trying, Heard, Note, AnswerFits;
    if r.Response? {
      SendAnswered(g, p, attempt, base, account, sent, r);
    } else {
      SendLost(g, p, attempt, base, account, sent);
    }
  }

  lemma FirstSend(g: Gateway, p: Progress, attempt: nat, base: set<Slot>, account: Account, r: Response)
    requires Trying(g, p, attempt, base, account, 0) && AnswerFits(g, p, r)
    ensures var q := Note(g, p, Sent(attempt, account.id, r)); SentOnce(g, q, LedgerOf(g, q.log), attempt, account)
  {
    hide LedgerOf, SendsInOrder, Earlier, Blames, SlotsBelow, BodiesBelow, AttemptsBelow, LastAttemptIs, AdmissionKept, SendersKnown, CurrentSends, Legal;
    var l := LedgerOf(g, p.log);
    AddSend(l.sends, p.failed, attempt, account.id, 0);
  }

  lemma NotBuilt(g: Gateway, p: Progress, attempt: nat, base: set<Slot>, account: Account, sent: nat)
    requires Trying(g, p, attempt, base, account, sent) && sent <= 1 && !g.w.buildRequest(p.log)
    ensures Heard(g, Note(g, p, RequestUnbuilt), attempt, base, account, RequestError)
  {
    hide LedgerOf, SendsInOrder, Earlier, Blames, SlotsBelow, BodiesBelow, AttemptsBelow, LastAttemptIs, AdmissionKept, SendersKnown, CurrentSends;
    var l := LedgerOf(g, p.log);
    AddSend(l.sends, p.failed, attempt, account.id, sent);
    BlameCurrent(p.failed, l.blamed, account.id);
  }

  lemma NoClient(g: Gateway, p: Progress, attempt: nat, base: set<Slot>, account: Account, sent: nat)
    requires Trying(g, p, attempt, base, account, sent) && sent <= 1 && g.w.buildRequest(p.log) && !g.w.client(p.log)
    ensures Heard(g, Note(g, p, ClientMissing(attempt)), attempt, base, account, TransportError)
  {
    hide LedgerOf, SendsInOrder, Earlier, Blames, SlotsBelow, BodiesBelow, AttemptsBelow, LastAttemptIs, AdmissionKept, SendersKnown, CurrentSends;
    var l := LedgerOf(g, p.log);
    AddSend(l.sends, p.failed, attempt, account.id, sent);
    BlameCurrent(p.failed, l.blamed, account.id);
  }

  lemma NoSend(g: Gateway, p: Progress, attempt: nat, base: set<Slot>, account: Account, sent: nat)
    requires Trying(g, p, attempt, base, account, sent) && sent <= 1
    ensures !g.w.buildRequest(p.log) ==> Heard(g, Note(g, p, RequestUnbuilt), attempt, base, account, RequestError)
    ensures g.w.buildRequest(p.log) && !g.w.client(p.log) ==>
              Heard(g, Note(g, p, ClientMissing(attempt)), attempt, base, account, TransportError)
  {
    hide Trying, Heard, Note;
    if !g.w.buildRequest(p.log) {
      NotBuilt(g, p, attempt, base, account, sent);
    } else if !g.w.client(p.log) {
      NoClient(g, p, attempt, base, account, sent);
    }
  }

  /** Reading the pass-through rules keeps the answer. */
  lemma ReadRules(g: Gateway, p: Progress, attempt: nat, base: set<Slot>, account: Account, u: Upstream)
    requires Heard(g, p, attempt, base, account, u)
    ensures var q := Note(g, p, RulesRead(g.w.passThrough(p.log)));
            Heard(g, q, attempt, base, account, u) && LedgerOf(g, q.log).passed == g.w.passThrough(p.log) &&
            (SentOnce(g, p, LedgerOf(g, p.log), attempt, account) ==> SentOnce(g, q, LedgerOf(g, q.log), attempt, account))
  {
    hide LedgerOf, SendsInOrder, Earlier, Blames, SlotsBelow, BodiesBelow, AttemptsBelow, LastAttemptIs, AdmissionKept, SendersKnown, CurrentSends;
  }

  lemma ReadRefresh(g: Gateway, p: Progress, attempt: nat, base: set<Slot>, account: Account, u: Upstream)
    requires Heard(g, p, attempt, base, account, u) && u.Answer? && AuthorizationFailure(u.status) && g.maxAttempts != 1
    requires SentOnce(g, p, LedgerOf(g, p.log), attempt, account) && !LedgerOf(g, p.log).passed
    ensures var again := RefreshWorks(g, p.log, account);
            var q := Note(g, p, Refreshed(again));
            Heard(g, q, attempt, base, account, u) && SentOnce(g, q, LedgerOf(g, q.log), attempt, account) &&
            LedgerOf(g, q.log).refreshed == again
  {
    hide LedgerOf, SendsInOrder, Earlier, Blames, SlotsBelow, BodiesBelow, AttemptsBelow, LastAttemptIs, AdmissionKept, SendersKnown, CurrentSends;
  }

  /** Closing a refreshed answer makes the attempt ready for its second send. */
  lemma CloseForRetry(g: Gateway, p: Progress, attempt: nat, base: set<Slot>, account: Account, u: Upstream)
    requires Heard(g, p, attempt, base, account, u) && u.Answer? && AuthorizationFailure(u.status) && g.maxAttempts != 1
    requires SentOnce(g, p, LedgerOf(g, p.log), attempt, account) && LedgerOf(g, p.log).refreshed
    ensures var q := Note(g, p, Closed(u.body));
            Trying(g, q.(attempts := q.attempts + 1), attempt, base, account, 1)
  {
    hide LedgerOf, SendsInOrder, Earlier, Blames, SlotsBelow, BodiesBelow, AttemptsBelow, LastAttemptIs, AdmissionKept, SendersKnown, CurrentSends;
  }

  lemma {:induction false} LedgerNumbersSends(g: Gateway, log: Log)
    ensures SendCount(log) == |LedgerOf(g, log).sends|
  {
    hide Post;
    if log != [] {
      LedgerNumbersSends(g, log[..|log| - 1]);
      SendStep(g, log[..|log| - 1], LedgerOf(g, log[..|log| - 1]), log[|log| - 1]);
    }
  }

  /** Where the script stands after the upstream's word. */
  predicate SpotHeard(g: Gateway, s: Spot, v: Vars, account: Account, u: Upstream) {
    match u
    case RequestError => s == AtReturn(v, 502)
    case TransportError => s == AtFailure(v, account)
    case Answer(body, status) => s == if RetryableStatus(status) then AtRuling(v, account, body) else AtDelivery(v, body)
  }

  lemma ScriptCannotSend(g: Gateway, p: Progress, attempt: nat, account: Account, again: bool)
    requires SpotOf(g, p.log) == AtSend(VarsOf(p, attempt), account, again)
    ensures !g.w.buildRequest(p.log) ==> SpotOf(g, p.log + [RequestUnbuilt]) == AtReturn(VarsOf(p, attempt), 502)
    ensures g.w.buildRequest(p.log) && !g.w.client(p.log) ==>
              SpotOf(g, p.log + [ClientMissing(attempt)]) == AtFailure(VarsOf(p, attempt), account)
  {
    hide SpotOf;
    SpotSnoc(g, p.log, RequestUnbuilt);
    SpotSnoc(g, p.log, ClientMissing(attempt));
  }

  lemma ScriptSends(g: Gateway, p: Progress, attempt: nat, account: Account, again: bool, r: Response)
    requires SpotOf(g, p.log) == AtSend(VarsOf(p, attempt), account, again)
    requires g.w.buildRequest(p.log) && g.w.client(p.log) && r == AnswerOf(g, p.log)
    ensures var s := SpotOf(g, p.log + [Sent(attempt, account.id, r)]);
            if r.NoResponse? then s == AtFailure(VarsOf(p, attempt), account)
            else if !again && g.maxAttempts != 1 && AuthorizationFailure(r.status) then s == AtCheck(VarsOf(p, attempt), account, r.body)
            else SpotHeard(g, s, VarsOf(p, attempt), account, Answer(r.body, r.status))
  {
    hide SpotOf, AuthorizationFailure, RetryableStatus, AnswerOf;
    SpotSnoc(g, p.log, Sent(attempt, account.id, r));
  }

  lemma AuthorizationIsRetryable(status: int)
    ensures AuthorizationFailure(status) ==> RetryableStatus(status)
  {
  }

  lemma ScriptChecks(g: Gateway, log: Log, v: Vars, account: Account, body: nat)
    requires SpotOf(g, log) == AtCheck(v, account, body)
    ensures SpotOf(g, log + [RulesRead(g.w.passThrough(log))]) ==
            if g.w.passThrough(log) then AtRuling(v, account, body) else AtRefresh(v, account, body)
  {
    hide SpotOf;
    SpotSnoc(g, log, RulesRead(g.w.passThrough(log)));
  }

  lemma ScriptRefreshes(g: Gateway, log: Log, v: Vars, account: Account, body: nat)
    requires SpotOf(g, log) == AtRefresh(v, account, body)
    ensures var again := RefreshWorks(g, log, account);
            if again then SpotOf(g, log + [Refreshed(true)] + [Closed(body)]) == AtSend(v, account, true)
            else SpotOf(g, log + [Refreshed(false)]) == AtRuling(v, account, body)
  {
    hide SpotOf, RefreshWorks;
    var again := RefreshWorks(g, log, account);
    SpotSnoc(g, log, Refreshed(again));
    SpotSnoc(g, log + [Refreshed(again)], Closed(body));
  }

  /** On a first answer of 401 or 403: unless a rule passes it on, a refresh decides whether to close it and send again. */
  method RefreshAuthorization(g: Gateway, p0: Progress, attempt: nat, account: Account, ghost base: set<Slot>, body: nat, status: int)
    returns (p: Progress, again: bool)
    requires Heard(g, p0, attempt, base, account, Answer(body, status)) && AuthorizationFailure(status) && g.maxAttempts != 1
    requires SentOnce(g, p0, LedgerOf(g, p0.log), attempt, account)
    requires SpotOf(g, p0.log) == AtCheck(VarsOf(p0, attempt), account, body)
    ensures if again then Trying(g, p, attempt, base, account, 1) && SpotOf(g, p.log) == AtSend(VarsOf(p, attempt), account, true)
            else Heard(g, p, attempt, base, account, Answer(body, status)) &&
                 SpotHeard(g, SpotOf(g, p.log), VarsOf(p, attempt), account, Answer(body, status))
  {
    hide Trying, Heard, SentOnce, LedgerOf, Post, AuthorizationFailure, SpotOf, Move, RefreshWorks, SendCount;
    ghost var u := Answer(body, status);
    p := p0;
    var pass := g.w.passThrough(p.log);
    ReadRules(g, p, attempt, base, account, u);
    ScriptChecks(g, p.log, VarsOf(p, attempt), account, body);
    AuthorizationIsRetryable(status);
    p := Note(g, p, RulesRead(pass));
    if pass {
      return p, false;
    }
    again := RefreshWorks(g, p.log, account);
    ScriptRefreshes(g, p.log, VarsOf(p, attempt), account, body);
    ReadRefresh(g, p, attempt, base, account, u);
    p := Note(g, p, Refreshed(again));
    if !again {
      return;
    }
    CloseForRetry(g, p, attempt, base, account, u);
    p := Note(g, p, Closed(body));
    p := p.(attempts := p.attempts + 1);
  }

  /** Up to two sends: a second one only after a refresh that the first answer asked for. */
  method SendUpstream(g: Gateway, p0: Progress, attempt: nat, account: Account, ghost base: set<Slot>)
    returns (p: Progress, u: Upstream)
    requires Trying(g, p0, attempt, base, account, 0) && SpotOf(g, p0.log) == AtSend(VarsOf(p0, attempt), account, false)
    ensures Heard(g, p, attempt, base, account, u) && SpotHeard(g, SpotOf(g, p.log), VarsOf(p, attempt), account, u)
  {
    hide Trying, Heard, SentOnce, LedgerOf, Post, AuthorizationFailure, SpotOf, Move, RefreshWorks, SendCount;
    p := p0;
    var retried := false;
    while true
      invariant Trying(g, p, attempt, base, account, if retried then 1 else 0)
      invariant SpotOf(g, p.log) == AtSend(VarsOf(p, attempt), account, retried)
      decreases !retried
    {
      if !g.w.buildRequest(p.log) {
        NoSend(g, p, attempt, base, account, if retried then 1 else 0);
        ScriptCannotSend(g, p, attempt, account, retried);
        return Note(g, p, RequestUnbuilt), RequestError;
      }
      if !g.w.client(p.log) {
        NoSend(g, p, attempt, base, account, if retried then 1 else 0);
        ScriptCannotSend(g, p, attempt, account, retried);
        return Note(g, p, ClientMissing(attempt)), TransportError;
      }
      var (answered, status) := g.w.send(p.log);
      var body := SendCount(p.log);
      LedgerNumbersSends(g, p.log);
      var response := if answered then Response(status, body) else NoResponse;
      SendOnce(g, p, attempt, base, account, if retried then 1 else 0, response);
      if !retried {
        FirstSend(g, p, attempt, base, account, response);
      }
      ScriptSends(g, p, attempt, account, retried, response);
      p := Note(g, p, Sent(attempt, account.id, response));
      if !answered {
        return p, TransportError;
      }
      u := Answer(body, status);
      if retried || g.maxAttempts == 1 || !AuthorizationFailure(status) {
        return;
      }
      p, retried := RefreshAuthorization(g, p, attempt, account, base, body, status);
      if !retried {
        return;
      }
    }
  }

  // ---------- After the answer ----------

  /** Serving an answer: the aggregating writer closes the body as well, then the deferred calls run. */
  function ServeBody(g: Gateway, p: Progress, attempt: nat, body: nat, aggregated: bool): Progress {
    var served := Note(g, p, Served(body, aggregated));
    var written := if aggregated then Note(g, served, ClosedByWriter(body)) else served;
    Note(g, Note(g, written, Closed(body)), Released(AccountSlot(attempt)))
  }

  /** The answer goes to the client; its body is still open. */
  ghost predicate Serving(g: Gateway, p: Progress, attempt: nat, base: set<Slot>, body: nat) {
    var l := LedgerOf(g, p.log);
    && l.ok && l.held == base + {AccountSlot(attempt)} && AccountSlot(attempt) !in base
    && l.open == {body} && l.owed == {} && l.reclosed <= l.aggregated <= {body}
    && SendsInOrder(l.sends)
    && |l.sends| <= p.attempts <= 2 * g.maxAttempts
    && (g.maxAttempts == 1 ==> |l.sends| <= 1)
    && l.answers == 1 && !l.over && l.settled == []
    && AdmissionKept(g, p.admission, l.admitted)
    && p.fallbacks < g.maxAttempts
  }

  /** An answer may be served when nothing better can follow: it is final, let through, or the last attempt's. */
  lemma Serve(g: Gateway, p: Progress, attempt: nat, base: set<Slot>, account: Account, u: Upstream, failed: seq<int>)
    requires attempt < g.maxAttempts && Heard(g, p, attempt, base, account, u) && u.Answer?
    requires !RetryableStatus(u.status) || LedgerOf(g, p.log).passed || attempt + 1 == g.maxAttempts
    ensures var aggregated := g.w.aggregates(p.log);
            var q := Note(g, p.(failed := failed), Served(u.body, aggregated));
            Serving(g, q, attempt, base, u.body) && LedgerOf(g, q.log).reclosed == {} &&
            LedgerOf(g, q.log).aggregated == if aggregated then {u.body} else {}
  {
    hide LedgerOf, SendsInOrder, Blames, SlotsBelow, BodiesBelow, AttemptsBelow, LastAttemptIs, AdmissionKept, SendersKnown;
  }

  lemma WriterAlsoCloses(g: Gateway, p: Progress, attempt: nat, base: set<Slot>, body: nat)
    requires Serving(g, p, attempt, base, body) && LedgerOf(g, p.log).aggregated == {body} && LedgerOf(g, p.log).reclosed == {}
    ensures var q := Note(g, p, ClosedByWriter(body));
            Serving(g, q, attempt, base, body) && LedgerOf(g, q.log).reclosed == LedgerOf(g, q.log).aggregated
  {
    hide LedgerOf, SendsInOrder, AdmissionKept;
  }

  lemma CloseAndRelease(g: Gateway, p: Progress, attempt: nat, base: set<Slot>, body: nat)
    requires Serving(g, p, attempt, base, body) && LedgerOf(g, p.log).reclosed == LedgerOf(g, p.log).aggregated
    ensures Left(g, Note(g, Note(g, p, Closed(body)), Released(AccountSlot(attempt))), base, false)
  {
    hide LedgerOf, SendsInOrder, AdmissionKept;
  }

  lemma ServeLeaves(g: Gateway, p: Progress, attempt: nat, base: set<Slot>, account: Account, u: Upstream, failed: seq<int>)
    requires attempt < g.maxAttempts && Heard(g, p, attempt, base, account, u) && u.Answer?
    requires !RetryableStatus(u.status) || LedgerOf(g, p.log).passed || attempt + 1 == g.maxAttempts
    ensures Left(g, ServeBody(g, p.(failed := failed), attempt, u.body, g.w.aggregates(p.log)), base, false)
  {
    hide LedgerOf, Post, Heard, Serving, Left;
    var aggregated := g.w.aggregates(p.log);
    Serve(g, p, attempt, base, account, u, failed);
    var q := Note(g, p.(failed := failed), Served(u.body, aggregated));
    if aggregated {
      WriterAlsoCloses(g, q, attempt, base, u.body);
      CloseAndRelease(g, Note(g, q, ClosedByWriter(u.body)), attempt, base, u.body);
    } else {
      CloseAndRelease(g, q, attempt, base, u.body);
    }
  }

  /** The attempt is over without an answer: its slot goes back. */
  ghost predicate GaveBack(g: Gateway, p: Progress, attempt: nat, base: set<Slot>, account: Account) {
    var l := LedgerOf(g, p.log);
    && Steady(g, p, l, attempt + 1)
    && l.held == base && l.open == {} && l.owed == {} && p.carried.None?
    && SendersKnown(l.sends, p.failed, account.id) && Blames(p.failed, l.blamed, account.id)
    && p.fallbacks == attempt
  }

  lemma Release(g: Gateway, p: Progress, attempt: nat, base: set<Slot>, account: Account, u: Upstream)
    requires Heard(g, p, attempt, base, account, u) && !u.Answer?
    ensures var q := Note(g, p, Released(AccountSlot(attempt)));
            GaveBack(g, q, attempt, base, account) &&
            LedgerOf(g, q.log).stuck == (if u.RequestError? then Some(502) else StuckIfLast(g, attempt, 502)) &&
            (u.TransportError? ==> account.id in LedgerOf(g, q.log).blamed)
  {
    hide LedgerOf, SendsInOrder, Blames, SlotsBelow, BodiesBelow, AttemptsBelow, LastAttemptIs, AdmissionKept, SendersKnown;
  }

  lemma ReplyAfterRelease(g: Gateway, p: Progress, attempt: nat, base: set<Slot>, account: Account, failed: seq<int>)
    requires attempt < g.maxAttempts && GaveBack(g, p, attempt, base, account)
    ensures LedgerOf(g, p.log).stuck == Some(502) ==> Left(g, Note(g, p.(failed := failed), Replied(502)), base, false)
    ensures g.w.canceled(p.log) ==> Left(g, Note(g, p, Abandoned), base, true)
  {
    hide LedgerOf, SendsInOrder, Blames, SlotsBelow, BodiesBelow, AttemptsBelow, LastAttemptIs, AdmissionKept, SendersKnown;
  }

  lemma BlameInFailed(sends: seq<Send>, failed: seq<int>, blamed: set<int>, attempt: nat, account: int)
    requires SendersKnown(sends, failed, account) && AttemptsBelow(sends, attempt)
    requires Blames(failed, blamed, account) && account in blamed
    ensures Earlier(sends, AppendUnique(failed, account), attempt) && Blames(AppendUnique(failed, account), blamed, 0)
  {
  }

  lemma FallBackEmpty(g: Gateway, p: Progress, attempt: nat, base: set<Slot>, account: Account)
    requires GaveBack(g, p, attempt, base, account) && account.id in LedgerOf(g, p.log).blamed
    ensures Resting(g, p.(failed := AppendUnique(p.failed, account.id), fallbacks := p.fallbacks + 1), attempt + 1, base)
  {
    BlameInFailed(LedgerOf(g, p.log).sends, p.failed, LedgerOf(g, p.log).blamed, attempt + 1, account.id);
  }

  lemma FallBackCarrying(g: Gateway, p: Progress, attempt: nat, base: set<Slot>, account: Account, u: Upstream)
    requires Heard(g, p, attempt, base, account, u) && u.Answer? && RetryableStatus(u.status)
    ensures var q := Note(g, p.(failed := AppendUnique(p.failed, account.id)), Released(AccountSlot(attempt)));
            Resting(g, q.(fallbacks := q.fallbacks + 1, carried := Some(u.body)), attempt + 1, base)
  {
    hide LedgerOf, SendsInOrder, Blames, SlotsBelow, BodiesBelow, AttemptsBelow, LastAttemptIs, AdmissionKept, SendersKnown, Earlier, AppendUnique;
    BlameInFailed(LedgerOf(g, p.log).sends, p.failed, LedgerOf(g, p.log).blamed, attempt + 1, account.id);
  }

  datatype Ending = Continue | Finished | RequestCanceled

  /** Where the script stands when the attempt is over. */
  function SpotAfter(p: Progress, attempt: nat, e: Ending): Spot {
    if e.Continue? then AtChoice(VarsOf(p, attempt + 1)) else AtKeyRelease(p.admission)
  }

  lemma ScriptFails(g: Gateway, p: Progress, attempt: nat, account: Account)
    requires SpotOf(g, p.log) == AtFailure(VarsOf(p, attempt), account)
    ensures var q := Note(g, p, Released(AccountSlot(attempt)));
            if g.w.canceled(q.log) then SpotOf(g, q.log + [Abandoned]) == AtKeyRelease(p.admission)
            else if attempt + 1 < g.maxAttempts
            then SpotOf(g, q.log) == AtChoice(VarsOf(q.(failed := AppendUnique(q.failed, account.id)), attempt + 1))
            else SpotOf(g, q.log + [Replied(502)]) == AtKeyRelease(p.admission)
  {
    hide SpotOf, LedgerOf, Post, AppendUnique;
    var q := Note(g, p, Released(AccountSlot(attempt)));
    SpotSnoc(g, p.log, Released(AccountSlot(attempt)));
    SpotSnoc(g, q.log, Abandoned);
    SpotSnoc(g, q.log, Replied(502));
  }

  /** An answer that may be given up: the rules decide, and so does the last attempt. */
  lemma ScriptRules(g: Gateway, p: Progress, attempt: nat, account: Account, u: Upstream)
    requires SpotHeard(g, SpotOf(g, p.log), VarsOf(p, attempt), account, u) && u.Answer? && RetryableStatus(u.status)
    ensures var pass := g.w.passThrough(p.log);
            var q := Note(g, p, RulesRead(pass));
            pass || attempt + 1 >= g.maxAttempts ==> SpotOf(g, q.log) == AtDelivery(VarsOf(q, attempt), u.body)
  {
    hide SpotOf, AppendUnique, LedgerOf, Post;
    SpotSnoc(g, p.log, RulesRead(g.w.passThrough(p.log)));
  }

  lemma ScriptFallsBack(g: Gateway, p: Progress, attempt: nat, account: Account, u: Upstream)
    requires SpotHeard(g, SpotOf(g, p.log), VarsOf(p, attempt), account, u) && u.Answer? && RetryableStatus(u.status)
    requires !g.w.passThrough(p.log) && attempt + 1 < g.maxAttempts
    ensures var q := Note(g, p, RulesRead(false)).(failed := AppendUnique(p.failed, account.id));
            var r := Note(g, q, Released(AccountSlot(attempt)));
            SpotOf(g, r.log) == SpotAfter(r.(fallbacks := r.fallbacks + 1, carried := Some(u.body)), attempt, Continue)
  {
    hide SpotOf, AppendUnique, LedgerOf, Post, Move;
    SpotSnoc(g, p.log, RulesRead(false));
    SpotSnoc(g, p.log + [RulesRead(false)], Released(AccountSlot(attempt)));
    HandoverSteps(g, p.log, p.log + [RulesRead(false)], VarsOf(p, attempt), account, u.body);
  }

  lemma HandoverSteps(g: Gateway, log: Log, ruled: Log, v: Vars, account: Account, body: nat)
    requires !g.w.passThrough(log) && v.attempt + 1 < g.maxAttempts
    ensures Move(g, log, AtRuling(v, account, body), RulesRead(false)) == AtHandover(v, account, body)
    ensures Move(g, ruled, AtHandover(v, account, body), Released(AccountSlot(v.attempt))) ==
            AtChoice(NextTry(v, account).(carried := Some(body)))
  {
    hide AppendUnique;
  }

  lemma ScriptDelivers(g: Gateway, p: Progress, attempt: nat, account: Account, u: Upstream)
    requires SpotHeard(g, SpotOf(g, p.log), VarsOf(p, attempt), account, u) && u.Answer? && !RetryableStatus(u.status)
    ensures SpotOf(g, p.log) == AtDelivery(VarsOf(p, attempt), u.body)
  {
  }

  lemma ScriptServes(g: Gateway, p: Progress, failed: seq<int>, attempt: nat, body: nat)
    requires SpotOf(g, p.log) == AtDelivery(VarsOf(p, attempt), body)
    ensures var q := ServeBody(g, p.(failed := failed), attempt, body, g.w.aggregates(p.log));
            SpotOf(g, q.log) == SpotAfter(q, attempt, Finished)
  {
    hide SpotOf, LedgerOf, Post, After, Due;
    var aggregated := g.w.aggregates(p.log);
    var v := VarsOf(p, attempt);
    var served := p.log + [Served(body, aggregated)];
    SpotSnoc(g, p.log, Served(body, aggregated));
    DeliveryStep(g, p.log, v, body);
    SpotSnoc(g, served, ClosedByWriter(body));
    CloseStep(g, served, v, body);
    var written := if aggregated then served + [ClosedByWriter(body)] else served;
    SpotSnoc(g, written, Closed(body));
    CloseStep(g, written, v, body);
    SpotSnoc(g, written + [Closed(body)], Released(AccountSlot(attempt)));
    ReleaseStep(g, written + [Closed(body)], v);
  }

  lemma DeliveryStep(g: Gateway, log: Log, v: Vars, body: nat)
    ensures var aggregated := g.w.aggregates(log);
            Move(g, log, AtDelivery(v, body), Served(body, aggregated)) == AtClose(v, body, aggregated)
  {
  }

  lemma CloseStep(g: Gateway, log: Log, v: Vars, body: nat)
    ensures Move(g, log, AtClose(v, body, true), ClosedByWriter(body)) == AtClose(v, body, false)
    ensures Move(g, log, AtClose(v, body, false), Closed(body)) == AtRelease(v)
  {
  }

  lemma ReleaseStep(g: Gateway, log: Log, v: Vars)
    ensures Move(g, log, AtRelease(v), Released(AccountSlot(v.attempt))) == AtKeyRelease(v.admission)
  {
  }

  /** Without an answer the slot goes back; then another account, a reply, or nothing when the client has gone. */
  method ConcludeFailure(g: Gateway, p0: Progress, attempt: nat, account: Account, u: Upstream, ghost base: set<Slot>)
    returns (p: Progress, e: Ending)
    requires attempt < g.maxAttempts && Heard(g, p0, attempt, base, account, u) && !u.Answer?
    requires SpotHeard(g, SpotOf(g, p0.log), VarsOf(p0, attempt), account, u)
    ensures e.Continue? ==> attempt + 1 < g.maxAttempts && Resting(g, p, attempt + 1, base)
    ensures !e.Continue? ==> Left(g, p, base, e.RequestCanceled?)
    ensures SpotOf(g, p.log) == SpotAfter(p, attempt, e)
  {
    hide Heard, Left, Resting, GaveBack, LedgerOf, Post, AppendUnique, SpotOf, Move, StuckIfLast;
    p := p0;
    var failed := AppendUnique(p.failed, account.id);
    Release(g, p, attempt, base, account, u);
    if u.RequestError? {
      ScriptReturns(g, p, VarsOf(p, attempt), 502);
      p := Note(g, p, Released(AccountSlot(attempt)));
      ReplyAfterRelease(g, p, attempt, base, account, p.failed);
      return Note(g, p, Replied(502)), Finished;
    }
    ScriptFails(g, p, attempt, account);
    p := Note(g, p, Released(AccountSlot(attempt)));
    ReplyAfterRelease(g, p, attempt, base, account, failed);
    if g.w.canceled(p.log) {
      return Note(g, p, Abandoned), RequestCanceled;
    }
    if attempt + 1 < g.maxAttempts {
      FallBackEmpty(g, p, attempt, base, account);
      return p.(failed := failed, fallbacks := p.fallbacks + 1), Continue;
    }
    assert StuckIfLast(g, attempt, 502) == Some(502) by { LastIsStuck(g, attempt); }
    return Note(g, p.(failed := failed), Replied(502)), Finished;
  }

  lemma LastIsStuck(g: Gateway, attempt: nat)
    ensures attempt + 1 == g.maxAttempts ==> StuckIfLast(g, attempt, 502) == Some(502)
  {
  }

  /** Release, fall back to another account, or serve: what follows the upstream's word. */
  method Conclude(g: Gateway, p0: Progress, attempt: nat, account: Account, u: Upstream, ghost base: set<Slot>)
    returns (p: Progress, e: Ending)
    requires attempt < g.maxAttempts && Heard(g, p0, attempt, base, account, u)
    requires SpotHeard(g, SpotOf(g, p0.log), VarsOf(p0, attempt), account, u)
    ensures e.Continue? ==> attempt + 1 < g.maxAttempts && Resting(g, p, attempt + 1, base)
    ensures !e.Continue? ==> Left(g, p, base, e.RequestCanceled?)
    ensures SpotOf(g, p.log) == SpotAfter(p, attempt, e)
  {
    hide *;
    if !u.Answer? {
      p, e := ConcludeFailure(g, p0, attempt, account, u, base);
      return;
    }
    p := p0;
    var failed := AppendUnique(p.failed, account.id);
    if RetryableStatus(u.status) {
      ReadRules(g, p, attempt, base, account, u);
      var pass := g.w.passThrough(p.log);
      ScriptRules(g, p, attempt, account, u);
      p := Note(g, p, RulesRead(pass));
      if !pass {
        if attempt + 1 < g.maxAttempts {
          FallBackCarrying(g, p, attempt, base, account, u);
          ScriptFallsBack(g, p0, attempt, account, u);
          p := Note(g, p.(failed := failed), Released(AccountSlot(attempt)));
          return p.(fallbacks := p.fallbacks + 1, carried := Some(u.body)), Continue;
        }
        ServeLeaves(g, p, attempt, base, account, u, failed);
        ScriptServes(g, p, failed, attempt, u.body);
        return ServeBody(g, p.(failed := failed), attempt, u.body, g.w.aggregates(p.log)), Finished;
      }
    } else {
      ScriptDelivers(g, p, attempt, account, u);
    }
    ServeLeaves(g, p, attempt, base, account, u, p.failed);
    ScriptServes(g, p, p.failed, attempt, u.body);
    return ServeBody(g, p, attempt, u.body, g.w.aggregates(p.log)), Finished;
  }

  /** The failover loop: it always leaves by a return, before its guard fails. */
  method RunAttempts(g: Gateway, p0: Progress, ghost base: set<Slot>) returns (p: Progress, e: Ending)
    requires 1 <= g.maxAttempts && Resting(g, p0, 0, base) && NoAccountSlots(base)
    requires SpotOf(g, p0.log) == AtChoice(VarsOf(p0, 0))
    ensures !e.Continue? && Left(g, p, base, e.RequestCanceled?) && SpotOf(g, p.log) == AtKeyRelease(p.admission)
  {
    hide Resting, Left, Trying, Heard, SpotOf, SpotHeard, NoAccountSlots;
    p := p0;
    var attempt := 0;
    while attempt < g.maxAttempts
      invariant attempt < g.maxAttempts
      invariant SpotOf(g, p.log) == AtChoice(VarsOf(p, attempt))
      invariant Resting(g, p, attempt, base)
    {
      var reservation;
      p, reservation := Reserve(g, p, attempt, base);
      match reservation {
        case GiveUp => return p, Finished;
        case TryNext =>
        case Ready(account) =>
          var u;
          p, u := SendUpstream(g, p, attempt, account, base);
          p, e := Conclude(g, p, attempt, account, u, base);
          if !e.Continue? {
            return;
          }
      }
      attempt := attempt + 1;
    }
    assert false;
  }

  // ---------- The whole request ----------

  const REQUEST_SLOTS: set<Slot> := {GatewaySlot, KeySlot}

  /**
   * What the finished log of a request promises: every action was legal, nothing is held, open or
   * owed, one answer was given unless the client had gone, and the counters bound the sends.
   */
  ghost predicate Accounted(g: Gateway, log: Log, attempts: nat, fallbacks: nat, canceled: bool) {
    var l := LedgerOf(g, log);
    && l.ok && l.held == {} && l.open == {} && l.owed == {}
    && l.reclosed == l.aggregated
    && SendsInOrder(l.sends) && |l.sends| <= attempts <= 2 * g.maxAttempts
    && (g.maxAttempts == 1 ==> |l.sends| <= 1)
    && fallbacks < g.maxAttempts
    && l.answers == (if canceled then 0 else 1) && l.over == canceled
    && (!g.budgets ==> l.admitted == [] && l.settled == [])
    && (NamesAdmissions(g.w) ==> l.settled == l.admitted && |l.admitted| <= 1)
  }

  function Settle(g: Gateway, p: Progress): Progress {
    if p.admission != "" && g.budgets then Note(g, p, Settled(p.admission)) else p
  }

  const FRESH := Progress([], [], None, "", 0, 0, false)

  lemma FirstSlot(g: Gateway)
    requires g.gatewayLimit <= 0 || g.w.gatewaySlot([])
    ensures LedgerOf(g, Note(g, FRESH, Acquired(GatewaySlot, 0, g.gatewayLimit)).log) ==
            EMPTY_LEDGER.(held := {GatewaySlot}, used := {GatewaySlot})
  {
    assert LedgerOf(g, []) == EMPTY_LEDGER;
    hide LedgerOf;
  }

  lemma BothSlots(g: Gateway, p: Progress)
    requires p.log != [] && p == FRESH.(log := p.log)
    requires LedgerOf(g, p.log) == EMPTY_LEDGER.(held := {GatewaySlot}, used := {GatewaySlot})
    requires g.keyId <= 0 || g.keyLimit <= 0 || g.w.keySlot(p.log)
    ensures Resting(g, Note(g, p, Acquired(KeySlot, g.keyId, g.keyLimit)), 0, REQUEST_SLOTS)
  {
    hide LedgerOf;
  }

  /** A request slot was refused: the request is stuck with that, and says so. */
  lemma RefusalIsFinal(g: Gateway, log: Log, l: Ledger, slot: Slot, key: int, limit: int)
    requires !slot.AccountSlot? && l.stuck.None? && l.answers == 0
    requires l.ok && slot !in l.used && SlotTerms(g, l, slot, key, limit) && !Grants(g, log, l, slot, key, limit)
    ensures var r := Refused(slot, key, limit);
            Post(g, log + [r], Post(g, log, l, r), Replied(429)) == l.(stuck := Some(429), answers := 1)
  {
    hide Grants, SlotTerms, StuckIfLast;
  }

  lemma TurnedAway(g: Gateway, log: Log)
    requires 1 <= g.maxAttempts && LedgerOf(g, log).held == {}
    requires var l := LedgerOf(g, log);
             l == EMPTY_LEDGER.(used := l.used, stuck := Some(429), answers := 1)
    ensures Accounted(g, log, 0, 0, false)
  {
    hide LedgerOf;
  }

  lemma GatewayRefused(g: Gateway)
    requires 1 <= g.maxAttempts && g.gatewayLimit > 0 && !g.w.gatewaySlot([])
    ensures Accounted(g, Note(g, Note(g, FRESH, Refused(GatewaySlot, 0, g.gatewayLimit)), Replied(429)).log, 0, 0, false)
  {
    assert LedgerOf(g, []) == EMPTY_LEDGER;
    hide LedgerOf, Post, Accounted;
    RefusalIsFinal(g, [], EMPTY_LEDGER, GatewaySlot, 0, g.gatewayLimit);
    TurnedAway(g, Note(g, Note(g, FRESH, Refused(GatewaySlot, 0, g.gatewayLimit)), Replied(429)).log);
  }

  lemma KeyRefused(g: Gateway, p: Progress)
    requires 1 <= g.maxAttempts && g.keyId > 0 && g.keyLimit > 0 && !g.w.keySlot(p.log)
    requires LedgerOf(g, p.log) == EMPTY_LEDGER.(held := {GatewaySlot}, used := {GatewaySlot})
    ensures var q := Note(g, Note(g, p, Refused(KeySlot, g.keyId, g.keyLimit)), Replied(429));
            Accounted(g, Note(g, q, Released(GatewaySlot)).log, 0, 0, false)
  {
    hide LedgerOf, Accounted;
    var l := LedgerOf(g, p.log);
    var q := Note(g, Note(g, p, Refused(KeySlot, g.keyId, g.keyLimit)), Replied(429));
    assert LedgerOf(g, q.log) == l.(stuck := Some(429), answers := 1) by {
      hide Post;
      RefusalIsFinal(g, p.log, l, KeySlot, g.keyId, g.keyLimit);
    }
    assert {GatewaySlot} - {GatewaySlot} == {};
    hide Legal;
    TurnedAway(g, Note(g, q, Released(GatewaySlot)).log);
  }

  /** Leaving before the loop, because the body was refused or the client had gone. */
  lemma LeaveBeforeLoop(g: Gateway, p: Progress)
    requires 1 <= g.maxAttempts && Resting(g, p, 0, REQUEST_SLOTS) && p.carried.None?
    ensures g.w.readBody(p.log).BodyCanceled? ==> Left(g, Note(g, p, Abandoned), REQUEST_SLOTS, true)
    ensures g.w.readBody(p.log).BodyRejected? ==>
              var status := g.w.readBody(p.log).status;
              Left(g, Note(g, Note(g, p, BodyRefused(status)), Replied(status)), REQUEST_SLOTS, false)
  {
    hide LedgerOf, SendsInOrder, Earlier, Blames, SlotsBelow, BodiesBelow, AttemptsBelow, LastAttemptIs, AdmissionKept;
  }

  lemma ReleaseRequestSlots(g: Gateway, p: Progress, canceled: bool)
    requires Left(g, p, REQUEST_SLOTS, canceled)
    ensures Left(g, Note(g, Note(g, p, Released(KeySlot)), Released(GatewaySlot)), {}, canceled)
  {
    hide LedgerOf, SendsInOrder, AdmissionKept;
    assert REQUEST_SLOTS - {KeySlot} - {GatewaySlot} == {};
  }

  lemma DeferredCalls(g: Gateway, p: Progress, canceled: bool)
    requires Left(g, p, {}, canceled)
    ensures var q := Settle(g, p); Accounted(g, q.log, q.attempts, q.fallbacks, canceled)
  {
    hide LedgerOf, SendsInOrder;
  }

  lemma ScriptOpens(g: Gateway)
    ensures if g.gatewayLimit > 0 && !g.w.gatewaySlot([])
            then SpotOf(g, [] + [Refused(GatewaySlot, 0, g.gatewayLimit)] + [Replied(429)]) == AtEnd
            else SpotOf(g, [] + [Acquired(GatewaySlot, 0, g.gatewayLimit)]) == AtKey
  {
    var refused := Refused(GatewaySlot, 0, g.gatewayLimit);
    SpotSnoc(g, [], refused);
    SpotSnoc(g, [] + [refused], Replied(429));
    SpotSnoc(g, [], Acquired(GatewaySlot, 0, g.gatewayLimit));
  }

  lemma ScriptTakesKey(g: Gateway, p: Progress)
    requires SpotOf(g, p.log) == AtKey && p == FRESH.(log := p.log)
    ensures var refused := p.log + [Refused(KeySlot, g.keyId, g.keyLimit)] + [Replied(429)];
            var taken := p.log + [Acquired(KeySlot, g.keyId, g.keyLimit)];
            if g.keyId > 0 && g.keyLimit > 0 && !g.w.keySlot(p.log) then SpotOf(g, refused + [Released(GatewaySlot)]) == AtEnd
            else
              match g.w.readBody(taken)
              case BodyReady => SpotOf(g, taken) == AtChoice(VarsOf(p, 0))
              case BodyCanceled => SpotOf(g, taken + [Abandoned]) == AtKeyRelease("")
              case BodyRejected(status) => SpotOf(g, taken + [BodyRefused(status)] + [Replied(status)]) == AtKeyRelease("")
  {
    hide SpotOf, Move;
    if g.keyId > 0 && g.keyLimit > 0 && !g.w.keySlot(p.log) {
      var refused := p.log + [Refused(KeySlot, g.keyId, g.keyLimit)];
      SpotSnoc(g, p.log, Refused(KeySlot, g.keyId, g.keyLimit));
      SpotSnoc(g, refused, Replied(429));
      SpotSnoc(g, refused + [Replied(429)], Released(GatewaySlot));
      KeyRefusedSteps(g, p.log);
    } else {
      var taken := p.log + [Acquired(KeySlot, g.keyId, g.keyLimit)];
      SpotSnoc(g, p.log, Acquired(KeySlot, g.keyId, g.keyLimit));
      SpotSnoc(g, taken, Abandoned);
      KeyTakenStep(g, p.log);
      BodyReadSteps(g, taken, if g.w.readBody(taken).BodyRejected? then g.w.readBody(taken).status else 0);
      if g.w.readBody(taken).BodyRejected? {
        var status := g.w.readBody(taken).status;
        SpotSnoc(g, taken, BodyRefused(status));
        SpotSnoc(g, taken + [BodyRefused(status)], Replied(status));
      }
    }
  }

  lemma KeyRefusedSteps(g: Gateway, log: Log)
    requires g.keyId > 0 && g.keyLimit > 0 && !g.w.keySlot(log)
    ensures Move(g, log, AtKey, Refused(KeySlot, g.keyId, g.keyLimit)) == AtReply(429, "", 1)
    ensures forall l :: Move(g, l, AtReply(429, "", 1), Replied(429)) == AtGatewayRelease("")
    ensures forall l :: Move(g, l, AtGatewayRelease(""), Released(GatewaySlot)) == AtEnd
  {
  }

  lemma KeyTakenStep(g: Gateway, log: Log)
    requires !(g.keyId > 0 && g.keyLimit > 0 && !g.w.keySlot(log))
    ensures var a := Acquired(KeySlot, g.keyId, g.keyLimit); Move(g, log, AtKey, a) == AfterKey(g, log + [a])
  {
  }

  lemma BodyReadSteps(g: Gateway, log: Log, status: int)
    ensures Move(g, log, AtAbandon(""), Abandoned) == AtKeyRelease("")
    ensures Move(g, log, AtBody(status), BodyRefused(status)) == AtReply(status, "", 2)
    ensures forall l :: Move(g, l, AtReply(status, "", 2), Replied(status)) == AtKeyRelease("")
  {
  }

  lemma ClosingSteps(g: Gateway, log: Log, admission: string)
    ensures Move(g, log, AtKeyRelease(admission), Released(KeySlot)) == AtGatewayRelease(admission)
    ensures Move(g, log, AtGatewayRelease(admission), Released(GatewaySlot)) ==
            if admission != "" && g.budgets then AtSettlement(admission) else AtEnd
    ensures Move(g, log, AtSettlement(admission), Settled(admission)) == AtEnd
  {
  }

  lemma ScriptCloses(g: Gateway, p: Progress)
    requires SpotOf(g, p.log) == AtKeyRelease(p.admission)
    ensures SpotOf(g, Settle(g, Note(g, Note(g, p, Released(KeySlot)), Released(GatewaySlot))).log) == AtEnd
  {
    hide SpotOf, LedgerOf, Post, Move;
    ClosingSteps(g, p.log, p.admission);
    ClosingSteps(g, p.log + [Released(KeySlot)], p.admission);
    ClosingSteps(g, p.log + [Released(KeySlot)] + [Released(GatewaySlot)], p.admission);
    SpotSnoc(g, p.log, Released(KeySlot));
    SpotSnoc(g, p.log + [Released(KeySlot)], Released(GatewaySlot));
    SpotSnoc(g, p.log + [Released(KeySlot)] + [Released(GatewaySlot)], Settled(p.admission));
  }

  /** One request from its first slot to its settlement. */
  method ServeRequest(g: Gateway) returns (log: Log, attempts: nat, fallbacks: nat, canceled: bool)
    requires 1 <= g.maxAttempts
    ensures Accounted(g, log, attempts, fallbacks, canceled) && SpotOf(g, log) == AtEnd
  {
    hide Left, Resting, Accounted, LedgerOf, Post, Settle, SpotOf, Move;
    var p := FRESH;
    ScriptOpens(g);
    if g.gatewayLimit > 0 && !g.w.gatewaySlot(p.log) {
      GatewayRefused(g);
      p := Note(g, Note(g, p, Refused(GatewaySlot, 0, g.gatewayLimit)), Replied(429));
      return p.log, 0, 0, false;
    }
    FirstSlot(g);
    p := Note(g, p, Acquired(GatewaySlot, 0, g.gatewayLimit));
    ScriptTakesKey(g, p);
    if g.keyId > 0 && g.keyLimit > 0 && !g.w.keySlot(p.log) {
      KeyRefused(g, p);
      p := Note(g, Note(g, p, Refused(KeySlot, g.keyId, g.keyLimit)), Replied(429));
      return Note(g, p, Released(GatewaySlot)).log, 0, 0, false;
    }
    BothSlots(g, p);
    p := Note(g, p, Acquired(KeySlot, g.keyId, g.keyLimit));
    var body := g.w.readBody(p.log);
    LeaveBeforeLoop(g, p);
    match body {
      case BodyCanceled =>
        p := Note(g, p, Abandoned);
        canceled := true;
      case BodyRejected(status) =>
        p := Note(g, Note(g, p, BodyRefused(status)), Replied(status));
        canceled := false;
      case BodyReady =>
        var ending;
        p, ending := RunAttempts(g, p, REQUEST_SLOTS);
        canceled := ending.RequestCanceled?;
    }
    ReleaseRequestSlots(g, p, canceled);
    ScriptCloses(g, p);
    p := Note(g, Note(g, p, Released(KeySlot)), Released(GatewaySlot));
    DeferredCalls(g, p, canceled);
    p := Settle(g, p);
    return p.log, p.attempts, p.fallbacks, canceled;
  }

  // ---------- What a ledger says about its log ----------

  function Count(log: Log, p: Action -> bool): nat {
    if log == [] then 0 else Count(log[..|log| - 1], p) + if p(log[|log| - 1]) then 1 else 0
  }

  function Acquires(log: Log, s: Slot): nat {
    Count(log, (a: Action) => a.Acquired? && a.slot == s)
  }

  function Releases(log: Log, s: Slot): nat {
    Count(log, (a: Action) => a.Released? && a.slot == s)
  }

  function Receipts(log: Log, b: nat): nat {
    Count(log, (a: Action) => a.Sent? && a.response.Response? && a.response.body == b)
  }

  function Closes(log: Log, b: nat): nat {
    Count(log, (a: Action) => a == Closed(b))
  }

  function WriterCloses(log: Log, b: nat): nat {
    Count(log, (a: Action) => a == ClosedByWriter(b))
  }

  function SendsIn(log: Log, attempt: nat): nat {
    Count(log, (a: Action) => a.Sent? && a.attempt == attempt)
  }

  lemma LegalResourceActions(g: Gateway, log: Log, l: Ledger, a: Action)
    requires Legal(g, log, l, a)
    ensures (a.Acquired? ==> a.slot !in l.used) && (a.Released? ==> a.slot in l.held)
    ensures a.Closed? ==> a.body in l.open
    ensures a.ClosedByWriter? ==> a.body in l.open && a.body !in l.reclosed
    ensures a.Sent? && a.response.Response? ==> a.response.body !in l.seen
  {
    hide Grants, SlotTerms, MayRefresh;
  }

  lemma SlotStep(g: Gateway, log: Log, l: Ledger, a: Action, s: Slot)
    requires Post(g, log, l, a).ok
    ensures var l' := Post(g, log, l, a);
            var acquired, released := a.Acquired? && a.slot == s, a.Released? && a.slot == s;
            && l.ok && (acquired ==> s !in l.used) && (released ==> s in l.held)
            && (s in l'.used <==> s in l.used || acquired)
            && (s in l'.held <==> (s in l.held && !released) || acquired)
  {
    hide Booked, Legal, StuckIfLast, RetryableStatus;
    LegalResourceActions(g, log, l, a);
  }

  lemma {:induction false} LedgerCountsSlots(g: Gateway, log: Log, s: Slot)
    requires LedgerOf(g, log).ok
    ensures var l := LedgerOf(g, log);
            && Acquires(log, s) == (if s in l.used then 1 else 0)
            && Acquires(log, s) == Releases(log, s) + (if s in l.held then 1 else 0)
            && (s in l.held ==> s in l.used)
  {
    hide Post;
    if log != [] {
      var init := log[..|log| - 1];
      SlotStep(g, init, LedgerOf(g, init), log[|log| - 1], s);
      LedgerCountsSlots(g, init, s);
    }
  }

  lemma BodyStep(g: Gateway, log: Log, l: Ledger, a: Action, b: nat)
    requires Post(g, log, l, a).ok
    ensures var l' := Post(g, log, l, a);
            var received, closed := a.Sent? && a.response.Response? && a.response.body == b, a == Closed(b);
            && l.ok && (received ==> b !in l.seen) && (closed ==> b in l.open)
            && (b in l'.seen <==> b in l.seen || received)
            && (b in l'.open <==> (b in l.open && !closed) || received)
            && (a == ClosedByWriter(b) ==> b in l.open && b !in l.reclosed)
            && (b in l'.reclosed <==> b in l.reclosed || a == ClosedByWriter(b))
  {
    hide Booked, Legal, StuckIfLast, RetryableStatus;
    LegalResourceActions(g, log, l, a);
  }

  lemma {:induction false} LedgerCountsBodies(g: Gateway, log: Log, b: nat)
    requires LedgerOf(g, log).ok
    ensures var l := LedgerOf(g, log);
            && Receipts(log, b) == (if b in l.seen then 1 else 0)
            && Receipts(log, b) == Closes(log, b) + (if b in l.open then 1 else 0)
            && (b in l.open ==> b in l.seen)
            && WriterCloses(log, b) == (if b in l.reclosed then 1 else 0)
            && (b in l.reclosed ==> b in l.seen)
  {
    hide Post;
    if log != [] {
      var init := log[..|log| - 1];
      BodyStep(g, init, LedgerOf(g, init), log[|log| - 1], b);
      LedgerCountsBodies(g, init, b);
    }
  }

  /** Every slot a finished request took was released exactly once. */
  lemma SlotsReleasedOnce(g: Gateway, log: Log, attempts: nat, fallbacks: nat, canceled: bool, s: Slot)
    requires Accounted(g, log, attempts, fallbacks, canceled)
    ensures Releases(log, s) == Acquires(log, s) <= 1
  {
    LedgerCountsSlots(g, log, s);
  }

  lemma AggregatedStep(g: Gateway, log: Log, l: Ledger, a: Action)
    ensures Post(g, log, l, a).aggregated == if a.Served? && a.aggregated then l.aggregated + {a.body} else l.aggregated
  {
    hide Booked, Legal, StuckIfLast, RetryableStatus;
  }

  /** A body was aggregated exactly when the log says that the aggregating writer served it. */
  lemma {:induction false} LedgerKnowsAggregated(g: Gateway, log: Log, b: nat)
    ensures b in LedgerOf(g, log).aggregated <==> Served(b, true) in log
  {
    hide Post;
    if log != [] {
      var init, last := log[..|log| - 1], log[|log| - 1];
      AggregatedStep(g, init, LedgerOf(g, init), last);
      LedgerKnowsAggregated(g, init, b);
      assert log == init + [last];
    }
  }

  /**
   * The loop closes every body it received exactly once.  Over all closes, a body is closed once exactly when it
   * was not served through the aggregating writer, which closes it as well.
   */
  lemma BodiesClosedOnce(g: Gateway, log: Log, attempts: nat, fallbacks: nat, canceled: bool, b: nat)
    requires Accounted(g, log, attempts, fallbacks, canceled)
    ensures Closes(log, b) == Receipts(log, b) <= 1
    ensures Receipts(log, b) == 1 ==> (Closes(log, b) + WriterCloses(log, b) == 1 <==> Served(b, true) !in log)
    ensures WriterCloses(log, b) <= 1
  {
    hide SendsInOrder;
    LedgerCountsBodies(g, log, b);
    LedgerKnowsAggregated(g, log, b);
  }

  lemma {:induction false} PrefixOk(g: Gateway, log: Log, i: nat)
    requires LedgerOf(g, log).ok && i <= |log|
    ensures LedgerOf(g, log[..i]).ok
    decreases |log| - i
  {
    if i < |log| {
      PrefixOk(g, log[..|log| - 1], i);
      assert log[..|log| - 1][..i] == log[..i];
    } else {
      assert log[..i] == log;
    }
  }

  /** Every action of the log was legal when it was taken. */
  lemma {:induction false} EveryActionLegal(g: Gateway, log: Log, i: nat)
    requires LedgerOf(g, log).ok && i < |log|
    ensures Legal(g, log[..i], LedgerOf(g, log[..i]), log[i])
  {
    PrefixOk(g, log, i + 1);
    assert log[..i + 1][..i] == log[..i] && log[..i + 1][i] == log[i];
  }

  /** With budgets configured, every send comes after a granted admission. */
  lemma {:induction false} NoSendBeforeAdmission(g: Gateway, log: Log, attempts: nat, fallbacks: nat, canceled: bool, i: nat)
    requires Accounted(g, log, attempts, fallbacks, canceled) && g.budgets && i < |log| && log[i].Sent?
    ensures exists j :: 0 <= j < i && log[j].Admitted?
  {
    EveryActionLegal(g, log, i);
    AdmittedBefore(g, log[..i]);
  }

  lemma {:induction false} AdmittedBefore(g: Gateway, log: Log)
    requires LedgerOf(g, log).admitted != []
    ensures exists j :: 0 <= j < |log| && log[j].Admitted?
  {
    hide Post;
    var last := |log| - 1;
    if !log[last].Admitted? {
      SendStep(g, log[..last], LedgerOf(g, log[..last]), log[last]);
      AdmittedBefore(g, log[..last]);
      var j :| 0 <= j < last && log[..last][j].Admitted?;
      assert log[j].Admitted?;
    }
  }

  lemma SendStep(g: Gateway, log: Log, l: Ledger, a: Action)
    ensures var l' := Post(g, log, l, a);
            && (!a.Admitted? ==> l'.admitted == l.admitted)
            && l'.sends == if a.Sent? then l.sends + [Send(a.attempt, a.sender)] else l.sends
  {
    hide Booked, Legal, StuckIfLast, RetryableStatus;
  }

  lemma OwedStep(g: Gateway, log: Log, l: Ledger, a: Action)
    ensures Post(g, log, l, a).owed ==
            if a.Sent? && a.response.Response? && !RetryableStatus(a.response.status) then l.owed + {a.response.body}
            else if a.Served? then l.owed - {a.body}
            else l.owed
  {
    hide Booked, Legal, StuckIfLast, RetryableStatus;
  }

  lemma DebtStep(g: Gateway, log: Log, l: Ledger, a: Action, b: nat)
    ensures var l' := Post(g, log, l, a);
            && (b in l.owed && !(a.Served? && a.body == b) ==> b in l'.owed)
            && (a.Sent? && a.response.Response? && a.response.body == b && !RetryableStatus(a.response.status) ==> b in l'.owed)
  {
    hide Post, RetryableStatus;
    OwedStep(g, log, l, a);
  }

  /** An answer that is not worth another attempt is always passed on to the client. */
  lemma {:induction false} FinalAnswersServed(g: Gateway, log: Log, attempts: nat, fallbacks: nat, canceled: bool, i: nat)
    requires Accounted(g, log, attempts, fallbacks, canceled) && i < |log|
    requires log[i].Sent? && log[i].response.Response? && !RetryableStatus(log[i].response.status)
    ensures exists j :: i < j < |log| && log[j].Served? && log[j].body == log[i].response.body
  {
    OwedUntilServed(g, log, i, log[i].response.body);
  }

  lemma {:induction false} OwedUntilServed(g: Gateway, log: Log, i: nat, b: nat)
    requires i < |log| && log[i].Sent? && log[i].response.Response? && log[i].response.body == b
    requires !RetryableStatus(log[i].response.status) && b !in LedgerOf(g, log).owed
    ensures exists j :: i < j < |log| && log[j].Served? && log[j].body == b
  {
    hide Post;
    var last := |log| - 1;
    DebtStep(g, log[..last], LedgerOf(g, log[..last]), log[last], b);
    if !(log[last].Served? && log[last].body == b) {
      OwedUntilServed(g, log[..last], i, b);
      var j :| i < j < last && log[..last][j].Served? && log[..last][j].body == b;
      assert log[j].Served? && log[j].body == b;
    }
  }

  /** The sends of the ledger are those of the log, so no attempt sends more than twice. */
  lemma {:induction false} AtMostTwoSends(g: Gateway, log: Log, attempts: nat, fallbacks: nat, canceled: bool, attempt: nat)
    requires Accounted(g, log, attempts, fallbacks, canceled)
    ensures SendsIn(log, attempt) <= 2
  {
    LedgerCountsSends(g, log, attempt);
    FewInOrder(LedgerOf(g, log).sends, attempt);
  }

  function Occurrences(sends: seq<Send>, attempt: nat): nat {
    if sends == [] then 0
    else Occurrences(sends[..|sends| - 1], attempt) + if sends[|sends| - 1].attempt == attempt then 1 else 0
  }

  lemma {:induction false} LedgerCountsSends(g: Gateway, log: Log, attempt: nat)
    ensures SendsIn(log, attempt) == Occurrences(LedgerOf(g, log).sends, attempt)
  {
    hide Post;
    if log != [] {
      var init := log[..|log| - 1];
      var before := LedgerOf(g, init).sends;
      SendStep(g, init, LedgerOf(g, init), log[|log| - 1]);
      LedgerCountsSends(g, init, attempt);
      if log[|log| - 1].Sent? {
        assert LedgerOf(g, log).sends[..|before|] == before;
      }
    }
  }

  lemma {:induction false} NoneInOrder(sends: seq<Send>, attempt: nat)
    requires forall i :: 0 <= i < |sends| ==> sends[i].attempt != attempt
    ensures Occurrences(sends, attempt) == 0
  {
    if sends != [] {
      NoneInOrder(sends[..|sends| - 1], attempt);
    }
  }

  lemma {:induction false} FewInOrder(sends: seq<Send>, attempt: nat)
    requires SendsInOrder(sends)
    ensures Occurrences(sends, attempt) <= 2
  {
    var n := |sends|;
    if n >= 2 && sends[n - 1].attempt == attempt {
      assert sends[..n - 1][..n - 2] == sends[..n - 2];
      NoneInOrder(sends[..n - 2], attempt);
    } else if n >= 2 {
      FewInOrder(sends[..n - 1], attempt);
    } else if n == 1 {
      assert sends[..0] == [];
    }
  }
}
