/**
 * A gateway request and its surroundings: what it does or is told is recorded in a log, and each answer of the
 * outside is a function of the log so far, so every behaviour of the outside is covered.
 */
module GatewayWorld {
  import opened Options

  datatype Slot = GatewaySlot | KeySlot | AccountSlot(attempt: nat)

  datatype Account = Account(id: int, limit: int, refreshable: bool)

  /** Outcome of one upstream send; the body of an answer is numbered. */
  datatype Response = NoResponse | Response(status: int, body: nat)

  datatype AdmitError = RequestBudget | TokenBudget | CostBudget | Initializing | OtherAdmitError

  datatype Action =
    | Acquired(slot: Slot, key: int, limit: int)
    | Refused(slot: Slot, key: int, limit: int)
    | Released(slot: Slot)
    | BodyRefused(status: int)
    | Selected(account: Account)
    | NotSelected
    | Admitted(id: string)
    | AdmissionDenied(id: string, err: AdmitError)
    | Settled(id: string)
    | UsageRecorded(success: bool)
    | RequestUnbuilt
    | ClientMissing(attempt: nat)
    | Sent(attempt: nat, sender: int, response: Response)
    | RulesRead(pass: bool)
    | Refreshed(again: bool)
    | Closed(body: nat)
    | ClosedByWriter(body: nat)
    | Replied(status: int)
    | Served(body: nat, aggregated: bool)
    | Abandoned

  type Log = seq<Action>

  // ---------- The outside ----------

  datatype Selection = Chosen(account: Account) | AccountsUnavailable | AffinityUnknown | AffinityUnavailable | OtherSelectionError

  datatype Admission = Granted(id: string) | Denied(id: string, err: AdmitError)

  datatype Refresh = Refresh(token: string, retry: bool, failed: bool)

  datatype BodyRead = BodyReady | BodyCanceled | BodyRejected(status: int)

  datatype World = World(
    gatewaySlot: Log -> bool,
    keySlot: Log -> bool,
    readBody: Log -> BodyRead,
    select: Log -> Selection,
    accountSlot: Log -> bool,
    admit: Log -> Admission,
    recordUsed: Log -> bool,
    buildRequest: Log -> bool,
    client: Log -> bool,
    send: Log -> (bool, int),
    passThrough: Log -> bool,
    refresh: Log -> Refresh,
    canceled: Log -> bool,
    aggregates: Log -> bool)

  datatype Gateway = Gateway(
    w: World, keyId: int, budgets: bool, gatewayLimit: int, keyLimit: int, accountLimit: int, maxAttempts: nat)

  const MAX_REPLAYABLE_ATTEMPTS: nat := 5

  function MaxAttempts(bodyBytes: nat, maxReplayBytes: nat, affinity: bool): (n: nat)
    ensures 1 <= n <= MAX_REPLAYABLE_ATTEMPTS
    ensures n == 1 <==> affinity || bodyBytes > maxReplayBytes
  {
    if affinity || bodyBytes > maxReplayBytes then 1 else MAX_REPLAYABLE_ATTEMPTS
  }

  predicate RetryableStatus(status: int) {
    status == 401 || status == 403 || status == 429 || status >= 500
  }

  predicate AuthorizationFailure(status: int) {
    status == 401 || status == 403
  }

  function AppendUnique(values: seq<int>, value: int): seq<int> {
    if value == 0 || value in values then values else values + [value]
  }

  function EffectiveLimit(own: int, default: int): int {
    if own > 0 then own else default
  }

  function SelectionStatus(s: Selection, limited: bool): int {
    if limited && s.AccountsUnavailable? then 429
    else if s.AffinityUnknown? then 409
    else 503
  }

  function AdmitStatus(e: AdmitError): int {
    match e
    case Initializing => 503
    case OtherAdmitError => 500
    case _ => 429
  }
}
