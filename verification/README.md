# N2API: a verified model of its gateway, alerting and throttling core

N2API is a gateway in front of AI providers. This project models the parts of it that are state machines:

- **Failover** (`GatewayWorld.dfy`, `Failover.dfy`, `GatewayScript.dfy`, `GatewayLogs.dfy`, `DoubleClose.dfy`, `Limiters.dfy`,
  `Interleaving.dfy`): one request with its slots, the account failover loop, the authorization retry inside it, the
  budget admission and the deferred releases. Its log is proved to be the one log the surroundings call for, and
  `GatewayLogs` says of that log what follows each action. Then any number of requests interleaved over the shared
  concurrency limiters.
- **Event streams** (`SseReaders.dfy`, `SseFormat.dfy`, `SseParsing.dfy`, `SseReference.dfy`, `SseEvents.dfy`, `SseLimits.dfy`,
  `SseRoundTrip.dfy`, `UsageObserver.dfy`, `UsageHistory.dfy`, `OAuthConsumers.dfy`, `OAuthMeaning.dfy`): the parser with its three limits on top of a
  limited, buffered reader, the usage observer with its own splitter, and the two consumers of OAuth streams. The
  format is that of sections 9.2.5 and 9.2.6 of the WHATWG HTML Living Standard, with the source's deviations:
  a lone CR does not end a line, events without data are dispatched, and EOF inside an event is an error.
- **Alerting** (`AlertKeys.dfy`, `AlertMatching.dfy`, `AlertHistory.dfy`, `AlertDispatch.dfy`, `AlertIntake.dfy`,
  `AlertShutdown.dfy`, `AlertDelivery.dfy`): rule state machines over unbounded runs, and the dispatcher with its concurrent
  shutdown as steps of its goroutines.
- **Throttles and caches** (`LoginThrottling.dfy`, `LoginRuns.dfy`, `LoginHistory.dfy`, `LoginOrder.dfy`, `RevealThrottling.dfy`,
  `RevealHistory.dfy`, `TransportPool.dfy`, `TransportRuns.dfy`): maps that must agree with LRU lists.
  `SettingsSnapshot.dfy`, `SettingsHistory.dfy`: the versioned settings snapshot.
- **Helpers**: `Options.dfy`, `Bytes.dfy`, `Doubling.dfy`, `Lists.dfy`.

The files named after a history say what a state holds from the calls or bytes alone, without the functions the
operations are specified by, and prove it of every run.

`dafny verify dfyconfig.toml` checks everything.

## How the outside is modelled

Times are integers from the zero time on. A mutex region is one atomic step. The clock is a parameter of each call; a clock that does
not run backwards is a stated condition where it matters. In `Failover` every answer of the outside (limiters,
selection, budgets, upstream, refresh, pass-through rules, cancellation) is a function of the log of everything the
request did so far, so every behaviour of the outside is covered. JSON decoding, white-space trimming, hashing and
the system-event vocabulary are uninterpreted functions of their inputs. Which element a Go map yields first is left
open.

## Results worth knowing

- **Two closes of one body.** The loop closes every response body once. The aggregating writer closes its body as
  well, so over the whole request a body is closed once exactly when it was not served through that writer
  (`Failover.BodiesClosedOnce`); `DoubleClose.BodyClosedTwice` is a request in which it was.
- **Copying and aggregating can disagree.** On a read error that is not EOF the streaming copy reports the error even
  after a completed event; they agree exactly under the condition of `OAuthConsumers.CopyAgreesWithAggregate`.
- **Data limit.** `ErrSSEDataTooLarge` can occur exactly when the smallest event that holds one byte more than the data
  limit, in lines within the line limit, is within the event limit (`SseLimits.DataTooLargeReachable`). Write L and D for
  the line and the data limit, and S for D + 2. For L of at least seven that event has S bytes, four more for every full
  L - 5 in S, and three more if one is left over or four more if several are; for L >= D + 7 that is D + 6 in all. For L
  of five or six it has 4 S bytes, and shorter lines hold no data. The two production parsers never report it.
- **Alert aggregation.** Twice the count less two matches within one window always notify, one less may not.
- **Reveal throttle.** At most twice the limit less one pass in a half-open window span, and that many can.
- **Settings version.** Applying an initial load skips the version check, so it can replace a newer published version;
  nothing else can (`SettingsSnapshot.VersionDropsExactly`). A refresh that finds other settings under the version served
  takes them over silently (`SettingsSnapshot.SettingsSwapExactly`); a published write that does so is refused.
- **Retry delay.** It equals the doubled delay capped at the maximum except exactly where the doubled delay is one
  nanosecond short of the maximum (`AlertDelivery.RetryDelay`).
- **Login throttle.** Every entry has a failure or a reservation, so making room never evicts anything. An attempt is
  allowed exactly by the failures since the last success or expiry, their block, the attempts under way and the room in
  the table (`LoginHistory.AttemptIsDecided`).

## Model

| member | source | states |
|---|---|---|
| `Failover.ServeRequest` | backend/internal/gateway/proxy.go:589-956 | for every behaviour of the outside the finished log is the one log it calls for; it is legal action by action, nothing is held, open or owed, one answer was given unless the client had gone, sends are bounded by the attempt count and fallbacks stay below the maximum |
| `Failover.RunAttempts` | backend/internal/gateway/proxy.go:662-955 | the loop is always left by an explicit return within its attempts, with every account slot released and every body closed |
| `Failover.Reserve` | backend/internal/gateway/proxy.go:665-719 | a failed selection, a blamed account or a reserved one leave exactly the resources each exit promises |
| `Failover.ReserveSlot` | backend/internal/gateway/proxy.go:720-737 | a refused slot blames the account and goes on, or ends the request with 429 on the last attempt |
| `Failover.Admit` | backend/internal/gateway/proxy.go:738-774 | at most one admission is made, and a denied one or a failed usage record gives the slot back before replying |
| `Failover.SendUpstream` | backend/internal/gateway/proxy.go:782-864 | the log goes on as the outside calls for: one send, or on a refreshed authorization the first response closed and a second send; the refresh, what it decides and every other branch are pinned by `GatewayLogs.RefreshIsTried` |
| `Failover.RefreshAuthorization` | backend/internal/gateway/proxy.go:833-863 | after a first answer of 401 or 403: served on a rule or a refresh that does not work, and otherwise closed and ready for a second send |
| `Failover.Conclude` | backend/internal/gateway/proxy.go:865-955 | serving, falling back with the response carried over, replying and abandoning each release the slot and account for the body |
| `GatewayWorld.MaxAttempts` | backend/internal/gateway/proxy.go:2041-2044 | between one and five attempts, and one when the account is fixed or the body cannot be replayed |
| `Failover.SlotsReleasedOnce` | backend/internal/gateway/proxy.go:589-605 | every slot of a finished request was released exactly as often as it was acquired, at most once |
| `Failover.BodiesClosedOnce` | backend/internal/gateway/proxy.go:661-933 | the loop closes every received body exactly once; over all closes, a body is closed once if and only if the log has no serving of it by the aggregating writer |
| `DoubleClose.BodyClosedTwice` | backend/internal/gateway/oauth_responses.go:46 | a complete request, answered 200 and aggregated, whose one body is closed by the loop and by the writer |
| `Failover.EveryActionLegal` | backend/internal/gateway/proxy.go:662-955 | every single action of a request was allowed by the protocol where it happened |
| `Failover.NoSendBeforeAdmission` | backend/internal/gateway/proxy.go:738-810 | with budgets configured, an admission precedes every send |
| `Failover.FinalAnswersServed` | backend/internal/gateway/proxy.go:886-954 | an answer that is not worth another attempt is always passed on to the client |
| `Failover.AtMostTwoSends` | backend/internal/gateway/proxy.go:789-864 | no attempt sends more than twice |
| `GatewayLogs.OnlyOneLog` | backend/internal/gateway/proxy.go:589-956 | the surroundings leave a request only one finished log |
| `GatewayLogs.RefreshIsTried` | backend/internal/gateway/proxy.go:826-864 | a first answer of 401 or 403, unless one attempt is all there is, is checked against the rules; if none passes it the authorization is refreshed, again exactly if account and answer say so; then the body is closed and the same attempt sends again, or fails to build or find its client |
| `GatewayLogs.AnswerFate` | backend/internal/gateway/proxy.go:886-954 | an answer other than 401, 403, 429 or at least 500 is served at once; any other is put to the rules, after the refresh where there is one, and served, or its slot released and the next account tried |
| `GatewayLogs.ServedEarly` | backend/internal/gateway/proxy.go:888-925 | a retryable answer is served before the last attempt if and only if a rule passes it |
| `GatewayLogs.NoAnswerFate` | backend/internal/gateway/proxy.go:865-884 | without an answer the slot is released, and then the request is abandoned if canceled, answered 502 on the last attempt, and otherwise another account chosen |
| `GatewayLogs.UnbuiltFate` | backend/internal/gateway/proxy.go:793-801 | a request that cannot be built releases the slot and answers 502 |
| `GatewayLogs.MissFate` | backend/internal/gateway/proxy.go:670-704 | no account: a carried body is closed and the answer is 429 after a refused slot if accounts are unavailable, 409 if the affinity is unknown, and else 503 |
| `GatewayLogs.PickFate` | backend/internal/gateway/proxy.go:709-737 | an account: a carried body is closed; one tried before ends the request with 502, any other is asked for a slot under the limit in effect |
| `GatewayLogs.RefusalFate` | backend/internal/gateway/proxy.go:721-737 | a refused account slot leads to another choice, or to 429 on the last attempt |
| `GatewayLogs.SlotFate` | backend/internal/gateway/proxy.go:738-766 | with the slot in hand the budget is asked unless it granted before, and then the use is recorded |
| `GatewayLogs.DenialFate` | backend/internal/gateway/proxy.go:740-765 | a denied admission releases the slot and answers 503 while the budget is set up, 500 if it failed, and 429 if it is used up |
| `GatewayLogs.UseFate` | backend/internal/gateway/proxy.go:767-816 | a recorded use leads to the send; one that cannot be recorded releases the slot and answers 500 |
| `GatewayLogs.Opening` | backend/internal/gateway/proxy.go:589-641 | the first actions: either request slot refused answers 429, a body that cannot be read ends the request, and otherwise an account is chosen |
| `Limiters.KeyedLimiter.Acquire` | backend/internal/gateway/proxy.go:1333-1343 | an acquisition with an id and a limit succeeds exactly below the limit and is then counted; others pass uncounted |
| `Limiters.KeyedLimiter.Release` | backend/internal/gateway/proxy.go:1344-1351 | one count less, and no entry left at zero |
| `Limiters.KeyedLimiter.Snapshot` | backend/internal/gateway/proxy.go:1354-1366 | exactly the positive counts |
| `Interleaving.LimitersCountHolders` | backend/internal/gateway/proxy.go:1298-1410 | in every interleaving of requests each count equals the number of slots held under it, and is absent at zero |
| `Interleaving.HoldersWithinLimit` | backend/internal/gateway/proxy.go:1333-1343 | holders never exceed the largest limit the count was acquired under |
| `Interleaving.RefusedOnlyWhenFull` | backend/internal/gateway/proxy.go:721-737 | a request is refused only while as many slots as its limit are held |
| `Interleaving.LimitersEndIdle` | backend/internal/gateway/proxy.go:1344-1351 | when all requests have finished every limiter is empty again |
| `Interleaving.HeldByLog` | backend/internal/gateway/proxy.go:1298-1410 | a request holds a slot under a limiter if and only if its log took it with a limit, and an id where the limiter goes by id, and did not give it back since |
| `Interleaving.AcquiredOnlyBelowLimit` | backend/internal/gateway/proxy.go:1298-1410 | a limited slot is acquired only while fewer than the limit are held |
| `SseReaders.BoundedReader.Read` | backend/internal/gateway/oauth_responses.go:228-247 | whatever the read sizes, the consumer sees the body cut one byte after the limit with the size error, or the whole body |
| `SseReaders.BufferedReader.ReadSlice` | backend/internal/gateway/sse_parser.go:140-161 | slices end at a line feed, at a full buffer or at the end, and lose nothing |
| `SseRoundTrip.ReadField` | backend/internal/gateway/sse_parser.go:211-230 | a field line written as name, colon, space, value is trimmed and split back into that name and value, losing a final CR of the value and nothing else |
| `SseFormat.SummarizeSnoc` | backend/internal/gateway/sse_parser.go:117-136 | the running builders, counters and limit checks are those of the group of lines so far |
| `SseParsing.SseParser.ReadLine` | backend/internal/gateway/sse_parser.go:140-161 | the next physical line of the stream, whatever the refills |
| `SseParsing.SseParser.AccountEventLine` | backend/internal/gateway/sse_parser.go:163-169 | adds the line unless the event limit would be passed |
| `SseParsing.SseParser.AppendData` | backend/internal/gateway/sse_parser.go:171-186 | appends with a separating line feed unless the data limit would be passed |
| `SseParsing.SseParser.Next` | backend/internal/gateway/sse_parser.go:90-138 | the next event or error of the remaining stream |
| `SseParsing.Drain` | backend/internal/gateway/sse_parser.go:90-138 | repeated calls yield exactly the events and the error of the whole stream |
| `SseParsing.ParseBody` | backend/internal/gateway/oauth_responses.go:52-70 | the result depends on the bytes, the end and the limits only, not on chunks, read sizes or buffer |
| `SseReference.ParseIsMeaning` | backend/internal/gateway/sse_parser.go:90-230 | parsing equals a definition by line numbers: split at LF, strip a CR, group at blank lines, stop at the first line that breaks a limit |
| `SseReference.CutExists` | backend/internal/gateway/sse_parser.go:140-186 | every stream has exactly one such stopping line |
| `SseReference.RawLinesRebuild` | backend/internal/gateway/sse_parser.go:140-161 | the lines and the remainder are the stream, cut at its line feeds and nowhere else |
| `SseEvents.LineEnding` | backend/internal/gateway/sse_parser.go:211-219 | a line loses its line feed and one carriage return before it and nothing else, and is blank if and only if it has nothing more |
| `SseEvents.FieldParts` | backend/internal/gateway/sse_parser.go:221-230 | the field is what precedes the first colon, and the value what follows it and one space |
| `SseEvents.FieldPartsUnique` | backend/internal/gateway/sse_parser.go:221-230 | no line can be taken apart in two ways |
| `SseEvents.LastNameCounts` | backend/internal/gateway/sse_parser.go:117-136 | an event has the name of its last event line |
| `SseEvents.Unnamed` | backend/internal/gateway/sse_parser.go:117-136 | an event without an event line has no name |
| `SseEvents.ValuesInOrder` | backend/internal/gateway/sse_parser.go:171-186 | the values of an event are those of its data lines, each in its place |
| `SseEvents.EventData` | backend/internal/gateway/sse_parser.go:171-186 | the data cut at its line feeds are those values, and an event has data if and only if it has a data line |
| `SseEvents.SizeOfEvent` | backend/internal/gateway/sse_parser.go:163-169 | what counts against the event limit are the bytes of its lines without their endings |
| `SseLimits.DataBelowEvent` | backend/internal/gateway/sse_parser.go:163-186 | joined data is at least five bytes shorter than the accounted event |
| `SseLimits.GroupCost` | backend/internal/gateway/sse_parser.go:163-186 | a data line with a value costs four bytes more than it adds to the joined data, a bare one three more, and neither adds more than its line allows |
| `SseLimits.OverheadIsLeast` | backend/internal/gateway/sse_parser.go:163-186 | no mix of such lines covers a length of data for less than the stated extra cost |
| `SseLimits.OverheadInLines` | backend/internal/gateway/sse_parser.go:163-186 | that extra cost in closed form |
| `SseLimits.OversizedIsReported` | backend/internal/gateway/sse_parser.go:171-186 | a stream of exactly the least size is refused for its data |
| `SseLimits.DataTooLargeReachable` | backend/internal/gateway/sse_parser.go:171-186 | for all positive limits, some stream reports oversized data if and only if lines can hold data and the least oversized event is within the event limit |
| `SseLimits.LongLinesNeedSix` | backend/internal/gateway/sse_parser.go:171-186 | with lines long enough for all the data, that means an event limit at least six bytes above the data limit |
| `SseLimits.ConsumersNeverDataTooLarge` | backend/internal/gateway/oauth_responses.go:64-68 | no stream makes a production parser report oversized data, whatever the body limit |
| `SseLimits.MinPositive` | backend/internal/gateway/oauth_responses.go:187-195 | one of the two bounds, and below each of them that is positive |
| `SseRoundTrip.RoundTrip` | backend/cmd/mock-openai/main.go:617-620 | a printed list of events is parsed back exactly if and only if every value is free of LF and of a final CR and fits the limits |
| `SseRoundTrip.ReadBackIsPrintable` | backend/cmd/mock-openai/main.go:617-620 | one printed event comes back unchanged if and only if it is printable |
| `UsageObserver.DelimiterStable` | backend/internal/gateway/usage.go:97-107 | the first delimiter found in a prefix stays first when bytes follow |
| `UsageObserver.FoldAppend` | backend/internal/gateway/usage.go:81-95 | folding a prefix and its leftover with the rest later is folding everything |
| `UsageObserver.SseUsageObserver.Observe` | backend/internal/gateway/usage.go:81-95 | one chunk takes the observer from the fold of its buffer to the fold with the chunk |
| `UsageObserver.SseUsageObserver.ObserveEvent` | backend/internal/gateway/usage.go:123-150 | one event is folded into the totals line by line |
| `UsageObserver.ObserveAll` | backend/internal/gateway/usage.go:81-95 | totals and leftover of any chunking equal one fold over the whole stream |
| `UsageObserver.FoldSplitsStream` | backend/internal/gateway/usage.go:81-107 | the fold visits the events of a split that loses no byte, and the leftover holds no delimiter |
| `UsageObserver.BlocksAreLeftmost` | backend/internal/gateway/usage.go:81-107 | the events and the leftover of the fold are a split at the leftmost delimiters: none begins in a block before the block's own |
| `UsageObserver.SplitIsUnique` | backend/internal/gateway/usage.go:81-107 | every stream has only one such split |
| `UsageHistory.LinesAreSplit` | backend/internal/gateway/usage.go:126-127 | the lines of an event hold no line feed and are the event again with line feeds between them |
| `UsageHistory.NameIsLast` | backend/internal/gateway/usage.go:124-131 | the name of an event is what its last `event:` line gives, and empty without one |
| `UsageHistory.LastFindingWins` | backend/internal/gateway/usage.go:81-150 | after any stream the observer holds the usage, and the response id, of the last line of the last event that tells it, or none if no line does |
| `OAuthConsumers.Aggregate` | backend/internal/gateway/oauth_responses.go:69-89 | whatever the chunks and reads, the aggregate of the parsed body, which `OAuthMeaning.Answer` and `OAuthMeaning.NoAnswer` write out |
| `OAuthConsumers.Track` | backend/internal/gateway/oauth_responses.go:325-369 | the tracker's verdict on the bytes fed to it |
| `OAuthConsumers.CopyStream` | backend/internal/gateway/oauth_responses.go:249-314 | what was forwarded is a prefix of the body within the limit, in pieces no larger than the buffer; the copy stops at the first piece the client does not take and only there; the totals are the fold of what was forwarded, and the verdict that of the whole body |
| `OAuthConsumers.SameVerdict` | backend/internal/gateway/oauth_responses.go:344-366 | both consumers reach the same verdict on every event sequence followed by any parser error |
| `OAuthConsumers.AggregateIsFirstDecision` | backend/internal/gateway/oauth_responses.go:69-89 | the first deciding event alone fixes the aggregate; without one the read error does |
| `OAuthMeaning.OneEnding` | backend/internal/gateway/oauth_responses.go:91-143 | an event ends a stream as completion, failure, incompletion, error or malformed, and never as two of them |
| `OAuthMeaning.EventMeaning` | backend/internal/gateway/oauth_responses.go:91-151 | what each of these, told from name, data, envelope type and response object, is decoded to, and that any other event is passed over |
| `OAuthMeaning.Answer` | backend/internal/gateway/oauth_responses.go:69-143 | verdict, outcome and body for each kind of first ending event: the trimmed response object of a completion, failure or incompletion, and no body for an error or a malformed event |
| `OAuthMeaning.NoAnswer` | backend/internal/gateway/oauth_responses.go:69-177 | without an ending event the failure for each context and, in a live one, for each parser error |
| `OAuthMeaning.TrackAnswer` | backend/internal/gateway/oauth_responses.go:344-366 | the verdict of the tracker for each kind of first ending event |
| `OAuthMeaning.TrackNothing` | backend/internal/gateway/oauth_responses.go:344-366 | the verdict of the tracker for each parser error without one |
| `OAuthMeaning.SuccessIsCompletion` | backend/internal/gateway/oauth_responses.go:69-143 | success if and only if the first ending event is a well-formed completion |
| `OAuthMeaning.CopyOutOfContext` | backend/internal/gateway/oauth_responses.go:295-303 | once the context is over, copy and aggregator report a stream nothing ended alike |
| `OAuthConsumers.LaterBytesIgnored` | backend/internal/gateway/oauth_responses.go:69-89 | bytes and errors after the deciding event do not change the aggregate |
| `OAuthConsumers.CopyAgreesWithAggregate` | backend/internal/gateway/oauth_responses.go:295-312 | copy and aggregate agree if and only if the body ends in EOF or its read error strikes before any decision or limit |
| `OAuthMeaning.CopyMayDisagree` | backend/internal/gateway/oauth_responses.go:295-312 | whatever the JSON decoder, any printable completion followed by a broken read is a success to the aggregator and a read error to the copy |
| `AlertKeys.FramingIsUnambiguous` | backend/internal/alerting/matcher.go:49-54 | components behind 8-byte big-endian lengths can be framed in one way only |
| `AlertMatching.KeysSeparateSubjects` | backend/internal/alerting/matcher.go:47-63 | unless the digest collides, two events share a key if and only if rule and, where the scope is the target, target are the same |
| `AlertMatching.StepByKind` | backend/internal/alerting/matcher.go:65-128 | one evaluation by what the event is to the rule: refused exactly when rejected, a recovery ends an alarm and tells of it exactly if asked, a match is counted or put to the cooldown; every reachable state stays sane |
| `AlertMatching.ReachableIsSane` | backend/internal/alerting/matcher.go:65-145 | a window is open exactly while matches are counted, below the count, and a firing rule's cooldown is measured from its last notification |
| `AlertMatching.EnoughMatchesNotify` | backend/internal/alerting/matcher.go:79-139 | an idle rule notifies within any stretch of one window with twice its count less two matches |
| `AlertMatching.OneFewerMayBeSilent` | backend/internal/alerting/matcher.go:113-139 | for every aggregating rule one match fewer may pass silently |
| `AlertMatching.NotifyIsBacked` | backend/internal/alerting/matcher.go:113-127 | an idle rule notifies on the last of exactly its count of matches, none after the deadline of the window the first opened |
| `AlertMatching.NotifiesAreSpaced` | backend/internal/alerting/matcher.go:105-111 | two notifications with no recovery between them are a cooldown apart, whatever the clock did |
| `AlertMatching.FiringSinceNotify` | backend/internal/alerting/matcher.go:79-128 | a rule is firing if and only if it has notified since its last recovery event |
| `AlertMatching.RecoverAfterNotify` | backend/internal/alerting/matcher.go:79-93 | a notification precedes every recovery notice and follows the one before it |
| `AlertHistory.KindIsFiltered` | backend/internal/alerting/matcher.go:13-45 | which events recover, trigger or are rejected, by the filters and actions of the rule |
| `AlertHistory.DecisionsAreExpected` | backend/internal/alerting/matcher.go:65-145 | every decision of every run is the one its events call for: no state, only the last alarm, the opener of the window and the matches since |
| `AlertHistory.CooldownDecides` | backend/internal/alerting/matcher.go:105-111 | a match while firing notifies if and only if the cooldown since the last notification is over, and is suppressed otherwise |
| `AlertHistory.RecoveryDecides` | backend/internal/alerting/matcher.go:79-93 | a recovery event leaves the rule idle and is told if and only if it was firing and the rule asks for it |
| `AlertHistory.RefusedIsUnacceptable` | backend/internal/alerting/matcher.go:65-78 | an evaluation is refused if and only if rule, event, time or key are unacceptable, and then changes nothing |
| `AlertHistory.TimesAreRecorded` | backend/internal/alerting/matcher.go:86-145 | a state knows when its rule last matched, notified and recovered |
| `AlertDispatch.WorkerIndex` | backend/internal/alerting/dispatcher.go:424-434 | always an existing worker |
| `AlertDispatch.StepKeeps` | backend/internal/alerting/dispatcher.go:180-409 | every step of every goroutine keeps the invariant on locks, closings, waits, order and conservation |
| `AlertDispatch.NeverPanics` | backend/internal/alerting/dispatcher.go:228-350 | no goroutine ever sends on or closes a closed queue |
| `AlertDispatch.DoneMeansDrained` | backend/internal/alerting/dispatcher.go:180-242 | when shutdown is done unforced, every accepted event was evaluated to its end and every decided job handed over, in order |
| `AlertDispatch.KeyHasOneWorker` | backend/internal/alerting/dispatcher.go:376-434 | all jobs of a deduplication key go to one worker |
| `AlertDispatch.SameKeyInOrder` | backend/internal/alerting/dispatcher.go:376-409 | jobs of a key start delivery on that worker only, in the order they were queued, which unforced is the order they were decided |
| `AlertDispatch.ShutdownNeverStuck` | backend/internal/alerting/dispatcher.go:180-242 | a launched shutdown can always take a further step by itself until it is done |
| `AlertIntake.WorkerIsRemainder` | backend/internal/alerting/dispatcher.go:424-434 | the worker is the remainder of the number in the key hash, or of the rule id without one |
| `AlertIntake.AcceptedInOrder` | backend/internal/alerting/dispatcher.go:308-331 | the accepted events are those of the offers that found room, in order |
| `AlertIntake.OffersAreAccounted` | backend/internal/alerting/dispatcher.go:308-331 | every event offered is on its way, accepted, dropped for a full queue or turned away |
| `AlertIntake.OffersOwnEvent` | backend/internal/alerting/dispatcher.go:308-331 | a caller offers the event it came with |
| `AlertIntake.AcceptedWhileRunning` | backend/internal/alerting/dispatcher.go:180-199 | events are accepted from the start until the shutdown begins |
| `AlertIntake.QueuesAreBounded` | backend/internal/alerting/dispatcher.go:308-422 | no queue ever holds more than it was made for |
| `AlertShutdown.StepUsesUp` | backend/internal/alerting/dispatcher.go:228-409 | after launch every step of every goroutine leaves less work, apart from a decision, which adds a job, and a forced cancellation |
| `AlertShutdown.RunsEnd` | backend/internal/alerting/dispatcher.go:180-409 | steps made since launch and work left are at most the work at launch, five for each decision and one for each forcing |
| `AlertShutdown.DecisionsAreBounded` | backend/internal/alerting/dispatcher.go:352-385 | with at most so many rules an event, no more jobs are decided on than rules times the events left at launch |
| `AlertShutdown.ShutdownCompletes` | backend/internal/alerting/dispatcher.go:180-242 | whatever the goroutines do after launch, the steps are bounded by the work, rules and events left then, and a run that reaches the bound or cannot go on is done |
| `AlertDelivery.NewDeliveryQueues` | backend/internal/alerting/dispatcher.go:411-422 | capacities sum to the configured total, are at least one, fall from left to right and differ by at most one |
| `AlertDelivery.RetryDelay` | backend/internal/alerting/dispatcher.go:616-632 | the capped doubled delay or what the receiver asked for, except exactly where doubling ends one short of the maximum |
| `AlertDelivery.Deliver` | backend/internal/alerting/dispatcher.go:452-486 | at most the allowed attempts, each retry justified, and the exact condition of every outcome: delivered, failure recorded, canceled, unresolved, outdated |
| `LoginThrottling.FailureDelay` | backend/internal/admin/login_throttle.go:271-294 | the minimum of the maximum and the base delay doubled per failure past the threshold; every value on the way is a doubling of the base delay and none exceeds the maximum |
| `LoginThrottling.DelayGrows` | backend/internal/admin/login_throttle.go:271-294 | the delay never falls with more failures and never exceeds the maximum |
| `LoginThrottling.Keys` | backend/internal/admin/login_throttle.go:207-216 | one or two identities, never the same twice |
| `LoginThrottling.LoginThrottle.BeginAttempt` | backend/internal/admin/login_throttle.go:61-124 | allowed if and only if no identity is blocked or saturated and the table has room; then all identities are reserved, else none; the waiting time, the list order and every invariant |
| `LoginThrottling.LoginThrottle.RecordFailure` | backend/internal/admin/login_throttle.go:126-159 | an active attempt turns each reservation into a failure once and moves its identities to the back of the list; a finished one changes nothing |
| `LoginThrottling.LoginThrottle.FinishAttempt` | backend/internal/admin/login_throttle.go:169-197 | success or cancelling gives each reservation back once, forgets identities with nothing left and moves the others to the back of the list; what success clears is pinned by `LoginHistory.SuccessClears` |
| `LoginThrottling.LoginThrottle.EnsureCapacity` | backend/internal/admin/login_throttle.go:244-256 | on reachable tables nothing is evicted and the answer is whether the new entries fit |
| `LoginThrottling.LoginThrottle.PurgeExpired` | backend/internal/admin/login_throttle.go:231-242 | the stale front of the list is dropped, and only that |
| `LoginThrottling.PurgeDropsStale` | backend/internal/admin/login_throttle.go:231-242 | purging removes only stale entries, none of them held by an attempt, and map and list still agree |
| `LoginThrottling.ReservingCounts` | backend/internal/admin/login_throttle.go:111-123 | after a reservation in-flight counts still equal active attempts and stay below the threshold |
| `LoginThrottling.FailingCounts` | backend/internal/admin/login_throttle.go:140-156 | after a failure in-flight counts still equal active attempts and every entry keeps its bounds |
| `LoginThrottling.FinishingCounts` | backend/internal/admin/login_throttle.go:181-196 | after a finish in-flight counts still equal active attempts and every entry is there for a reason |
| `LoginThrottling.HeldKeysHaveEntries` | backend/internal/admin/login_throttle.go:140-144 | an active attempt has an entry with a reservation for each of its identities |
| `LoginRuns.RunKept` | backend/internal/admin/login_throttle.go:61-269 | after every call of every run map and list agree, in-flight counts are the active attempts, and every entry keeps its bounds |
| `LoginRuns.FinishedStaysFinished` | backend/internal/admin/login_throttle.go:134-180 | a finished attempt never becomes active again and no call on it changes anything |
| `LoginRuns.NoAttemptWhileBlocked` | backend/internal/admin/login_throttle.go:71-96 | after a failure that sets a delay, no attempt on that identity is allowed before the delay has passed, unless a success cleared it; the clock must not run backwards |
| `LoginHistory.EntryIsHistory` | backend/internal/admin/login_throttle.go:61-197 | in every run an entry's failures are those of its attempts since it was last cleared or forgotten, and its block is the one the last of them set |
| `LoginHistory.EntriesAreUsed` | backend/internal/admin/login_throttle.go:61-269 | an identity has an entry if and only if it has such a failure or an attempt under way |
| `LoginHistory.AttemptIsDecided` | backend/internal/admin/login_throttle.go:71-110 | an attempt is allowed if and only if none of its identities is blocked or saturated by that history and the table has room |
| `LoginHistory.SuccessClears` | backend/internal/admin/login_throttle.go:169-197 | right after a success its identities are gone, or have no failure and no block while other attempts hold them |
| `LoginHistory.CleanIsWelcome` | backend/internal/admin/login_throttle.go:61-197 | with no failure since a success and no other attempt under way an attempt is allowed wherever there is room |
| `LoginHistory.BeginTellsWait` | backend/internal/admin/login_throttle.go:78-109 | the waiting time is the longest its identities ask for, at least a second without room, and else none |
| `LoginHistory.FailTellsDelay` | backend/internal/admin/login_throttle.go:139-158 | a failure answers with the longest delay it sets |
| `LoginHistory.ActiveUntilSettled` | backend/internal/admin/login_throttle.go:61-197 | an attempt holds its identities from the call that was allowed to begin it until the first call that settles it |
| `LoginHistory.PurgeForgetsExpired` | backend/internal/admin/login_throttle.go:231-242 | purging forgets an entry if and only if it and all entries before it in the list are unused and old |
| `LoginOrder.ListIsBySeen` | backend/internal/admin/login_throttle.go:226-242 | with a clock that does not run backwards the list is in the order the identities were last seen |
| `LoginOrder.SeenAtLastConcern` | backend/internal/admin/login_throttle.go:226-229 | an entry was last seen at the last call about its identity |
| `LoginOrder.ReportsAreSpaced` | backend/internal/admin/login_throttle.go:296-302 | a refusal or failure is reported if and only if every earlier report is an event window away |
| `RevealThrottling.SecretRevealThrottle.BeginAttempt` | backend/internal/admin/secret_reveal_throttle.go:45-91 | the answer, the waiting time and the table after an attempt |
| `RevealThrottling.CountsEveryIdentity` | backend/internal/admin/secret_reveal_throttle.go:81-89 | an allowed attempt is counted once on every identity and on no other, and the order by expiry is kept |
| `RevealThrottling.PurgeIsExact` | backend/internal/admin/secret_reveal_throttle.go:105-118 | dropping from the front removes exactly the expired entries |
| `RevealThrottling.PassesAreBounded` | backend/internal/admin/secret_reveal_throttle.go:45-118 | over every run an identity passes at most the limit per window and twice the limit less one in any window span, and the table stays within its maximum |
| `RevealThrottling.BoundIsSharp` | backend/internal/admin/secret_reveal_throttle.go:45-118 | for every limit and window of at least two time units that many passes do happen |
| `RevealHistory.EntryIsWindow` | backend/internal/admin/secret_reveal_throttle.go:45-118 | an entry is the open window of its identity: begun by the first pass after the window before, counting every pass since |
| `RevealHistory.RevealIsDecided` | backend/internal/admin/secret_reveal_throttle.go:45-91 | a reveal is let through if and only if no identity has used up its open window and the table can hold the open windows and the identities |
| `RevealHistory.RefusalTellsWait` | backend/internal/admin/secret_reveal_throttle.go:57-70 | a refused caller waits until the last of the used-up windows ends |
| `TransportPool.TransportRegistry.ClientFor` | backend/internal/gateway/transport_registry.go:60-101 | the live transport of the account's own key, or a new one that survives the eviction it causes; nothing after closing |
| `TransportPool.TransportRegistry.InvalidateAccountTransport` | backend/internal/gateway/transport_registry.go:103-114 | the account is unbound, and its entry removed when no other account uses it |
| `TransportPool.TransportRegistry.InvalidateAllAccountTransports` | backend/internal/gateway/transport_registry.go:116-126 | nothing is live afterwards and every transport was closed exactly once |
| `TransportPool.TransportRegistry.Close` | backend/internal/gateway/transport_registry.go:128-142 | closed, nothing live, and every transport ever created closed exactly once |
| `TransportPool.TransportRegistry.ReleaseBinding` | backend/internal/gateway/transport_registry.go:144-152 | the entry goes exactly when no other account is bound to it |
| `TransportPool.TransportRegistry.EvictOldest` | backend/internal/gateway/transport_registry.go:154-166 | the entry used longest ago and all bindings to it go |
| `TransportPool.ServedKeeps` | backend/internal/gateway/transport_registry.go:71-100 | map and list agree, capacity holds, bindings are live, and the requested key is in front |
| `TransportPool.OthersStayBound` | backend/internal/gateway/transport_registry.go:71-100 | another account keeps its binding exactly while its transport stays, and is never moved |
| `TransportPool.AccountedRemove` | backend/internal/gateway/transport_registry.go:168-176 | removing an entry closes its transport, the one close it ever gets |
| `TransportRuns.AskedEntries` | backend/internal/gateway/transport_registry.go:71-100 | after asking for a client the entries are its own and all that were, except the one the account was last to leave and, if the new one is too many, the last of the list |
| `TransportRuns.AskedBindings` | backend/internal/gateway/transport_registry.go:71-100 | bound are the account that asked and every other account whose entry is still there |
| `TransportRuns.ReleasedExactly` | backend/internal/gateway/transport_registry.go:144-152 | taking an account off its entry removes the entry if and only if no other account is bound to it |
| `TransportRuns.ListIsByUse` | backend/internal/gateway/transport_registry.go:60-126 | in every run the list is in the order of last use, so the one evicted is the one unused longest |
| `SettingsSnapshot.Normalize` | backend/internal/admin/service.go:1732-1749 | the result is normalized, changes at most an unset interval, and normalized settings are fixed points |
| `SettingsSnapshot.GatewaySettingsRuntime.Apply` | backend/internal/admin/gateway_settings_runtime.go:248-282 | the snapshot after a load is applied stays coherent, and the error tells success and invalidity apart |
| `SettingsSnapshot.GatewaySettingsRuntime.PublishPersisted` | backend/internal/admin/gateway_settings_runtime.go:147-171 | an older write is ignored, a contradicting one refused and a refresh requested, any other published; that it is then served is `SettingsHistory.NewerWriteIsServed` |
| `SettingsSnapshot.GatewaySettingsRuntime.GetGatewaySettings` | backend/internal/admin/gateway_settings_runtime.go:179-188 | settings are served exactly while valid, and always normalized |
| `SettingsSnapshot.AlwaysCoherent` | backend/internal/admin/gateway_settings_runtime.go:240-358 | in every interleaving of loads, applications and writes: loaded exactly when versioned, defaults before that, stale exactly when valid with an error, exactly when last-known-good |
| `SettingsSnapshot.StaysValid` | backend/internal/admin/gateway_settings_runtime.go:284-358 | a valid snapshot never becomes invalid |
| `SettingsSnapshot.VersionNeverDecreases` | backend/internal/admin/gateway_settings_runtime.go:240-282 | without an older initial load applied in between, the served version never decreases |
| `SettingsSnapshot.VersionDropsExactly` | backend/internal/admin/gateway_settings_runtime.go:276-281 | a step makes the version older if and only if it applies an initial load of a usable older record |
| `SettingsSnapshot.VersionMayDrop` | backend/internal/admin/gateway_settings_runtime.go:276-281 | a write published between the load and the application of an initial refresh is replaced by the older version |
| `SettingsSnapshot.SettingsSwapExactly` | backend/internal/admin/gateway_settings_runtime.go:269-281 | a version changes its settings if and only if a load of a usable record with that version and other settings is applied |
| `SettingsSnapshot.SettingsMaySwap` | backend/internal/admin/gateway_settings_runtime.go:276-281 | for any two settings a refresh replaces one by the other under the same version without an error |
| `SettingsHistory.NormalizeIsCompleted` | backend/internal/admin/service.go:1732-1749 | settings are accepted if and only if no limit is negative and automatic tests are a minute apart, and change only by an unset interval becoming five minutes |
| `SettingsHistory.SnapshotShowsHistory` | backend/internal/admin/gateway_settings_runtime.go:147-358 | in every interleaving version, settings, error and counters are those of the outcomes so far, told from the steps |
| `SettingsHistory.ServesLastTaken` | backend/internal/admin/gateway_settings_runtime.go:147-282 | a version served is that of the record last taken from a write or a load, with its completed settings |
| `SettingsHistory.NewerWriteIsServed` | backend/internal/admin/gateway_settings_runtime.go:147-171 | a usable write newer than the version served is served right after it, without an error and not stale |
| `SettingsHistory.SameVersionWrite` | backend/internal/admin/gateway_settings_runtime.go:162-171 | a write with the version served changes no settings, and leaves an error if and only if its settings are others |
| `SettingsHistory.OtherWritesIgnored` | backend/internal/admin/gateway_settings_runtime.go:151-161 | an older or unusable write changes nothing |
| `SettingsHistory.LoadIsAnswered` | backend/internal/admin/gateway_settings_runtime.go:248-282 | what each result of a load makes of settings, version and error |
| `SettingsHistory.OutcomesAreStamped` | backend/internal/admin/gateway_settings_runtime.go:284-358 | every time and the source change with the outcomes they stand for and with no others |

## Left out

- SQL stores, provider selection, secrets and request logs: they appear only as answers of the outside.
- JSON decoding, usage-field extraction, header and URL handling: uninterpreted functions of the bytes.
- TLS dialing, HTTP transports, proxies, timers, idle timeouts, and the context watchers that close a body from another goroutine.
- `bufio` giving up after a hundred empty reads: reads of the modelled body deliver at least one byte or an error.
- The parser after its first error: every consumer stops there.
- Authentication, request and token rate windows, local model listing and the affinity lookup of a request, all before its slots are taken; the model begins at the gateway slot.
- Metrics, diagnostics spans, usage recording and account failure records: they take part in no resource.
- `responsePhaseTracker`, which drops bytes beyond 128 KiB and so depends on chunking.
- Agreement of the observer and the parser with each other: they treat mixed line endings differently.
- Failover.ServeRequest: that the one admission is settled exactly once is stated for budgets whose granted admissions have an id and whose denied ones have none, as the budget ledger guarantees.
- Which jobs the evaluator decides on for an event: the dispatcher model allows any, since the rules and their states live in the store; `AlertMatching` is the decision itself. Events that delivery itself caused are never offered.
- The listener's subscription loop and the overflow reporter's ticking in the dispatcher: callers offering events and a reporter that ends on cancellation stand for them. A dispatcher that is disabled starts no goroutine.
- AlertMatching.EnoughMatchesNotify: one rule and one deduplication key with fixed configuration; edits of the rule between evaluations are not modelled.
- LoginHistory.AttemptIsDecided: for times not before the zero time, which stands for no block; `LoginOrder.ReportsAreSpaced` for times after it.
- 64-bit counters and durations are unbounded integers; the source keeps its delays below the configured maximum.
- Admin handlers, configuration, CLI commands, readiness, drain, retention and pricing: long but shallow.
