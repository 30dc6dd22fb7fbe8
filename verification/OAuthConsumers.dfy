/**
 * The two consumers of an OAuth event stream: the aggregator, which turns the
 * stream into one JSON answer, and the tracker beside the streaming copy, which
 * only has to say how the stream ended.
 */
module OAuthConsumers {
  import opened Options
  import opened Bytes
  import opened SseReaders
  import opened SseFormat
  import opened SseParsing
  import opened SseLimits
  import opened SseRoundTrip
  import opened UsageObserver

  datatype Failure =
    | TerminalMissing | Truncated | Malformed | StreamError | ResponseFailed | ResponseIncomplete
    | Canceled | DeadlineExceeded | IdleTimedOut | ResponseTooLarge | ReadBroken

  datatype Verdict = Succeeded | Failed(failure: Failure)

  datatype StreamOutcome =
    | NoOutcome | OutcomeMalformed | OutcomeError | OutcomeCompleted | OutcomeFailed | OutcomeIncomplete

  datatype Context = Active | ContextCanceled | ContextDeadline

  datatype Envelope = Envelope(kind: Bytes, response: Bytes)

  /** White-space trimming, JSON validity, and decoding of the event envelope. */
  datatype Json = Json(trim: Bytes -> Bytes, valid: Bytes -> bool, decode: Bytes -> Option<Envelope>)

  datatype EventResult = EventResult(terminal: bool, outcome: StreamOutcome, response: Bytes, err: Option<Failure>)

  const DEFAULT_MAX_BODY: int := 0x80_0000
  const OPEN_BRACE: Byte := 123

  const UNDECIDED := EventResult(false, NoOutcome, [], None)
  const MALFORMED := EventResult(false, OutcomeMalformed, [], Some(Malformed))
  const STREAM_ERROR := EventResult(false, OutcomeError, [], Some(StreamError))

  function ResponseObject(raw: Bytes, json: Json): Option<Bytes> {
    var body := json.trim(raw);
    if body == [] || body[0] != OPEN_BRACE || !json.valid(body) then None else Some(body)
  }

  function ParseEvent(e: Event, json: Json): EventResult {
    if !e.hasData then UNDECIDED
    else
      var data := json.trim(e.data);
      if data == [] then MALFORMED
      else if json.trim(e.name) == Ascii("error") then STREAM_ERROR
      else if data == Ascii("[DONE]") then UNDECIDED
      else if !json.valid(data) || json.decode(data).None? then MALFORMED
      else
        var envelope := json.decode(data).value;
        ParseEnvelope(EventType(e, envelope, json), envelope, json)
  }

  function EventType(e: Event, envelope: Envelope, json: Json): Bytes {
    var kind := json.trim(envelope.kind);
    if kind == [] then json.trim(e.name) else kind
  }

  function ParseEnvelope(kind: Bytes, envelope: Envelope, json: Json): EventResult {
    if kind == Ascii("error") then STREAM_ERROR
    else if kind == Ascii("response.completed") || kind == Ascii("response.failed") || kind == Ascii("response.incomplete") then
      match ResponseObject(envelope.response, json)
      case None => MALFORMED
      case Some(body) =>
        if kind == Ascii("response.completed") then EventResult(true, OutcomeCompleted, body, None)
        else if kind == Ascii("response.failed") then EventResult(true, OutcomeFailed, body, Some(ResponseFailed))
        else EventResult(true, OutcomeIncomplete, body, Some(ResponseIncomplete))
    else UNDECIDED
  }

  function Classify(ctx: Context, err: ParseError): Failure {
    match ctx
    case ContextCanceled => Canceled
    case ContextDeadline => DeadlineExceeded
    case Active =>
      if err == ReadFailed(IdleTimeout) then IdleTimedOut
      else if err == ReadFailed(TooLarge) || err.LineTooLarge? || err.EventTooLarge? || err.DataTooLarge? then ResponseTooLarge
      else if err.UnexpectedEof? then Truncated
      else if err.EndOfStream? then TerminalMissing
      else ReadBroken
  }

  function EffectiveMax(maxBytes: int): (r: int)
    ensures 0 < r
  {
    if maxBytes > 0 then maxBytes else DEFAULT_MAX_BODY
  }

  /** What a consumer's parser makes of a body. */
  function ParsedBody(s: Stream, maxBytes: int): (seq<Event>, ParseError) {
    Parse(Limited(s, EffectiveMax(maxBytes)), WithDefaults(ConsumerLimits(EffectiveMax(maxBytes))))
  }

  // ---------- The aggregator ----------

  datatype Aggregated = Aggregated(verdict: Verdict, outcome: StreamOutcome, body: Bytes)

  function AsVerdict(err: Option<Failure>): Verdict {
    match err case None => Succeeded case Some(f) => Failed(f)
  }

  function AggregateOf(parsed: (seq<Event>, ParseError), ctx: Context, json: Json): Aggregated
    decreases |parsed.0|
  {
    if parsed.0 == [] then Aggregated(Failed(Classify(ctx, parsed.1)), NoOutcome, [])
    else
      var r := ParseEvent(parsed.0[0], json);
      if r.err.Some? && !r.terminal then Aggregated(AsVerdict(r.err), r.outcome, [])
      else if !r.terminal then AggregateOf((parsed.0[1..], parsed.1), ctx, json)
      else Aggregated(AsVerdict(r.err), r.outcome, r.response)
  }

  method Aggregate(chunks: seq<Bytes>, end: ReadError, eager: bool, maxBytes: int, ctx: Context, json: Json)
    returns (a: Aggregated)
    requires forall i :: 0 <= i < |chunks| ==> chunks[i] != []
    ensures a == AggregateOf(ParsedBody(Stream(Concat(chunks), end), maxBytes), ctx, json)
  {
    var parser := OpenParser(chunks, end, eager, maxBytes);
    ghost var goal := AggregateOf(Parse(parser.reader.rest, parser.limits), ctx, json);
    while true
      invariant parser.Valid() && parser.group == [] && fresh(parser.reader) && fresh(parser.reader.reader)
      invariant fresh(parser) && fresh(parser.reader.reader.source)
      invariant AggregateOf(Parse(parser.reader.rest, parser.limits), ctx, json) == goal
      decreases |parser.reader.rest.bytes|
    {
      ParseHead(parser.reader.rest, parser.limits);
      var next := parser.Next();
      if next.Err? {
        return Aggregated(Failed(Classify(ctx, next.err)), NoOutcome, []);
      }
      var r := ParseEvent(next.event, json);
      if r.err.Some? && !r.terminal {
        return Aggregated(AsVerdict(r.err), r.outcome, []);
      }
      if r.terminal {
        return Aggregated(AsVerdict(r.err), r.outcome, r.response);
      }
    }
  }

  lemma {:induction false} ParseHead(s: Stream, limits: Limits)
    ensures Parse(s, limits) ==
            match NextEvent([], s, limits)
            case Fail(err) => ([], err)
            case Dispatch(event, rest) =>
              var tail := Parse(Stream(rest, s.end), limits);
              ([event] + tail.0, tail.1)
  {
  }

  method OpenParser(chunks: seq<Bytes>, end: ReadError, eager: bool, maxBytes: int) returns (p: SseParser)
    requires forall i :: 0 <= i < |chunks| ==> chunks[i] != []
    ensures p.Valid() && p.group == []
    ensures fresh(p) && fresh(p.reader) && fresh(p.reader.reader) && fresh(p.reader.reader.source)
    ensures Parse(p.reader.rest, p.limits) == ParsedBody(Stream(Concat(chunks), end), maxBytes)
  {
    var source := new ByteSource(chunks, end, eager);
    var bounded := new BoundedReader(source, EffectiveMax(maxBytes));
    var buffered := new BufferedReader(bounded);
    p := new SseParser(buffered, ConsumerLimits(EffectiveMax(maxBytes)));
  }

  // ---------- The tracker ----------

  function TrackOf(parsed: (seq<Event>, ParseError), json: Json): Verdict
    decreases |parsed.0|
  {
    if parsed.0 == [] then
      Failed(if parsed.1.EndOfStream? then TerminalMissing else Classify(Active, parsed.1))
    else
      var r := ParseEvent(parsed.0[0], json);
      if r.err.Some? then Failed(r.err.value)
      else if r.terminal then Succeeded
      else TrackOf((parsed.0[1..], parsed.1), json)
  }

  method Track(fed: Bytes, maxBytes: int, json: Json) returns (v: Verdict)
    ensures v == TrackOf(ParsedBody(Stream(fed, Eof), maxBytes), json)
  {
    var parser := OpenParser(if fed == [] then [] else [fed], Eof, false, maxBytes);
    assert Concat(if fed == [] then [] else [fed]) == fed;
    ghost var goal := TrackOf(Parse(parser.reader.rest, parser.limits), json);
    while true
      invariant parser.Valid() && parser.group == [] && fresh(parser.reader) && fresh(parser.reader.reader)
      invariant fresh(parser) && fresh(parser.reader.reader.source)
      invariant TrackOf(Parse(parser.reader.rest, parser.limits), json) == goal
      decreases |parser.reader.rest.bytes|
    {
      ParseHead(parser.reader.rest, parser.limits);
      var next := parser.Next();
      if next.Err? {
        return Failed(if next.err.EndOfStream? then TerminalMissing else Classify(Active, next.err));
      }
      var r := ParseEvent(next.event, json);
      if r.err.Some? {
        return Failed(r.err.value);
      }
      if r.terminal {
        return Succeeded;
      }
    }
  }

  // ---------- The two consumers agree ----------

  ghost predicate Decides(e: Event, json: Json) {
    var r := ParseEvent(e, json);
    r.terminal || r.err.Some?
  }

  /** Event i is the first one that decides the stream. */
  ghost predicate FirstDecision(events: seq<Event>, i: nat, json: Json) {
    i < |events| && Decides(events[i], json) && forall j :: 0 <= j < i ==> !Decides(events[j], json)
  }

  /** Both consumers reach the same verdict on every event sequence and every parser error. */
  lemma {:induction false} SameVerdict(parsed: (seq<Event>, ParseError), json: Json)
    ensures AggregateOf(parsed, Active, json).verdict == TrackOf(parsed, json)
    decreases |parsed.0|
  {
    if parsed.0 != [] {
      SameVerdict((parsed.0[1..], parsed.1), json);
    }
  }

  /** The first deciding event alone fixes the aggregate; without one, the read error does. */
  lemma {:induction false} AggregateIsFirstDecision(parsed: (seq<Event>, ParseError), i: nat, ctx: Context, json: Json)
    requires FirstDecision(parsed.0, i, json) || (i == |parsed.0| && forall j :: 0 <= j < i ==> !Decides(parsed.0[j], json))
    ensures AggregateOf(parsed, ctx, json) ==
            if i == |parsed.0| then Aggregated(Failed(Classify(ctx, parsed.1)), NoOutcome, [])
            else var r := ParseEvent(parsed.0[i], json); Aggregated(AsVerdict(r.err), r.outcome, r.response)
    decreases |parsed.0|
  {
    if parsed.0 != [] && i > 0 {
      assert !Decides(parsed.0[0], json);
      assert forall j :: 0 <= j < |parsed.0| - 1 ==> parsed.0[1..][j] == parsed.0[j + 1];
      AggregateIsFirstDecision((parsed.0[1..], parsed.1), i - 1, ctx, json);
    }
  }

  lemma FindDecision(events: seq<Event>, json: Json) returns (i: nat)
    ensures i <= |events| && forall j :: 0 <= j < i ==> !Decides(events[j], json)
    ensures i < |events| ==> FirstDecision(events, i, json)
    ensures forall k: nat :: FirstDecision(events, k, json) ==> k == i
  {
    i := 0;
    while i < |events| && !Decides(events[i], json)
      invariant i <= |events| && forall j :: 0 <= j < i ==> !Decides(events[j], json)
    {
      i := i + 1;
    }
  }

  // ---------- Bytes after the decision ----------

  lemma {:induction false} NextLineMoreBytes(p: Bytes, x: Bytes, end: ReadError, end': ReadError, maxLine: int)
    requires NextLine(Stream(p, end), maxLine).Whole?
    ensures NextLine(Stream(p + x, end'), maxLine) == NextLine(Stream(p, end), maxLine)
  {
    var n := IndexByte(p, LF);
    assert forall k :: 0 <= k <= n ==> (p + x)[k] == p[k];
    IndexByteUnique(p + x, LF, n);
    assert (p + x)[..n + 1] == p[..n + 1];
  }

  lemma {:induction false} ReadOneMoreBytes(group: seq<Bytes>, p: Bytes, x: Bytes, end: ReadError, end': ReadError, limits: Limits)
    ensures var r, r' := ReadOne(group, Stream(p, end), limits), ReadOne(group, Stream(p + x, end'), limits);
            && (r.More? ==> r' == More(r.line, r.rest + x))
            && (r.Done? && r.outcome.Dispatch? ==> r' == Done(Dispatch(r.outcome.event, r.outcome.rest + x)))
  {
    var line := NextLine(Stream(p, end), limits.maxLine);
    if line.Whole? {
      NextLineMoreBytes(p, x, end, end', limits.maxLine);
      assert (p + x)[|line.raw|..] == p[|line.raw|..] + x;
    }
  }

  lemma {:induction false} NextEventMoreBytes(group: seq<Bytes>, p: Bytes, x: Bytes, end: ReadError, end': ReadError, limits: Limits)
    ensures var r := NextEvent(group, Stream(p, end), limits);
            r.Dispatch? ==> NextEvent(group, Stream(p + x, end'), limits) == Dispatch(r.event, r.rest + x)
    decreases |p|
  {
    ReadOneMoreBytes(group, p, x, end, end', limits);
    var r := ReadOne(group, Stream(p, end), limits);
    if r.More? {
      NextEventMoreBytes(group + [r.line], r.rest, x, end, end', limits);
    }
  }

  /** The events of a prefix are the first events of every longer stream. */
  lemma {:induction false} EventsOfPrefix(p: Bytes, x: Bytes, end: ReadError, end': ReadError, limits: Limits)
    ensures Parse(Stream(p, end), limits).0 <= Parse(Stream(p + x, end'), limits).0
    decreases |p|
  {
    NextEventMoreBytes([], p, x, end, end', limits);
    var r := NextEvent([], Stream(p, end), limits);
    if r.Dispatch? {
      EventsOfPrefix(r.rest, x, end, end', limits);
      ParseHead(Stream(p, end), limits);
      ParseHead(Stream(p + x, end'), limits);
    }
  }

  /** Once the bytes p of a body hold a deciding event, no later byte or error changes the aggregate. */
  lemma {:induction false} LaterBytesIgnored(p: Bytes, x: Bytes, end: ReadError, maxBytes: int, i: nat, ctx: Context, json: Json)
    requires |p| <= EffectiveMax(maxBytes)
    requires FirstDecision(ParsedBody(Stream(p, Eof), maxBytes).0, i, json)
    ensures AggregateOf(ParsedBody(Stream(p + x, end), maxBytes), ctx, json) ==
            AggregateOf(ParsedBody(Stream(p, Eof), maxBytes), ctx, json)
  {
    var max, limits := EffectiveMax(maxBytes), WithDefaults(ConsumerLimits(EffectiveMax(maxBytes)));
    var short, long := ParsedBody(Stream(p, Eof), maxBytes), ParsedBody(Stream(p + x, end), maxBytes);
    var view := Limited(Stream(p + x, end), max);
    var y := view.bytes[|p|..];
    assert view.bytes == p + y;
    EventsOfPrefix(p, y, Eof, view.end, limits);
    assert forall j :: 0 <= j <= i ==> long.0[j] == short.0[j];
    AggregateIsFirstDecision(short, i, ctx, json);
    AggregateIsFirstDecision(long, i, ctx, json);
  }

  // ---------- The streaming copy ----------

  datatype CopyEnd = ClientGone | Answered(verdict: Verdict)

  /** How a copy ended, the pieces handed to the client, and the totals observed in them. */
  datatype Copied = Copied(end: CopyEnd, pieces: seq<Bytes>, totals: Totals)

  const COPY_BUFFER: nat := 0x8000

  /** How the streaming copy reports a body that stays within its limit. */
  function CopyVerdict(s: Stream, ctx: Context, maxBytes: int, json: Json): Verdict {
    if s.end.IdleTimeout? then Failed(IdleTimedOut)
    else if ctx.ContextCanceled? then Failed(Canceled)
    else if ctx.ContextDeadline? then Failed(DeadlineExceeded)
    else if s.end.Eof? then TrackOf(ParsedBody(Stream(s.bytes, Eof), maxBytes), json)
    else Failed(ReadBroken)
  }

  ghost predicate Oversized(s: Stream, maxBytes: int) {
    0 < maxBytes < |s.bytes|
  }

  /** The client took every piece, and none is empty or larger than the copy's buffer. */
  ghost predicate Taken(pieces: seq<Bytes>, writes: nat -> bool) {
    forall k :: 0 <= k < |pieces| ==> writes(k) && 0 < |pieces[k]| <= COPY_BUFFER
  }

  /** writes(k) says whether the client still takes the k-th chunk. */
  method CopyStream(chunks: seq<Bytes>, end: ReadError, eager: bool, maxBytes: int, ctx: Context, json: Json,
                    ex: Extractors, writes: nat -> bool) returns (c: Copied)
    requires forall i :: 0 <= i < |chunks| ==> chunks[i] != []
    ensures var fed := Concat(c.pieces);
            fed <= Concat(chunks) && (maxBytes > 0 ==> |fed| <= maxBytes) && c.totals == Fold(NOTHING_SEEN, fed, ex).0
    ensures if c.end.Answered? then Taken(c.pieces, writes)
            else c.pieces != [] && Taken(c.pieces[..|c.pieces| - 1], writes) && !writes(|c.pieces| - 1)
    ensures var s := Stream(Concat(chunks), end);
            c.end.Answered? ==>
              if Oversized(s, maxBytes) then c.end.verdict == Failed(ResponseTooLarge)
              else Concat(c.pieces) == s.bytes && c.end.verdict == CopyVerdict(s, ctx, maxBytes, json)
  {
    hide Fold, CopyVerdict, Advances, Concat, Taken;
    FoldNothing(ex);
    var source := new ByteSource(chunks, end, eager);
    var observer := new SseUsageObserver(ex);
    ghost var s := source.rest;
    var fed: Bytes := [];
    var pieces: seq<Bytes> := [];
    NothingRead(s);
    NonePassed(writes);
    while true
      invariant source.Valid() && fresh(source) && observer.Valid() && fresh(observer) && observer.ex == ex
      invariant Advances(s, fed, source.rest) && (maxBytes > 0 ==> |fed| <= maxBytes)
      invariant (observer.State(), observer.buf) == Fold(NOTHING_SEEN, fed, ex)
      invariant Concat(pieces) == fed && Taken(pieces, writes)
      decreases |source.rest.bytes|
    {
      ghost var before := source.rest;
      var data, err := source.Read(COPY_BUFFER);
      ReadMore(s, fed, before, data, source.rest);
      if data != [] {
        if maxBytes > 0 && |fed| > maxBytes - |data| {
          return Copied(Answered(Failed(ResponseTooLarge)), pieces, Totals(observer.usage, observer.responseId));
        }
        observer.Observe(data);
        FoldAppend(NOTHING_SEEN, fed, data, ex);
        PassOn(pieces, data, writes);
        fed, pieces := fed + data, pieces + [data];
        if !writes(|pieces| - 1) {
          return Copied(ClientGone, pieces, Totals(observer.usage, observer.responseId));
        }
      }
      if err.Some? {
        AllRead(s, fed, source.rest);
        var verdict := ReportEnd(err.value, fed, ctx, maxBytes, json);
        return Copied(Answered(verdict), pieces, Totals(observer.usage, observer.responseId));
      }
    }
  }

  lemma NonePassed(writes: nat -> bool)
    ensures Concat([]) == [] && Taken([], writes)
  {
  }

  lemma PassOn(pieces: seq<Bytes>, piece: Bytes, writes: nat -> bool)
    requires Taken(pieces, writes) && 0 < |piece| <= COPY_BUFFER
    ensures Concat(pieces + [piece]) == Concat(pieces) + piece && (pieces + [piece])[..|pieces|] == pieces
    ensures writes(|pieces|) ==> Taken(pieces + [piece], writes)
  {
    hide Concat, Taken;
    ConcatSnoc(pieces, piece);
    if writes(|pieces|) {
      TakenMore(pieces, piece, writes);
    }
  }

  lemma TakenMore(pieces: seq<Bytes>, piece: Bytes, writes: nat -> bool)
    requires Taken(pieces, writes) && 0 < |piece| <= COPY_BUFFER && writes(|pieces|)
    ensures Taken(pieces + [piece], writes)
  {
    forall k | 0 <= k < |pieces| + 1 ensures writes(k) && 0 < |(pieces + [piece])[k]| <= COPY_BUFFER {
      if k < |pieces| {
        assert (pieces + [piece])[k] == pieces[k];
      }
    }
  }

  lemma ConcatSnoc(pieces: seq<Bytes>, piece: Bytes)
    ensures Concat(pieces + [piece]) == Concat(pieces) + piece
  {
    ConcatAppend(pieces, [piece]);
    assert [piece][1..] == [];
    assert Concat([piece]) == piece + [];
  }

  lemma NothingRead(s: Stream)
    ensures Advances(s, [], s)
  {
  }

  lemma ReadMore(s: Stream, fed: Bytes, before: Stream, data: Bytes, after: Stream)
    requires Advances(s, fed, before) && Advances(before, data, after)
    ensures Advances(s, fed + data, after) && fed + data <= s.bytes && fed <= s.bytes
    ensures data == [] ==> Advances(s, fed, after)
    ensures |after.bytes| == |before.bytes| - |data| && |fed| + |data| <= |s.bytes|
  {
    assert (fed + data) + after.bytes == fed + (data + after.bytes);
  }

  lemma AllRead(s: Stream, fed: Bytes, after: Stream)
    requires Advances(s, fed, after) && after.bytes == []
    ensures fed == s.bytes && after.end == s.end
  {
  }

  lemma FoldNothing(ex: Extractors)
    ensures Fold(NOTHING_SEEN, [], ex) == (NOTHING_SEEN, [])
  {
  }

  method ReportEnd(err: ReadError, fed: Bytes, ctx: Context, maxBytes: int, json: Json) returns (v: Verdict)
    ensures v == CopyVerdict(Stream(fed, err), ctx, maxBytes, json)
  {
    if err.IdleTimeout? {
      return Failed(IdleTimedOut);
    }
    match ctx {
      case ContextCanceled => return Failed(Canceled);
      case ContextDeadline => return Failed(DeadlineExceeded);
      case Active =>
        if !err.Eof? {
          return Failed(ReadBroken);
        }
        v := Track(fed, maxBytes, json);
    }
  }

  lemma {:induction false} NextEventReadError(group: seq<Bytes>, s: Stream, limits: Limits)
    ensures var r := NextEvent(group, s, limits); r.Fail? && r.err.ReadFailed? ==> r.err.err == s.end && !s.end.Eof?
    decreases |s.bytes|
  {
    var r := ReadOne(group, s, limits);
    if r.More? {
      NextEventReadError(group + [r.line], Stream(r.rest, s.end), limits);
    }
  }

  /** A read error the parser reports is the one the stream ends in. */
  lemma {:induction false} ParseReadError(s: Stream, limits: Limits)
    ensures Parse(s, limits).1.ReadFailed? ==> Parse(s, limits).1.err == s.end && !s.end.Eof?
    decreases |s.bytes|
  {
    NextEventReadError([], s, limits);
    var r := NextEvent([], s, limits);
    if r.Dispatch? {
      ParseReadError(Stream(r.rest, s.end), limits);
    }
  }

  lemma EventFailures(e: Event, json: Json)
    ensures AsVerdict(ParseEvent(e, json).err) !in {Failed(IdleTimedOut), Failed(ReadBroken)}
  {
  }

  /** Only an undisturbed read error gives the aggregate a read error's verdict. */
  lemma {:induction false} ReadErrorVerdict(parsed: (seq<Event>, ParseError), end: ReadError, json: Json)
    requires end.IdleTimeout? || end.Broken?
    requires parsed.1.ReadFailed? ==> parsed.1.err == end
    ensures AggregateOf(parsed, Active, json).verdict == Failed(if end.IdleTimeout? then IdleTimedOut else ReadBroken)
            <==> parsed.1 == ReadFailed(end) && forall j :: 0 <= j < |parsed.0| ==> !Decides(parsed.0[j], json)
  {
    var i := FindDecision(parsed.0, json);
    AggregateIsFirstDecision(parsed, i, Active, json);
    if i < |parsed.0| {
      EventFailures(parsed.0[i], json);
    }
  }

  /**
   * Copying and aggregating the same body within the limit agree exactly when the body ends in
   * EOF, or when its read error strikes before any event decides and before any limit breaks.
   */
  lemma {:induction false} CopyAgreesWithAggregate(s: Stream, maxBytes: int, json: Json)
    requires |s.bytes| <= EffectiveMax(maxBytes) && !s.end.TooLarge?
    ensures var parsed := ParsedBody(s, maxBytes);
            CopyVerdict(s, Active, maxBytes, json) == AggregateOf(parsed, Active, json).verdict
            <==> || s.end.Eof?
                 || (parsed.1 == ReadFailed(s.end) && forall j :: 0 <= j < |parsed.0| ==> !Decides(parsed.0[j], json))
  {
    var parsed := ParsedBody(s, maxBytes);
    if s.end.Eof? {
      SameVerdict(parsed, json);
    } else {
      ParseReadError(s, WithDefaults(ConsumerLimits(EffectiveMax(maxBytes))));
      ReadErrorVerdict(parsed, s.end, json);
    }
  }
}
