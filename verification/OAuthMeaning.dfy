/**
 * What an OAuth event stream answers, written out from the bytes of its events:
 * which events end the stream, what each of them makes the answer, and what the
 * answer is when the stream stops without one.
 */
module OAuthMeaning {
  import opened Options
  import opened Bytes
  import opened SseFormat
  import opened SseParsing
  import opened SseReaders
  import opened SseLimits
  import opened SseRoundTrip
  import opened OAuthConsumers

  // ---------- Reading one event ----------

  /** The event has text in its data and is not named "error". */
  ghost predicate Readable(e: Event, json: Json) {
    e.hasData && json.trim(e.data) != [] && !Spells(json.trim(e.name), "error")
  }

  /** Readable data, other than the closing mark, that is valid JSON and an envelope. */
  ghost predicate Enveloped(e: Event, json: Json) {
    var data := json.trim(e.data);
    Readable(e, json) && !Spells(data, "[DONE]") && json.valid(data) && json.decode(data).Some?
  }

  /** The envelope's type, or where that is blank the event's name, is the given one. */
  ghost predicate Typed(e: Event, kind: string, json: Json) {
    Enveloped(e, json) &&
    var own := json.trim(json.decode(json.trim(e.data)).value.kind);
    if own != [] then Spells(own, kind) else Spells(json.trim(e.name), kind)
  }

  ghost function Body(e: Event, json: Json): Bytes
    requires Enveloped(e, json)
  {
    json.trim(json.decode(json.trim(e.data)).value.response)
  }

  /** The envelope carries a response, and it is a JSON object. */
  ghost predicate CarriesObject(e: Event, json: Json)
    requires Enveloped(e, json)
  {
    Body(e, json) != [] && Body(e, json)[0] as char == '{' && json.valid(Body(e, json))
  }

  ghost predicate Closing(e: Event, json: Json) {
    Typed(e, "response.completed", json) || Typed(e, "response.failed", json) || Typed(e, "response.incomplete", json)
  }

  // ---------- The events that end a stream ----------

  ghost predicate Completes(e: Event, json: Json) {
    Typed(e, "response.completed", json) && CarriesObject(e, json)
  }

  ghost predicate Fails(e: Event, json: Json) {
    Typed(e, "response.failed", json) && CarriesObject(e, json)
  }

  ghost predicate BreaksOff(e: Event, json: Json) {
    Typed(e, "response.incomplete", json) && CarriesObject(e, json)
  }

  ghost predicate ReportsError(e: Event, json: Json) {
    || (e.hasData && json.trim(e.data) != [] && Spells(json.trim(e.name), "error"))
    || Typed(e, "error", json)
  }

  /** Blank data, data that is no JSON envelope, or a closing event without a response object. */
  ghost predicate IsMalformed(e: Event, json: Json) {
    var data := json.trim(e.data);
    || (e.hasData && data == [])
    || (Readable(e, json) && !Spells(data, "[DONE]") && (!json.valid(data) || json.decode(data).None?))
    || (Closing(e, json) && !CarriesObject(e, json))
  }

  ghost predicate Ends(e: Event, json: Json) {
    Completes(e, json) || Fails(e, json) || BreaksOff(e, json) || ReportsError(e, json) || IsMalformed(e, json)
  }

  lemma KindsDiffer(b: Bytes)
    ensures !(Spells(b, "response.completed") && Spells(b, "response.failed"))
    ensures !(Spells(b, "response.completed") && Spells(b, "response.incomplete"))
    ensures !(Spells(b, "response.failed") && Spells(b, "response.incomplete"))
    ensures !(Spells(b, "error") && (Spells(b, "response.completed") || Spells(b, "response.failed") || Spells(b, "response.incomplete")))
  {
    assert |"error"| == 5 && |"response.completed"| == 18 && |"response.failed"| == 15 && |"response.incomplete"| == 19;
  }

  /** No event ends a stream in two ways. */
  lemma OneEnding(e: Event, json: Json)
    ensures Completes(e, json) ==> !Fails(e, json) && !BreaksOff(e, json) && !ReportsError(e, json) && !IsMalformed(e, json)
    ensures Fails(e, json) ==> !BreaksOff(e, json) && !ReportsError(e, json) && !IsMalformed(e, json)
    ensures BreaksOff(e, json) ==> !ReportsError(e, json) && !IsMalformed(e, json)
    ensures ReportsError(e, json) ==> !IsMalformed(e, json)
  {
    hide Spells;
    KindsDiffer(json.trim(e.name));
    if Enveloped(e, json) {
      KindsDiffer(json.trim(json.decode(json.trim(e.data)).value.kind));
    }
  }

  // ---------- The decoder reads events this way ----------

  lemma SpellsKinds(b: Bytes)
    ensures Spells(b, "error") <==> b == Ascii("error")
    ensures Spells(b, "[DONE]") <==> b == Ascii("[DONE]")
    ensures Spells(b, "response.completed") <==> b == Ascii("response.completed")
    ensures Spells(b, "response.failed") <==> b == Ascii("response.failed")
    ensures Spells(b, "response.incomplete") <==> b == Ascii("response.incomplete")
  {
    hide Spells;
    SpellsAscii(b, "error");
    SpellsAscii(b, "[DONE]");
    SpellsAscii(b, "response.completed");
    SpellsAscii(b, "response.failed");
    SpellsAscii(b, "response.incomplete");
  }

  /** What ParseEvent answers for every kind of event. */
  lemma EventMeaning(e: Event, json: Json)
    ensures Completes(e, json) ==> ParseEvent(e, json) == EventResult(true, OutcomeCompleted, Body(e, json), None)
    ensures Fails(e, json) ==> ParseEvent(e, json) == EventResult(true, OutcomeFailed, Body(e, json), Some(ResponseFailed))
    ensures BreaksOff(e, json) ==> ParseEvent(e, json) == EventResult(true, OutcomeIncomplete, Body(e, json), Some(ResponseIncomplete))
    ensures ReportsError(e, json) ==> ParseEvent(e, json) == EventResult(false, OutcomeError, [], Some(StreamError))
    ensures IsMalformed(e, json) ==> ParseEvent(e, json) == EventResult(false, OutcomeMalformed, [], Some(Malformed))
    ensures !Ends(e, json) ==> ParseEvent(e, json) == EventResult(false, NoOutcome, [], None)
  {
    hide Spells, Ascii;
    SpellsKinds(json.trim(e.name));
    SpellsKinds(json.trim(e.data));
    KindsDiffer(json.trim(e.name));
    if Enveloped(e, json) {
      var own := json.trim(json.decode(json.trim(e.data)).value.kind);
      SpellsKinds(own);
      KindsDiffer(own);
    }
  }

  /** A stream is decided by exactly the events that end it. */
  lemma DecidesIsEnds(e: Event, json: Json)
    ensures Decides(e, json) <==> Ends(e, json)
  {
    hide Ends, Completes, Fails, BreaksOff, ReportsError, IsMalformed, ParseEvent;
    EventMeaning(e, json);
    assert Ends(e, json) ==> Completes(e, json) || Fails(e, json) || BreaksOff(e, json) || ReportsError(e, json) || IsMalformed(e, json) by {
      EndsHow(e, json);
    }
  }

  lemma EndsHow(e: Event, json: Json)
    ensures Ends(e, json) ==> Completes(e, json) || Fails(e, json) || BreaksOff(e, json) || ReportsError(e, json) || IsMalformed(e, json)
  {
    hide Completes, Fails, BreaksOff, ReportsError, IsMalformed;
  }

  // ---------- What the stream answers ----------

  /** Event i is the first one that ends the stream. */
  ghost predicate FirstEnding(events: seq<Event>, i: nat, json: Json) {
    i < |events| && Ends(events[i], json) && forall j :: 0 <= j < i ==> !Ends(events[j], json)
  }

  /** The first ending event fixes the verdict, the outcome and the body of the answer. */
  lemma Answer(parsed: (seq<Event>, ParseError), i: nat, ctx: Context, json: Json)
    requires FirstEnding(parsed.0, i, json)
    ensures var e, a := parsed.0[i], AggregateOf(parsed, ctx, json);
            && (Completes(e, json) ==> a == Aggregated(Succeeded, OutcomeCompleted, Body(e, json)))
            && (Fails(e, json) ==> a == Aggregated(Failed(ResponseFailed), OutcomeFailed, Body(e, json)))
            && (BreaksOff(e, json) ==> a == Aggregated(Failed(ResponseIncomplete), OutcomeIncomplete, Body(e, json)))
            && (ReportsError(e, json) ==> a == Aggregated(Failed(StreamError), OutcomeError, []))
            && (IsMalformed(e, json) ==> a == Aggregated(Failed(Malformed), OutcomeMalformed, []))
  {
    hide Ends, Completes, Fails, BreaksOff, ReportsError, IsMalformed, ParseEvent, AggregateOf, Enveloped;
    var e := parsed.0[i];
    forall j | 0 <= j <= i ensures Decides(parsed.0[j], json) <==> Ends(parsed.0[j], json) {
      DecidesIsEnds(parsed.0[j], json);
    }
    AggregateIsFirstDecision(parsed, i, ctx, json);
    EventMeaning(e, json);
  }

  /** Without an ending event the context, and only in a live context the parser's error, fixes the failure. */
  lemma NoAnswer(parsed: (seq<Event>, ParseError), ctx: Context, json: Json)
    requires forall j :: 0 <= j < |parsed.0| ==> !Ends(parsed.0[j], json)
    ensures var a := AggregateOf(parsed, ctx, json);
            && a.outcome == NoOutcome && a.body == []
            && (ctx == ContextCanceled ==> a.verdict == Failed(Canceled))
            && (ctx == ContextDeadline ==> a.verdict == Failed(DeadlineExceeded))
            && (ctx == Active ==> a.verdict == Failed(StreamFailure(parsed.1)))
  {
    hide Ends, ParseEvent, AggregateOf;
    forall j | 0 <= j < |parsed.0| ensures !Decides(parsed.0[j], json) {
      DecidesIsEnds(parsed.0[j], json);
    }
    AggregateIsFirstDecision(parsed, |parsed.0|, ctx, json);
  }

  /** The failure of a stream that stopped with the given error. */
  function StreamFailure(err: ParseError): Failure {
    match err
    case EndOfStream => TerminalMissing
    case UnexpectedEof => Truncated
    case LineTooLarge => ResponseTooLarge
    case EventTooLarge => ResponseTooLarge
    case DataTooLarge => ResponseTooLarge
    case ReadFailed(TooLarge) => ResponseTooLarge
    case ReadFailed(IdleTimeout) => IdleTimedOut
    case ReadFailed(_) => ReadBroken
  }

  /** The tracker answers a body that ended well as the aggregator would. */
  lemma TrackAnswer(parsed: (seq<Event>, ParseError), i: nat, json: Json)
    requires FirstEnding(parsed.0, i, json)
    ensures TrackOf(parsed, json) ==
            if Completes(parsed.0[i], json) then Succeeded
            else if Fails(parsed.0[i], json) then Failed(ResponseFailed)
            else if BreaksOff(parsed.0[i], json) then Failed(ResponseIncomplete)
            else if ReportsError(parsed.0[i], json) then Failed(StreamError)
            else Failed(Malformed)
  {
    hide Ends, Completes, Fails, BreaksOff, ReportsError, IsMalformed, AggregateOf, TrackOf;
    SameVerdict(parsed, json);
    Answer(parsed, i, Active, json);
    EndsHow(parsed.0[i], json);
  }

  lemma TrackNothing(parsed: (seq<Event>, ParseError), json: Json)
    requires forall j :: 0 <= j < |parsed.0| ==> !Ends(parsed.0[j], json)
    ensures TrackOf(parsed, json) == Failed(StreamFailure(parsed.1))
  {
    hide Ends, AggregateOf, TrackOf, StreamFailure;
    SameVerdict(parsed, json);
    NoAnswer(parsed, Active, json);
  }

  lemma FindEnding(events: seq<Event>, json: Json) returns (i: nat)
    ensures i <= |events| && forall j :: 0 <= j < i ==> !Ends(events[j], json)
    ensures i < |events| ==> FirstEnding(events, i, json)
    ensures forall k: nat :: FirstEnding(events, k, json) ==> k == i
  {
    hide Ends;
    i := 0;
    while i < |events| && !Ends(events[i], json)
      invariant i <= |events| && forall j :: 0 <= j < i ==> !Ends(events[j], json)
    {
      i := i + 1;
    }
  }

  /** Success happens exactly when the first ending event is a well-formed completion. */
  lemma SuccessIsCompletion(parsed: (seq<Event>, ParseError), ctx: Context, json: Json)
    ensures AggregateOf(parsed, ctx, json).verdict == Succeeded <==>
            exists i: nat :: FirstEnding(parsed.0, i, json) && Completes(parsed.0[i], json)
  {
    hide Ends, Completes, Fails, BreaksOff, ReportsError, IsMalformed, AggregateOf;
    var i := FindEnding(parsed.0, json);
    if i < |parsed.0| {
      Answer(parsed, i, ctx, json);
      EndsHow(parsed.0[i], json);
    } else {
      NoAnswer(parsed, ctx, json);
    }
  }

  // ---------- The copy and the aggregator ----------

  /** Out of context, the two report a stream nothing ended, and that did not go idle, alike. */
  lemma CopyOutOfContext(s: Stream, ctx: Context, maxBytes: int, json: Json)
    requires ctx != Active && !s.end.IdleTimeout?
    requires forall j :: 0 <= j < |ParsedBody(s, maxBytes).0| ==> !Ends(ParsedBody(s, maxBytes).0[j], json)
    ensures CopyVerdict(s, ctx, maxBytes, json) == AggregateOf(ParsedBody(s, maxBytes), ctx, json).verdict
    ensures CopyVerdict(s, ctx, maxBytes, json) == Failed(if ctx.ContextCanceled? then Canceled else DeadlineExceeded)
  {
    hide Ends, AggregateOf, ParsedBody;
    NoAnswer(ParsedBody(s, maxBytes), ctx, json);
  }

  /**
   * Whatever the decoder: a body that holds one completion and then breaks off is a success to the aggregator and a
   * broken read to the copy.
   */
  lemma {:induction false} CopyMayDisagree(m: Message, maxBytes: int, json: Json)
    requires Printable(m, WithDefaults(ConsumerLimits(EffectiveMax(maxBytes)))) && |Print(m)| <= EffectiveMax(maxBytes)
    requires Completes(Event(m.name, m.payload, true), json)
    ensures var s := Stream(Print(m), Broken);
            && AggregateOf(ParsedBody(s, maxBytes), Active, json).verdict == Succeeded
            && CopyVerdict(s, Active, maxBytes, json) == Failed(ReadBroken)
  {
    hide Completes, Printable, Print, ParsedBody, AggregateOf, Ends;
    var p := Print(m);
    OnlyEvent(m, maxBytes);
    var parsed := ParsedBody(Stream(p, Eof), maxBytes);
    CompletionDecides(parsed.0, json);
    assert p + [] == p;
    LaterBytesIgnored(p, [], Broken, maxBytes, 0, Active, json);
    SuccessIsCompletion(parsed, Active, json);
  }

  lemma OnlyEvent(m: Message, maxBytes: int)
    requires Printable(m, WithDefaults(ConsumerLimits(EffectiveMax(maxBytes)))) && |Print(m)| <= EffectiveMax(maxBytes)
    ensures ParsedBody(Stream(Print(m), Eof), maxBytes).0 == [Event(m.name, m.payload, true)]
  {
    hide Printable, Print;
    assert [m][1..] == [] && PrintAll([]) == [] && Expected([]) == [];
    assert PrintAll([m]) == Print(m) + [] == Print(m);
    RoundTrip([m], WithDefaults(ConsumerLimits(EffectiveMax(maxBytes))));
  }

  lemma CompletionDecides(events: seq<Event>, json: Json)
    requires events != [] && Completes(events[0], json)
    ensures FirstDecision(events, 0, json) && FirstEnding(events, 0, json)
  {
    DecidesIsEnds(events[0], json);
  }
}
