/** The incremental parser: builders and counters filled line by line from a buffered reader. */
module SseParsing {
  import opened Options
  import opened Bytes
  import opened SseReaders
  import opened SseFormat

  datatype NextResult = Ok(event: Event) | Err(err: ParseError)

  class SseParser {
    const reader: BufferedReader
    const limits: Limits
    var event: Bytes
    var data: Bytes
    var eventN: int
    var dataN: int
    var hasField: bool
    var hasData: bool
    /** The non-blank lines accepted since the last event. */
    ghost var group: seq<Bytes>

    constructor (reader: BufferedReader, limits: Limits)
      requires reader.Valid()
      ensures Valid() && group == []
      ensures this.reader == reader && this.limits == WithDefaults(limits)
    {
      this.reader := reader;
      this.limits := WithDefaults(limits);
      event, data, eventN, dataN, hasField, hasData := [], [], 0, 0, false, false;
      group := [];
    }

    ghost function State(): Summary
      reads this
    {
      Summary(event, data, eventN, hasField, hasData)
    }

    ghost predicate Valid()
      reads this, reader, reader.reader, reader.reader.source
    {
      reader.Valid() && Positive(limits) && dataN == |data| && State() == Summarize(group)
    }

    method ResetEvent()
      modifies this
      ensures State() == Summarize([]) && group == [] && dataN == |data|
    {
      event, data, eventN, dataN, hasField, hasData := [], [], 0, 0, false, false;
      group := [];
    }

    /** One physical line, however the buffered reader cuts it into slices. */
    method ReadLine() returns (r: LineRead)
      requires reader.Valid() && Positive(limits)
      modifies reader, reader.reader, reader.reader.source
      ensures reader.Valid()
      ensures r == NextLine(old(reader.rest), limits.maxLine)
      ensures r.Whole? ==> Advances(old(reader.rest), r.raw, reader.rest)
    {
      var line: Bytes := [];
      while true
        invariant reader.Valid() && Advances(old(reader.rest), line, reader.rest)
        invariant LF !in line && |line| <= limits.maxLine
        decreases |reader.rest.bytes|
      {
        var chunk, status := reader.ReadSlice();
        SliceExtendsLine(old(reader.rest), line, chunk, status, reader.rest);
        if |line| > limits.maxLine - |chunk| {
          return Refused(LineTooLarge);
        }
        line := line + chunk;
        if status.Line? {
          return Whole(line);
        }
        if status.Ended? {
          return if status.err.Eof? then Tail(line) else Refused(ReadFailed(status.err));
        }
      }
    }

    method AccountEventLine(n: nat) returns (err: Option<ParseError>)
      modifies this`eventN
      ensures err == if old(eventN) + n > limits.maxEvent then Some(EventTooLarge) else None
      ensures eventN == if err.None? then old(eventN) + n else old(eventN)
    {
      if n > limits.maxEvent - eventN {
        return Some(EventTooLarge);
      }
      eventN := eventN + n;
      return None;
    }

    method AppendData(value: Bytes) returns (err: Option<ParseError>)
      requires dataN == |data|
      modifies this`data, this`dataN, this`hasData
      ensures var joined := if old(hasData) then old(data) + [LF] + value else old(data) + value;
              if |joined| > limits.maxData
              then err == Some(DataTooLarge) && data == old(data) && dataN == old(dataN) && hasData == old(hasData)
              else err == None && data == joined && dataN == |data| && hasData
    {
      var separator := if hasData then 1 else 0;
      if separator > limits.maxData - dataN || |value| > limits.maxData - dataN - separator {
        return Some(DataTooLarge);
      }
      if hasData {
        data := data + [LF];
      }
      data := data + value;
      dataN := dataN + separator + |value|;
      hasData := true;
      return None;
    }

    /** Accepts one non-blank line into the pending event, or reports the limit it breaks. */
    method AcceptLine(line: Bytes) returns (err: Option<ParseError>)
      requires dataN == |data| && (hasData || data == [])
      modifies this
      ensures group == old(group) && dataN == |data|
      ensures err == Overflow(old(State()), line, limits)
      ensures err.None? ==> State() == Extend(old(State()), line)
    {
      err := AccountEventLine(|line|);
      if err.Some? || IsComment(line) {
        return;
      }
      hasField := true;
      var (field, value) := SplitField(line);
      if field == EVENT_FIELD {
        event := value;
      } else if field == DATA_FIELD {
        err := AppendData(value);
      }
    }

    /** Ends the pending event at a blank line, or takes the line into it within the limits. */
    method TakeLine(line: Bytes) returns (r: Option<NextResult>)
      requires dataN == |data| && State() == Summarize(group)
      modifies this
      ensures dataN == |data| && State() == Summarize(group)
      ensures if line == [] then r == Some(Ok(EventOf(old(group)))) && group == []
              else if LimitError(old(group) + [line], limits).Some? then r == Some(Err(LimitError(old(group) + [line], limits).value))
              else r == None && group == old(group) + [line]
    {
      NoDataIsEmpty(group);
      hide EventBytes, HasField, EventName, DataValues, Join, Extend, Overflow, LimitError;
      if line == [] {
        r := Some(Ok(Event(event, data, hasData)));
        ResetEvent();
        return;
      }
      SummarizeSnoc(group, line, limits);
      var err := AcceptLine(line);
      if err.Some? {
        ResetEvent();
        return Some(Err(err.value));
      }
      group := group + [line];
      return None;
    }

    /** Reads one line into the pending event; the result is None when the event goes on. */
    method Step() returns (r: Option<NextResult>)
      requires Valid()
      modifies this, reader, reader.reader, reader.reader.source
      ensures Valid()
      ensures Reports(ReadOne(old(group), old(reader.rest), limits), old(group), old(reader.rest.end), r)
    {
      hide HasField, TrimLineEnding, LimitError, EventOf, NextLine;
      ghost var s := reader.rest;
      var read := ReadLine();
      match read {
        case Refused(err) => return Some(Err(err));
        case Tail(raw) =>
          if raw == [] && !hasField {
            return Some(Err(EndOfStream));
          }
          ResetEvent();
          return Some(Err(UnexpectedEof));
        case Whole(raw) =>
          assert reader.rest == Stream(s.bytes[|raw|..], s.end);
          r := TakeLine(TrimLineEnding(raw));
      }
    }

    ghost predicate Reports(verdict: LineVerdict, before: seq<Bytes>, end: ReadError, r: Option<NextResult>)
      reads this, reader
    {
      match verdict
      case Done(Fail(err)) => r == Some(Err(err))
      case Done(Dispatch(event, rest)) => r == Some(Ok(event)) && group == [] && reader.rest == Stream(rest, end)
      case More(line, rest) => r == None && group == before + [line] && reader.rest == Stream(rest, end)
    }

    method Next() returns (r: NextResult)
      requires Valid()
      modifies this, reader, reader.reader, reader.reader.source
      ensures Valid()
      ensures match NextEvent(old(group), old(reader.rest), limits)
              case Fail(err) => r == Err(err)
              case Dispatch(event, rest) =>
                r == Ok(event) && group == [] && reader.rest == Stream(rest, old(reader.rest.end))
    {
      ghost var expected := NextEvent(group, reader.rest, limits);
      while true
        invariant Valid() && reader.rest.end == old(reader.rest.end)
        invariant NextEvent(group, reader.rest, limits) == expected
        decreases |reader.rest.bytes|
      {
        var read := Step();
        if read.Some? {
          return read.value;
        }
      }
    }
  }

  lemma NoDataIsEmpty(group: seq<Bytes>)
    ensures DataValues(group) == [] ==> Join(DataValues(group)) == []
  {
  }

  /** A slice that does not yet end the line leaves the verdict on the line open. */
  lemma SliceExtendsLine(s: Stream, line: Bytes, chunk: Bytes, status: SliceStatus, rest: Stream)
    requires line + (chunk + rest.bytes) == s.bytes && LF !in line && rest.end == s.end
    requires IsSlice(chunk, status, rest)
    ensures Advances(s, line + chunk, rest) && line + chunk == s.bytes[..|line + chunk|]
    ensures status.Line? ==> IndexByte(s.bytes, LF) + 1 == |line + chunk|
    ensures !status.Line? ==> |line + chunk| <= IndexByte(s.bytes, LF) && LF !in line + chunk
    ensures status.Ended? ==> line + chunk == s.bytes
  {
    var whole := line + chunk;
    var n := IndexByte(s.bytes, LF);
    assert whole + rest.bytes == s.bytes;
    assert whole == s.bytes[..|whole|];
    assert n < |whole| ==> s.bytes[n] == whole[n];
    if status.Line? {
      assert forall k :: 0 <= k < |whole| - 1 ==> s.bytes[k] == if k < |line| then line[k] else chunk[..|chunk| - 1][k - |line|];
      IndexByteUnique(s.bytes, LF, |whole| - 1);
    }
  }

  /** Calls Next until it fails, as every consumer of the parser does. */
  method Drain(p: SseParser) returns (events: seq<Event>, err: ParseError)
    requires p.Valid() && p.group == []
    modifies p, p.reader, p.reader.reader, p.reader.reader.source
    ensures (events, err) == Parse(old(p.reader.rest), p.limits)
  {
    ghost var total := Parse(p.reader.rest, p.limits);
    events := [];
    while true
      invariant p.Valid() && p.group == []
      invariant IsTail(total, events, Parse(p.reader.rest, p.limits))
      decreases |p.reader.rest.bytes|
    {
      ghost var here := p.reader.rest;
      var r := p.Next();
      ParseStep(here, p.limits, total, events);
      if r.Err? {
        return events, r.err;
      }
      events := events + [r.event];
    }
  }

  ghost predicate IsTail(total: (seq<Event>, ParseError), events: seq<Event>, tail: (seq<Event>, ParseError)) {
    total.0 == events + tail.0 && total.1 == tail.1
  }

  lemma {:induction false} ParseStep(s: Stream, limits: Limits, total: (seq<Event>, ParseError), events: seq<Event>)
    requires IsTail(total, events, Parse(s, limits))
    ensures match NextEvent([], s, limits)
            case Fail(err) => total == (events, err)
            case Dispatch(event, rest) => IsTail(total, events + [event], Parse(Stream(rest, s.end), limits))
  {
    match NextEvent([], s, limits)
    case Fail(err) =>
      assert events + [] == events;
    case Dispatch(event, rest) =>
      var tail := Parse(Stream(rest, s.end), limits).0;
      assert events + ([event] + tail) == (events + [event]) + tail;
  }

  /** The whole stack over one body: neither the read sizes nor the buffer show in the result. */
  method ParseBody(chunks: seq<Bytes>, end: ReadError, eager: bool, maxBytes: int, limits: Limits)
    returns (events: seq<Event>, err: ParseError)
    requires forall i :: 0 <= i < |chunks| ==> chunks[i] != []
    ensures var whole := Stream(Concat(chunks), end);
            (events, err) == Parse(if maxBytes > 0 then Limited(whole, maxBytes) else whole, WithDefaults(limits))
  {
    var source := new ByteSource(chunks, end, eager);
    var bounded := new BoundedReader(source, maxBytes);
    var buffered := new BufferedReader(bounded);
    var parser := new SseParser(buffered, limits);
    events, err := Drain(parser);
  }
}
