/** Writing events as `event: name`, `data: payload`, blank line, and reading them back. */
module SseRoundTrip {
  import opened Bytes
  import opened SseReaders
  import opened SseFormat

  datatype Message = Message(name: Bytes, payload: Bytes)

  function EventLine(m: Message): Bytes {
    EVENT_FIELD + [COLON, SPACE] + m.name
  }

  function DataLine(m: Message): Bytes {
    DATA_FIELD + [COLON, SPACE] + m.payload
  }

  function Print(m: Message): Bytes {
    EventLine(m) + [LF] + (DataLine(m) + [LF] + [LF])
  }

  function PrintAll(ms: seq<Message>): Bytes {
    if ms == [] then [] else Print(ms[0]) + PrintAll(ms[1..])
  }

  function Expected(ms: seq<Message>): seq<Event> {
    if ms == [] then [] else [Event(ms[0].name, ms[0].payload, true)] + Expected(ms[1..])
  }

  /** No line feed and no final carriage return. */
  predicate Clean(value: Bytes) {
    LF !in value && (value == [] || value[|value| - 1] != CR)
  }

  predicate Fits(m: Message, limits: Limits) {
    |EventLine(m)| + 1 <= limits.maxLine && |DataLine(m)| + 1 <= limits.maxLine &&
    |EventLine(m)| + |DataLine(m)| <= limits.maxEvent && |m.payload| <= limits.maxData
  }

  predicate Printable(m: Message, limits: Limits) {
    Clean(m.name) && Clean(m.payload) && Fits(m, limits)
  }

  // ---------- Reading one written line ----------

  lemma {:induction false} ReadWrittenLine(group: seq<Bytes>, line: Bytes, rest: Bytes, end: ReadError, limits: Limits)
    requires LF !in line
    ensures var s := Stream(line + [LF] + rest, end);
            var trimmed := TrimLineEnding(line + [LF]);
            ReadOne(group, s, limits) ==
            if |line| + 1 > limits.maxLine then Done(Fail(LineTooLarge))
            else if trimmed == [] then Done(Dispatch(EventOf(group), rest))
            else if LimitError(group + [trimmed], limits).Some? then Done(Fail(LimitError(group + [trimmed], limits).value))
            else More(trimmed, rest)
  {
    var bytes := line + [LF] + rest;
    assert forall k :: 0 <= k < |line| ==> bytes[k] == line[k];
    IndexByteUnique(bytes, LF, |line|);
    assert bytes[..|line| + 1] == line + [LF] && bytes[|line| + 1..] == rest;
  }

  lemma TrimWritten(line: Bytes)
    requires line != []
    ensures TrimLineEnding(line + [LF]) == if line[|line| - 1] == CR then line[..|line| - 1] else line
  {
    assert (line + [LF])[..|line|] == line;
  }

  lemma SplitWritten(field: Bytes, value: Bytes)
    requires COLON !in field
    ensures SplitField(field + [COLON, SPACE] + value) == (field, value)
  {
    var line := field + [COLON, SPACE] + value;
    assert forall k :: 0 <= k < |field| ==> line[k] == field[k];
    IndexByteUnique(line, COLON, |field|);
    assert line[..|field|] == field && line[|field| + 1..] == [SPACE] + value;
  }

  /** A written field line, read back: a final CR of the value is lost and nothing else. */
  lemma ReadField(field: Bytes, value: Bytes)
    requires COLON !in field && CR !in field
    ensures var trimmed := TrimLineEnding(field + [COLON, SPACE] + value + [LF]);
            trimmed == field + [COLON, SPACE] + Kept(value) && SplitField(trimmed) == (field, Kept(value))
  {
    var line := field + [COLON, SPACE] + value;
    TrimWritten(line);
    assert value != [] ==> line[..|line| - 1] == field + [COLON, SPACE] + value[..|value| - 1];
    SplitWritten(field, Kept(value));
  }

  function Kept(value: Bytes): Bytes {
    if value != [] && value[|value| - 1] == CR then value[..|value| - 1] else value
  }

  lemma {:induction false} OneLineGroup(l1: Bytes, name: Bytes)
    requires SplitField(l1) == (EVENT_FIELD, name)
    ensures EventBytes([l1]) == |l1| && EventName([l1]) == name && DataValues([l1]) == []
  {
    GroupSnoc([], l1);
    assert [] + [l1] == [l1];
  }

  lemma {:induction false} TwoLineGroup(l1: Bytes, l2: Bytes, name: Bytes, payload: Bytes)
    requires SplitField(l1) == (EVENT_FIELD, name) && SplitField(l2) == (DATA_FIELD, payload)
    ensures EventBytes([l1] + [l2]) == |l1| + |l2|
    ensures DataValues([l1] + [l2]) == [payload]
    ensures EventOf([l1] + [l2]) == Event(name, payload, true)
  {
    OneLineGroup(l1, name);
    GroupSnoc([l1], l2);
    assert [] + [payload] == [payload];
  }

  lemma {:induction false} ReadBlank(group: seq<Bytes>, rest: Bytes, end: ReadError, limits: Limits)
    requires 1 <= limits.maxLine
    ensures NextEvent(group, Stream([LF] + rest, end), limits) == Dispatch(EventOf(group), rest)
  {
    assert [] + [LF] + rest == [LF] + rest;
    ReadWrittenLine(group, [], rest, end, limits);
    assert TrimLineEnding([] + [LF]) == [];
  }

  lemma {:induction false} ReadDataLine(l1: Bytes, m: Message, rest: Bytes, end: ReadError, limits: Limits)
    requires LF !in m.payload && SplitField(l1) == (EVENT_FIELD, Kept(m.name))
    ensures var l2 := DATA_FIELD + [COLON, SPACE] + Kept(m.payload);
            ReadOne([l1], Stream(DataLine(m) + [LF] + rest, end), limits) ==
            if |DataLine(m)| + 1 > limits.maxLine then Done(Fail(LineTooLarge))
            else if |l1| + |l2| > limits.maxEvent then Done(Fail(EventTooLarge))
            else if |Kept(m.payload)| > limits.maxData then Done(Fail(DataTooLarge))
            else More(l2, rest)
  {
    hide ReadOne, TrimLineEnding, EventBytes, DataValues, EventOf, SplitField, Kept;
    ReadField(DATA_FIELD, m.payload);
    var l2 := TrimLineEnding(DataLine(m) + [LF]);
    TwoLineGroup(l1, l2, Kept(m.name), Kept(m.payload));
    ReadWrittenLine([l1], DataLine(m), rest, end, limits);
  }

  /** The second field line of a message and the blank line after it. */
  lemma {:induction false} ReadPayload(l1: Bytes, m: Message, rest: Bytes, end: ReadError, limits: Limits)
    requires LF !in m.payload && SplitField(l1) == (EVENT_FIELD, Kept(m.name))
    ensures var l2 := DATA_FIELD + [COLON, SPACE] + Kept(m.payload);
            NextEvent([l1], Stream(DataLine(m) + [LF] + ([LF] + rest), end), limits) ==
            if |DataLine(m)| + 1 > limits.maxLine then Fail(LineTooLarge)
            else if |l1| + |l2| > limits.maxEvent then Fail(EventTooLarge)
            else if |Kept(m.payload)| > limits.maxData then Fail(DataTooLarge)
            else Dispatch(Event(Kept(m.name), Kept(m.payload), true), rest)
  {
    ReadDataLine(l1, m, [LF] + rest, end, limits);
    var l2 := DATA_FIELD + [COLON, SPACE] + Kept(m.payload);
    SplitWritten(DATA_FIELD, Kept(m.payload));
    TwoLineGroup(l1, l2, Kept(m.name), Kept(m.payload));
    if |DataLine(m)| + 1 <= limits.maxLine {
      ReadBlank([l1] + [l2], rest, end, limits);
    }
  }

  lemma {:induction false} ReadEventLine(m: Message, rest: Bytes, end: ReadError, limits: Limits)
    requires LF !in m.name
    ensures var l1 := EVENT_FIELD + [COLON, SPACE] + Kept(m.name);
            SplitField(l1) == (EVENT_FIELD, Kept(m.name)) &&
            ReadOne([], Stream(EventLine(m) + [LF] + rest, end), limits) ==
            if |EventLine(m)| + 1 > limits.maxLine then Done(Fail(LineTooLarge))
            else if |l1| > limits.maxEvent then Done(Fail(EventTooLarge))
            else More(l1, rest)
  {
    ReadField(EVENT_FIELD, m.name);
    var l1 := TrimLineEnding(EventLine(m) + [LF]);
    OneLineGroup(l1, Kept(m.name));
    assert [] + [l1] == [l1];
    ReadWrittenLine([], EventLine(m), rest, end, limits);
  }

  /** One message whose values hold no line feed: which limit it breaks, or what it is read back as. */
  lemma {:induction false} ReadMessage(m: Message, rest: Bytes, end: ReadError, limits: Limits)
    requires LF !in m.name && LF !in m.payload
    ensures var l1, l2 := EVENT_FIELD + [COLON, SPACE] + Kept(m.name), DATA_FIELD + [COLON, SPACE] + Kept(m.payload);
            NextEvent([], Stream(Print(m) + rest, end), limits) ==
            if |EventLine(m)| + 1 > limits.maxLine then Fail(LineTooLarge)
            else if |l1| > limits.maxEvent then Fail(EventTooLarge)
            else if |DataLine(m)| + 1 > limits.maxLine then Fail(LineTooLarge)
            else if |l1| + |l2| > limits.maxEvent then Fail(EventTooLarge)
            else if |Kept(m.payload)| > limits.maxData then Fail(DataTooLarge)
            else Dispatch(Event(Kept(m.name), Kept(m.payload), true), rest)
  {
    var l1 := EVENT_FIELD + [COLON, SPACE] + Kept(m.name);
    var s2 := DataLine(m) + [LF] + ([LF] + rest);
    assert Print(m) + rest == EventLine(m) + [LF] + s2;
    ReadEventLine(m, s2, end, limits);
    ReadPayload(l1, m, rest, end, limits);
    assert [] + [l1] == [l1];
  }

  // ---------- What cannot be read back ----------

  ghost predicate NoLineFeeds(group: seq<Bytes>) {
    forall i :: 0 <= i < |group| ==> LF !in group[i]
  }

  lemma {:induction false} EventNameHasNoLf(group: seq<Bytes>)
    requires NoLineFeeds(group)
    ensures LF !in EventName(group)
  {
    if group != [] {
      EventNameHasNoLf(group[..|group| - 1]);
      var line := group[|group| - 1];
      assert LF !in SplitField(line).1;
    }
  }

  lemma {:induction false} ReadLinesHaveNoLf(group: seq<Bytes>, s: Stream, limits: Limits)
    requires ReadOne(group, s, limits).More?
    ensures LF !in ReadOne(group, s, limits).line
  {
    hide LimitError, HasField, EventOf;
    var n := IndexByte(s.bytes, LF);
    var raw := s.bytes[..n + 1];
    assert TrimLineEnding(raw) <= raw[..n];
  }

  lemma {:induction false} NamesHaveNoLf(group: seq<Bytes>, s: Stream, limits: Limits)
    requires NoLineFeeds(group) && NextEvent(group, s, limits).Dispatch?
    ensures LF !in NextEvent(group, s, limits).event.name
    decreases |s.bytes|
  {
    match ReadOne(group, s, limits)
    case Done(_) => EventNameHasNoLf(group);
    case More(line, rest) =>
      ReadLinesHaveNoLf(group, s, limits);
      NamesHaveNoLf(group + [line], Stream(rest, s.end), limits);
  }

  /** A further line adds less to the data than it takes from the stream. */
  lemma {:induction false} DataGrowsSlowly(group: seq<Bytes>, line: Bytes)
    requires DataValues(group) != []
    ensures DataValues(group + [line]) != []
    ensures |Join(DataValues(group + [line]))| <= |Join(DataValues(group))| + |line|
  {
    GroupSnoc(group, line);
    JoinSnoc(DataValues(group), SplitField(line).1);
  }

  function WithLf(x: Bytes, rest: Bytes): Bytes {
    x + [LF] + rest
  }

  /** The first line of bytes that are followed by a line feed. */
  lemma {:induction false} ReadSegmentLine(group: seq<Bytes>, x: Bytes, rest: Bytes, end: ReadError, limits: Limits)
    requires ReadOne(group, Stream(WithLf(x, rest), end), limits).More?
    ensures var n := IndexByte(x, LF);
            var r := ReadOne(group, Stream(WithLf(x, rest), end), limits);
            |r.line| <= n && r.rest == if n < |x| then WithLf(x[n + 1..], rest) else rest
  {
    hide ReadOne, IndexByte, WithLf;
    var bytes, n := WithLf(x, rest), IndexByte(x, LF);
    FirstLfOf(x, rest, n);
    AfterLfOf(x, rest, n);
    OneLineRead(group, Stream(bytes, end), limits);
  }

  /** What a line that goes on with the event takes from the stream. */
  lemma {:induction false} OneLineRead(group: seq<Bytes>, s: Stream, limits: Limits)
    requires ReadOne(group, s, limits).More?
    ensures var n, r := IndexByte(s.bytes, LF), ReadOne(group, s, limits);
            n < |s.bytes| && |r.line| <= n && r.rest == s.bytes[n + 1..]
  {
    hide LimitError, HasField, EventOf, IndexByte;
  }

  lemma FirstLfOf(x: Bytes, rest: Bytes, n: nat)
    requires n == IndexByte(x, LF)
    ensures IndexByte(WithLf(x, rest), LF) == n < |WithLf(x, rest)|
  {
    hide IndexByte;
    var bytes := WithLf(x, rest);
    forall k | 0 <= k < n ensures bytes[k] != LF {
      assert bytes[k] == x[k];
    }
    assert bytes[n] == if n < |x| then x[n] else LF;
    IndexByteUnique(bytes, LF, n);
  }

  lemma AfterLfOf(x: Bytes, rest: Bytes, n: nat)
    requires n <= |x|
    ensures WithLf(x, rest)[n + 1..] == if n < |x| then WithLf(x[n + 1..], rest) else rest
  {
    if n < |x| {
      assert WithLf(x, rest)[n + 1..] == WithLf(x[n + 1..], rest);
    } else {
      assert WithLf(x, rest)[n + 1..] == rest;
    }
  }

  function Segment(x: Bytes, rest: Bytes): Bytes {
    WithLf(x, [LF] + rest)
  }

  /** What reading one line of a segment leaves to read, and what it adds to the data. */
  lemma {:induction false} SegmentStep(group: seq<Bytes>, s: Stream, x: Bytes, rest: Bytes, limits: Limits)
    requires DataValues(group) != [] && s.bytes == Segment(x, rest) && 1 <= limits.maxLine
    requires ReadOne(group, s, limits).More?
    ensures var n, r := IndexByte(x, LF), ReadOne(group, s, limits);
            && DataValues(group + [r.line]) != []
            && |Join(DataValues(group + [r.line]))| <= |Join(DataValues(group))| + n
            && r.rest == if n < |x| then Segment(x[n + 1..], rest) else [LF] + rest
  {
    hide ReadOne, DataValues, Join, IndexByte, WithLf;
    ReadSegmentLine(group, x, [LF] + rest, s.end, limits);
    DataGrowsSlowly(group, ReadOne(group, s, limits).line);
  }

  lemma {:induction false} DataWithin(group: seq<Bytes>, s: Stream, x: Bytes, rest: Bytes, limits: Limits)
    requires DataValues(group) != [] && s.bytes == Segment(x, rest) && 1 <= limits.maxLine
    requires NextEvent(group, s, limits).Dispatch?
    ensures |NextEvent(group, s, limits).event.data| <= |Join(DataValues(group))| + |x|
    decreases |x|
  {
    NextEventStep(group, s, limits);
    hide NextEvent, ReadOne, Join, DataValues, IndexByte, Segment;
    var r := ReadOne(group, s, limits);
    if r.More? {
      SegmentStep(group, s, x, rest, limits);
      var n := IndexByte(x, LF);
      if n < |x| {
        DataWithin(group + [r.line], Stream(r.rest, s.end), x[n + 1..], rest, limits);
      } else {
        ReadBlank(group + [r.line], rest, s.end, limits);
      }
    }
  }

  /** One step of reading an event; what is dispatched is the group in hand. */
  lemma {:induction false} NextEventStep(group: seq<Bytes>, s: Stream, limits: Limits)
    ensures var r := ReadOne(group, s, limits);
            && (r.Done? ==> NextEvent(group, s, limits) == r.outcome)
            && (r.Done? && r.outcome.Dispatch? ==> r.outcome.event == EventOf(group))
            && (r.More? ==> NextEvent(group, s, limits) == NextEvent(group + [r.line], Stream(r.rest, s.end), limits))
  {
    hide NextLine, TrimLineEnding, LimitError, HasField, EventOf;
  }

  /** The first two lines of a printed message whose payload starts with `head` and a line feed. */
  lemma {:induction false} AfterTwoLines(m: Message, l1: Bytes, l2: Bytes, after: Bytes, end: ReadError, limits: Limits)
    requires LF !in m.name && LF !in m.payload
    requires l1 == EVENT_FIELD + [COLON, SPACE] + Kept(m.name) && l2 == DATA_FIELD + [COLON, SPACE] + Kept(m.payload)
    ensures DataValues([l1] + [l2]) == [Kept(m.payload)]
    ensures var s := Stream(EventLine(m) + [LF] + (DataLine(m) + [LF] + after), end);
            NextEvent([], s, limits).Dispatch? ==>
            1 <= limits.maxLine && NextEvent([], s, limits) == NextEvent([l1] + [l2], Stream(after, end), limits)
  {
    hide ReadOne, EventLine, DataLine, Kept, SplitField, DataValues;
    var s := Stream(EventLine(m) + [LF] + (DataLine(m) + [LF] + after), end);
    NextEventStep([], s, limits);
    NextEventStep([l1], Stream(DataLine(m) + [LF] + after, end), limits);
    hide NextEvent;
    ReadEventLine(m, DataLine(m) + [LF] + after, end, limits);
    assert [] + [l1] == [l1];
    ReadDataLine(l1, m, after, end, limits);
    SplitWritten(DATA_FIELD, Kept(m.payload));
    TwoLineGroup(l1, l2, Kept(m.name), Kept(m.payload));
  }

  lemma {:induction false} PayloadWithLfIsLost(m: Message, rest: Bytes, end: ReadError, limits: Limits)
    requires LF !in m.name && LF in m.payload
    ensures NextEvent([], Stream(Print(m) + rest, end), limits).Dispatch? ==>
            |NextEvent([], Stream(Print(m) + rest, end), limits).event.data| < |m.payload|
  {
    hide NextEvent, Print, IndexByte, Segment, DataValues, Join, EventLine, DataLine;
    var n := IndexByte(m.payload, LF);
    assert n < |m.payload|;
    var head, x := Message(m.name, m.payload[..n]), m.payload[n + 1..];
    PrintInSegments(m, n, rest);
    var l1 := EVENT_FIELD + [COLON, SPACE] + Kept(m.name);
    var l2 := DATA_FIELD + [COLON, SPACE] + Kept(head.payload);
    AfterTwoLines(head, l1, l2, Segment(x, rest), end, limits);
    if NextEvent([], Stream(Print(m) + rest, end), limits).Dispatch? {
      DataWithin([l1] + [l2], Stream(Segment(x, rest), end), x, rest, limits);
      JoinOne(Kept(head.payload));
    }
  }

  lemma JoinOne(value: Bytes)
    ensures Join([value]) == value
  {
  }

  /** A printed message, cut after the first line feed of its payload. */
  lemma PrintInSegments(m: Message, n: nat, rest: Bytes)
    requires n < |m.payload| && m.payload[n] == LF
    ensures var head, x := Message(m.name, m.payload[..n]), m.payload[n + 1..];
            Print(m) + rest == EventLine(head) + [LF] + (DataLine(head) + [LF] + Segment(x, rest))
  {
    var head, x := m.payload[..n], m.payload[n + 1..];
    assert m.payload == head + [LF] + x;
    assert DataLine(m) == DataLine(Message(m.name, head)) + [LF] + x;
  }

  /** A message read back unchanged is printable, and exactly its own bytes were read. */
  lemma {:induction false} ReadBackIsPrintable(m: Message, rest: Bytes, end: ReadError, limits: Limits)
    ensures (exists r :: NextEvent([], Stream(Print(m) + rest, end), limits) ==
                         Dispatch(Event(m.name, m.payload, true), r)) <==> Printable(m, limits)
    ensures Printable(m, limits) ==> NextEvent([], Stream(Print(m) + rest, end), limits) ==
                                     Dispatch(Event(m.name, m.payload, true), rest)
  {
    hide NextEvent, Print;
    var outcome := NextEvent([], Stream(Print(m) + rest, end), limits);
    if LF in m.name {
      if outcome.Dispatch? {
        NamesHaveNoLf([], Stream(Print(m) + rest, end), limits);
      }
    } else if LF in m.payload {
      PayloadWithLfIsLost(m, rest, end, limits);
    } else {
      ReadMessage(m, rest, end, limits);
    }
  }

  /** A list of messages is read back exactly when every one of them is printable. */
  lemma {:induction false} RoundTrip(ms: seq<Message>, limits: Limits)
    requires 1 <= limits.maxLine
    ensures Parse(Stream(PrintAll(ms), Eof), limits) == (Expected(ms), EndOfStream)
            <==> forall i :: 0 <= i < |ms| ==> Printable(ms[i], limits)
  {
    if ms == [] {
      assert ReadOne([], Stream([], Eof), limits) == Done(Fail(EndOfStream));
    } else {
      RoundTrip(ms[1..], limits);
      ReadBackIsPrintable(ms[0], PrintAll(ms[1..]), Eof, limits);
      assert forall i :: 0 < i < |ms| ==> ms[i] == ms[1..][i - 1];
      if Printable(ms[0], limits) {
        ParseFirst(ms, limits);
      } else {
        assert forall r :: NextEvent([], Stream(PrintAll(ms), Eof), limits) !=
                           Dispatch(Event(ms[0].name, ms[0].payload, true), r);
        NotFirst(ms, limits);
      }
    }
  }

  lemma {:induction false} ParseFirst(ms: seq<Message>, limits: Limits)
    requires ms != [] && NextEvent([], Stream(PrintAll(ms), Eof), limits) ==
                         Dispatch(Event(ms[0].name, ms[0].payload, true), PrintAll(ms[1..]))
    ensures var tail := Parse(Stream(PrintAll(ms[1..]), Eof), limits);
            Parse(Stream(PrintAll(ms), Eof), limits) == ([Expected(ms)[0]] + tail.0, tail.1)
    ensures Expected(ms)[1..] == Expected(ms[1..])
  {
  }

  lemma {:induction false} NotFirst(ms: seq<Message>, limits: Limits)
    requires ms != []
    requires forall r :: NextEvent([], Stream(PrintAll(ms), Eof), limits) !=
                         Dispatch(Event(ms[0].name, ms[0].payload, true), r)
    ensures Parse(Stream(PrintAll(ms), Eof), limits).0 != Expected(ms)
  {
    var r := NextEvent([], Stream(PrintAll(ms), Eof), limits);
    if r.Dispatch? {
      assert r.event != Expected(ms)[0];
      assert Parse(Stream(PrintAll(ms), Eof), limits).0[0] == r.event;
    }
  }
}
