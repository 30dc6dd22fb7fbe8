/**
 * The event-stream format as a function of the whole byte stream: lines end at
 * LF, one CR before the LF is dropped, a blank line closes a group of lines, and
 * every group is one event.  Three limits cut the stream short.
 */
module SseFormat {
  import opened Options
  import opened Bytes
  import opened SseReaders

  datatype Limits = Limits(maxLine: int, maxEvent: int, maxData: int)

  datatype Event = Event(name: Bytes, data: Bytes, hasData: bool)

  datatype ParseError =
    | EndOfStream
    | UnexpectedEof
    | LineTooLarge
    | EventTooLarge
    | DataTooLarge
    | ReadFailed(err: ReadError)

  const DEFAULT_MAX_LINE: int := 64 * 1024
  const DEFAULT_MAX_EVENT: int := 1024 * 1024
  const DEFAULT_MAX_DATA: int := 8 * 1024 * 1024

  const EVENT_FIELD: Bytes := [101, 118, 101, 110, 116]
  const DATA_FIELD: Bytes := [100, 97, 116, 97]

  ghost predicate Positive(l: Limits) {
    0 < l.maxLine && 0 < l.maxEvent && 0 < l.maxData
  }

  function WithDefaults(l: Limits): (r: Limits)
    ensures Positive(r)
    ensures Positive(l) ==> r == l
  {
    Limits(if l.maxLine <= 0 then DEFAULT_MAX_LINE else l.maxLine,
           if l.maxEvent <= 0 then DEFAULT_MAX_EVENT else l.maxEvent,
           if l.maxData <= 0 then DEFAULT_MAX_DATA else l.maxData)
  }

  // ---------- Lines ----------

  function TrimLineEnding(line: Bytes): (r: Bytes)
    ensures r <= line && |line| <= |r| + 2
  {
    var body := if line != [] && line[|line| - 1] == LF then line[..|line| - 1] else line;
    if body != [] && body[|body| - 1] == CR then body[..|body| - 1] else body
  }

  /** Field name and value: one space after the first colon is not part of the value. */
  function SplitField(line: Bytes): (r: (Bytes, Bytes))
    ensures |r.0| + |r.1| <= |line|
    ensures r.1 != [] ==> |r.0| + |r.1| < |line|
  {
    var colon := IndexByte(line, COLON);
    if colon == |line| then (line, [])
    else
      var value := line[colon + 1..];
      (line[..colon], if value != [] && value[0] == SPACE then value[1..] else value)
  }

  predicate IsComment(line: Bytes) {
    line != [] && line[0] == COLON
  }

  predicate IsData(line: Bytes) {
    SplitField(line).0 == DATA_FIELD
  }

  // ---------- Groups of non-blank lines ----------

  function EventBytes(group: seq<Bytes>): nat {
    if group == [] then 0 else EventBytes(group[..|group| - 1]) + |group[|group| - 1]|
  }

  predicate HasField(group: seq<Bytes>) {
    exists i :: 0 <= i < |group| && !IsComment(group[i])
  }

  function EventName(group: seq<Bytes>): Bytes {
    if group == [] then []
    else
      var (field, value) := SplitField(group[|group| - 1]);
      if field == EVENT_FIELD then value else EventName(group[..|group| - 1])
  }

  function DataValues(group: seq<Bytes>): seq<Bytes> {
    if group == [] then []
    else
      var before := DataValues(group[..|group| - 1]);
      if IsData(group[|group| - 1]) then before + [SplitField(group[|group| - 1]).1] else before
  }

  function Join(values: seq<Bytes>): Bytes {
    if values == [] then []
    else if |values| == 1 then values[0]
    else Join(values[..|values| - 1]) + [LF] + values[|values| - 1]
  }

  function EventOf(group: seq<Bytes>): Event {
    Event(EventName(group), Join(DataValues(group)), DataValues(group) != [])
  }

  /** The limit that the last line of a group breaks, if any. */
  function LimitError(group: seq<Bytes>, limits: Limits): Option<ParseError>
    requires group != []
  {
    if EventBytes(group) > limits.maxEvent then Some(EventTooLarge)
    else if IsData(group[|group| - 1]) && |Join(DataValues(group))| > limits.maxData then Some(DataTooLarge)
    else None
  }

  /** How every measure of a group changes when one line is added. */
  lemma GroupSnoc(group: seq<Bytes>, line: Bytes)
    ensures EventBytes(group + [line]) == EventBytes(group) + |line|
    ensures HasField(group + [line]) == (HasField(group) || !IsComment(line))
    ensures EventName(group + [line]) ==
            (if SplitField(line).0 == EVENT_FIELD then SplitField(line).1 else EventName(group))
    ensures DataValues(group + [line]) ==
            (if IsData(line) then DataValues(group) + [SplitField(line).1] else DataValues(group))
  {
    var longer := group + [line];
    assert longer[..|group|] == group && longer[|group|] == line;
    if HasField(group) {
      var i :| 0 <= i < |group| && !IsComment(group[i]);
      assert !IsComment(longer[i]);
    }
    if !IsComment(line) {
      assert !IsComment(longer[|group|]);
    }
  }

  lemma JoinSnoc(values: seq<Bytes>, value: Bytes)
    ensures Join(values + [value]) == if values == [] then value else Join(values) + [LF] + value
  {
    assert (values + [value])[..|values|] == values;
  }

  // ---------- Groups, one line at a time ----------

  /** What the parser remembers of a group. */
  datatype Summary = Summary(name: Bytes, data: Bytes, eventN: int, hasField: bool, hasData: bool)

  ghost function Summarize(group: seq<Bytes>): Summary {
    Summary(EventName(group), Join(DataValues(group)), EventBytes(group), HasField(group), DataValues(group) != [])
  }

  function Joined(sum: Summary, value: Bytes): Bytes {
    if sum.hasData then sum.data + [LF] + value else value
  }

  function Extend(sum: Summary, line: Bytes): Summary {
    var (field, value) := SplitField(line);
    Summary(if field == EVENT_FIELD then value else sum.name,
            if field == DATA_FIELD then Joined(sum, value) else sum.data,
            sum.eventN + |line|,
            sum.hasField || !IsComment(line),
            sum.hasData || field == DATA_FIELD)
  }

  function Overflow(sum: Summary, line: Bytes, limits: Limits): Option<ParseError> {
    if sum.eventN + |line| > limits.maxEvent then Some(EventTooLarge)
    else if IsData(line) && |Joined(sum, SplitField(line).1)| > limits.maxData then Some(DataTooLarge)
    else None
  }

  /** The running summary is the summary of the lines so far, and so are its limit checks. */
  lemma SummarizeSnoc(group: seq<Bytes>, line: Bytes, limits: Limits)
    ensures Summarize(group + [line]) == Extend(Summarize(group), line)
    ensures LimitError(group + [line], limits) == Overflow(Summarize(group), line, limits)
  {
    GroupSnoc(group, line);
    JoinSnoc(DataValues(group), SplitField(line).1);
  }

  // ---------- The stream, one line at a time ----------

  datatype LineRead = Whole(raw: Bytes) | Tail(raw: Bytes) | Refused(err: ParseError)

  /** The next physical line: complete, cut off by EOF, or refused. */
  function NextLine(s: Stream, maxLine: int): (r: LineRead)
    ensures r.Whole? ==> 0 < |r.raw| && r.raw <= s.bytes
  {
    var n := IndexByte(s.bytes, LF);
    if n < |s.bytes| then
      if n + 1 > maxLine then Refused(LineTooLarge) else Whole(s.bytes[..n + 1])
    else if |s.bytes| > maxLine then Refused(LineTooLarge)
    else if s.end.Eof? then Tail(s.bytes)
    else Refused(ReadFailed(s.end))
  }

  datatype Outcome = Dispatch(event: Event, rest: Bytes) | Fail(err: ParseError)

  datatype LineVerdict = Done(outcome: Outcome) | More(line: Bytes, rest: Bytes)

  /** What one more line of `s` means for the pending group. */
  function ReadOne(group: seq<Bytes>, s: Stream, limits: Limits): (r: LineVerdict)
    ensures r.More? ==> |r.rest| < |s.bytes|
    ensures r.Done? && r.outcome.Dispatch? ==> |r.outcome.rest| < |s.bytes|
  {
    match NextLine(s, limits.maxLine)
    case Refused(err) => Done(Fail(err))
    case Tail(raw) => Done(Fail(if raw == [] && !HasField(group) then EndOfStream else UnexpectedEof))
    case Whole(raw) =>
      var line := TrimLineEnding(raw);
      var rest := s.bytes[|raw|..];
      if line == [] then Done(Dispatch(EventOf(group), rest))
      else
        match LimitError(group + [line], limits)
        case Some(err) => Done(Fail(err))
        case None => More(line, rest)
  }

  /** The next event of `s` when the lines of `group` are already in hand. */
  function NextEvent(group: seq<Bytes>, s: Stream, limits: Limits): (r: Outcome)
    ensures r.Dispatch? ==> |r.rest| < |s.bytes|
    decreases |s.bytes|
  {
    match ReadOne(group, s, limits)
    case Done(outcome) => outcome
    case More(line, rest) => NextEvent(group + [line], Stream(rest, s.end), limits)
  }

  /** All events of a stream up to the first error, and that error. */
  function Parse(s: Stream, limits: Limits): (r: (seq<Event>, ParseError))
    decreases |s.bytes|
  {
    match NextEvent([], s, limits)
    case Fail(err) => ([], err)
    case Dispatch(event, rest) =>
      var (events, err) := Parse(Stream(rest, s.end), limits);
      ([event] + events, err)
  }
}
