/** Which of the parser's limits can be reached. */
module SseLimits {
  import opened Options
  import opened Bytes
  import opened SseReaders
  import opened SseFormat
  import opened SseRoundTrip
  import opened Doubling

  /** Non-empty data is always at least five bytes shorter than its event's lines. */
  lemma {:induction false} DataBelowEvent(group: seq<Bytes>)
    ensures 4 * |DataValues(group)| <= EventBytes(group)
    ensures Join(DataValues(group)) != [] ==> |Join(DataValues(group))| + 5 <= EventBytes(group)
  {
    if group != [] {
      var before, line := group[..|group| - 1], group[|group| - 1];
      DataBelowEvent(before);
      assert before + [line] == group;
      GroupSnoc(before, line);
      JoinSnoc(DataValues(before), SplitField(line).1);
    }
  }

  lemma {:induction false} NextEventNeverDataTooLarge(group: seq<Bytes>, s: Stream, limits: Limits)
    requires limits.maxEvent <= limits.maxData + 5 && 0 <= limits.maxData
    ensures NextEvent(group, s, limits) != Fail(DataTooLarge)
    decreases |s.bytes|
  {
    match ReadOne(group, s, limits)
    case Done(outcome) =>
      if outcome == Fail(DataTooLarge) {
        var line := TrimLineEnding(NextLine(s, limits.maxLine).raw);
        DataBelowEvent(group + [line]);
        assert false;
      }
    case More(line, rest) => NextEventNeverDataTooLarge(group + [line], Stream(rest, s.end), limits);
  }

  lemma {:induction false} ParseNeverDataTooLarge(s: Stream, limits: Limits)
    requires limits.maxEvent <= limits.maxData + 5 && 0 <= limits.maxData
    ensures Parse(s, limits).1 != DataTooLarge
    decreases |s.bytes|
  {
    NextEventNeverDataTooLarge([], s, limits);
    match NextEvent([], s, limits)
    case Fail(_) =>
    case Dispatch(_, rest) => ParseNeverDataTooLarge(Stream(rest, s.end), limits);
  }

  // ---------- How many event bytes oversized data costs ----------

  ghost predicate ShortLines(group: seq<Bytes>, maxLine: int) {
    forall i :: 0 <= i < |group| ==> |group[i]| < maxLine
  }

  /** Bytes of the joined data, counting one separator for every data line. */
  function Span(group: seq<Bytes>): nat {
    if DataValues(group) == [] then 0 else |Join(DataValues(group))| + 1
  }

  /** Data lines with a value, and data lines without one. */
  function Valued(group: seq<Bytes>): nat {
    if group == [] then 0
    else
      var line := group[|group| - 1];
      Valued(group[..|group| - 1]) + if IsData(line) && SplitField(line).1 != [] then 1 else 0
  }

  function Bare(group: seq<Bytes>): nat {
    if group == [] then 0
    else
      var line := group[|group| - 1];
      Bare(group[..|group| - 1]) + if IsData(line) && SplitField(line).1 == [] then 1 else 0
  }

  /** The widest span one line can add: its value and a separator. */
  function Width(maxLine: int): int {
    maxLine - 5
  }

  /** A value costs four bytes more than the span it adds, and a bare line three more. */
  lemma {:induction false} GroupCost(group: seq<Bytes>, maxLine: int)
    requires ShortLines(group, maxLine)
    ensures Span(group) + 4 * Valued(group) + 3 * Bare(group) <= EventBytes(group)
    ensures Span(group) <= Times(Valued(group), Width(maxLine)) + Bare(group)
    ensures Valued(group) > 0 ==> maxLine >= 7
    ensures Bare(group) > 0 ==> maxLine >= 5
  {
    hide SplitField, Times;
    if group == [] {
      TimesNext(Width(maxLine), 0);
      TimesSwap(0, Width(maxLine));
    } else {
      var before, line := group[..|group| - 1], group[|group| - 1];
      GroupCost(before, maxLine);
      assert before + [line] == group;
      GroupSnoc(before, line);
      JoinSnoc(DataValues(before), SplitField(line).1);
      TimesSwap(Valued(before), Width(maxLine));
      TimesSwap(Valued(before) + 1, Width(maxLine));
      TimesNext(Width(maxLine), Valued(before));
    }
  }

  lemma TimesSwap(a: int, b: int)
    ensures Times(a, b) == Times(b, a)
  {
  }

  /** The least extra cost of a span: as many full lines as fit, and a bare line for a last single byte. */
  function Overhead(span: nat, width: int): nat {
    if span == 0 then 0
    else if width < 2 then 3 + Overhead(span - 1, width)
    else if span == 1 then 3
    else if span <= width then 4
    else 4 + Overhead(span - width, width)
  }

  lemma {:induction false} BareIsDear(span: nat, width: int)
    ensures Overhead(span, width) <= 3 * span
  {
    if span > 0 && width < 2 {
      BareIsDear(span - 1, width);
    } else if width >= 2 && span > width {
      BareIsDear(span - width, width);
    }
  }

  /** No mix of valued and bare lines covers a span for less. */
  lemma {:induction false} OverheadIsLeast(valued: nat, bare: nat, span: nat, width: int)
    requires span <= Times(valued, width) + bare && (width < 2 ==> valued == 0)
    ensures Overhead(span, width) <= 4 * valued + 3 * bare
    decreases valued
  {
    hide Times;
    BareIsDear(span, width);
    TimesSwap(valued, width);
    if valued == 0 {
      TimesNext(width, 0);
    } else {
      TimesNext(width, valued - 1);
      TimesSwap(valued - 1, width);
      if span > width {
        OverheadIsLeast(valued - 1, bare, span - width, width);
      }
    }
  }

  /** The smallest event that holds one byte more than the data limit, in lines within the line limit. */
  function LeastOversized(limits: Limits): nat
    requires 0 < limits.maxData
  {
    limits.maxData + 2 + Overhead(limits.maxData + 2, Width(limits.maxLine))
  }

  ghost predicate DataLimitMatters(limits: Limits)
    requires 0 < limits.maxData
  {
    limits.maxLine >= 5 && LeastOversized(limits) <= limits.maxEvent
  }

  /** Oversized data within the line limit needs an event of at least that size. */
  lemma OversizedCosts(group: seq<Bytes>, limits: Limits)
    requires 0 < limits.maxData && ShortLines(group, limits.maxLine) && |Join(DataValues(group))| > limits.maxData
    ensures limits.maxLine >= 5 && LeastOversized(limits) <= EventBytes(group)
  {
    hide Join, DataValues, Times, EventBytes, Valued, Bare, Overhead;
    JoinOfNothing();
    GroupCost(group, limits.maxLine);
    OverheadIsLeast(Valued(group), Bare(group), limits.maxData + 2, Width(limits.maxLine));
    TimesNext(Width(limits.maxLine), 0);
    TimesSwap(0, Width(limits.maxLine));
  }

  lemma JoinOfNothing()
    ensures Join([]) == []
  {
  }

  lemma {:induction false} NextEventWithinData(group: seq<Bytes>, s: Stream, limits: Limits)
    requires 0 < limits.maxData && !DataLimitMatters(limits) && ShortLines(group, limits.maxLine)
    ensures NextEvent(group, s, limits) != Fail(DataTooLarge)
    decreases |s.bytes|
  {
    hide LeastOversized, EventBytes, DataValues, Join, IsData, HasField, EventOf;
    var read := NextLine(s, limits.maxLine);
    if read.Whole? {
      var line := TrimLineEnding(read.raw);
      if line != [] {
        LineIsShort(s, limits.maxLine);
        assert ShortLines(group + [line], limits.maxLine);
        if |Join(DataValues(group + [line]))| > limits.maxData {
          OversizedCosts(group + [line], limits);
        }
        if LimitError(group + [line], limits).None? {
          NextEventWithinData(group + [line], Stream(s.bytes[|read.raw|..], s.end), limits);
        }
      }
    }
  }

  lemma LineIsShort(s: Stream, maxLine: int)
    requires NextLine(s, maxLine).Whole?
    ensures |TrimLineEnding(NextLine(s, maxLine).raw)| < maxLine
  {
  }

  lemma {:induction false} ParseWithinData(s: Stream, limits: Limits)
    requires 0 < limits.maxData && !DataLimitMatters(limits)
    ensures Parse(s, limits).1 != DataTooLarge
    decreases |s.bytes|
  {
    hide DataLimitMatters, NextEvent;
    NextEventWithinData([], s, limits);
    match NextEvent([], s, limits)
    case Fail(_) =>
    case Dispatch(_, rest) => ParseWithinData(Stream(rest, s.end), limits);
  }

  // ---------- A stream that pays exactly that ----------

  /** A data line with a value of n bytes; without a value it is bare. */
  function DataLineOf(n: nat): Bytes {
    if n == 0 then DATA_FIELD else DATA_FIELD + [COLON] + seq(n, _ => 120 as Byte)
  }

  /** Lines whose data spans exactly `span`, at the least cost. */
  function Oversized(span: nat, width: int): seq<Bytes> {
    if span == 0 then []
    else if width < 2 then Oversized(span - 1, width) + [DataLineOf(0)]
    else if span <= width then [DataLineOf(span - 1)]
    else Oversized(span - width, width) + [DataLineOf(width - 1)]
  }

  ghost predicate PlainLine(line: Bytes, maxLine: int) {
    line != [] && LF !in line && line[|line| - 1] != CR && |line| < maxLine
  }

  lemma DataLineOfSplits(n: nat, maxLine: int)
    requires n + 6 <= maxLine || (n == 0 && maxLine >= 5)
    ensures var line := DataLineOf(n);
            && |line| == (if n == 0 then 4 else 5 + n) && PlainLine(line, maxLine)
            && IsData(line) && |SplitField(line).1| == n
  {
    var line := DataLineOf(n);
    if n == 0 {
      IndexByteUnique(line, COLON, 4);
    } else {
      IndexByteUnique(line, COLON, 4);
      assert line[..4] == DATA_FIELD;
      assert line[5..] == seq(n, _ => 120 as Byte);
    }
  }

  lemma SpanSnoc(group: seq<Bytes>, n: nat, maxLine: int)
    requires n + 6 <= maxLine || (n == 0 && maxLine >= 5)
    ensures var longer := group + [DataLineOf(n)];
            && Span(longer) == Span(group) + n + 1
            && EventBytes(longer) == EventBytes(group) + if n == 0 then 4 else 5 + n
  {
    DataLineOfSplits(n, maxLine);
    hide DataLineOf, SplitField;
    GroupSnoc(group, DataLineOf(n));
    JoinSnoc(DataValues(group), SplitField(DataLineOf(n)).1);
  }

  lemma {:induction false} OversizedCost(span: nat, maxLine: int)
    requires maxLine >= 5
    ensures var group := Oversized(span, Width(maxLine));
            && Span(group) == span && EventBytes(group) == span + Overhead(span, Width(maxLine))
            && (forall i :: 0 <= i < |group| ==> PlainLine(group[i], maxLine) && IsData(group[i]))
            && (span > 0 ==> group != [])
  {
    hide Span, EventBytes, PlainLine, DataLineOf, IsData;
    var width := Width(maxLine);
    if span == 0 {
      NothingSpans();
    } else {
      var n := if width < 2 then 0 else if span <= width then span - 1 else width - 1;
      var rest := if width < 2 then span - 1 else if span <= width then 0 else span - width;
      OversizedCost(rest, maxLine);
      DataLineOfSplits(n, maxLine);
      SpanSnoc(Oversized(rest, width), n, maxLine);
      NothingSpans();
      assert Oversized(0, width) == [];
      assert Oversized(span, width) == Oversized(rest, width) + [DataLineOf(n)];
    }
  }

  lemma NothingSpans()
    ensures Span([]) == 0 && EventBytes([]) == 0
  {
  }

  function Written(lines: seq<Bytes>): Bytes {
    if lines == [] then [] else lines[0] + [LF] + Written(lines[1..])
  }

  /** Plain lines within the event limit whose data is too large are refused for their data. */
  lemma {:induction false} OversizedIsRefused(group: seq<Bytes>, lines: seq<Bytes>, end: ReadError, limits: Limits)
    requires lines != [] && forall i :: 0 <= i < |lines| ==> PlainLine(lines[i], limits.maxLine)
    requires EventBytes(group + lines) <= limits.maxEvent && IsData(lines[|lines| - 1])
    requires |Join(DataValues(group + lines))| > limits.maxData
    ensures NextEvent(group, Stream(Written(lines), end), limits) == Fail(DataTooLarge)
    decreases |lines|
  {
    hide EventBytes, Join, DataValues, IsData;
    var line, rest := lines[0], lines[1..];
    ReadPlainLine(group, line, Written(rest), end, limits);
    assert group + lines == (group + [line]) + rest;
    EventBytesGrow(group + [line], rest);
    if rest == [] {
      assert lines == [line] && group + lines == group + [line];
    } else {
      assert rest[|rest| - 1] == lines[|lines| - 1];
      if LimitError(group + [line], limits).None? {
        OversizedIsRefused(group + [line], rest, end, limits);
      }
    }
  }

  lemma {:induction false} EventBytesGrow(group: seq<Bytes>, more: seq<Bytes>)
    ensures EventBytes(group) <= EventBytes(group + more)
  {
    if more == [] {
      assert group + more == group;
    } else {
      var init := more[..|more| - 1];
      EventBytesGrow(group, init);
      assert group + more == (group + init) + [more[|more| - 1]];
      GroupSnoc(group + init, more[|more| - 1]);
    }
  }

  lemma ReadPlainLine(group: seq<Bytes>, line: Bytes, rest: Bytes, end: ReadError, limits: Limits)
    requires PlainLine(line, limits.maxLine)
    ensures ReadOne(group, Stream(line + [LF] + rest, end), limits) ==
            if LimitError(group + [line], limits).Some? then Done(Fail(LimitError(group + [line], limits).value))
            else More(line, rest)
  {
    hide ReadOne, LimitError;
    ReadWrittenLine(group, line, rest, end, limits);
    TrimWritten(line);
  }

  lemma OversizedIsReported(limits: Limits, end: ReadError)
    requires Positive(limits) && DataLimitMatters(limits)
    ensures Parse(Stream(Written(Oversized(limits.maxData + 2, Width(limits.maxLine))), end), limits).1 == DataTooLarge
  {
    hide Overhead, Oversized, EventBytes, Join, DataValues, IsData, PlainLine, NextEvent, Written;
    var span := limits.maxData + 2;
    var lines := Oversized(span, Width(limits.maxLine));
    OversizedCost(span, limits.maxLine);
    assert [] + lines == lines;
    OversizedIsRefused([], lines, end, limits);
  }

  /** The data limit can be reported exactly when an event of the least oversized length is within the limits. */
  lemma DataTooLargeReachable(limits: Limits)
    requires Positive(limits)
    ensures (exists s :: Parse(s, limits).1 == DataTooLarge) <==> DataLimitMatters(limits)
  {
    hide DataLimitMatters, Parse;
    if DataLimitMatters(limits) {
      OversizedIsReported(limits, Eof);
    } else {
      forall s ensures Parse(s, limits).1 != DataTooLarge {
        ParseWithinData(s, limits);
      }
    }
  }

  /** With lines long enough for the data, that length is the data limit and six bytes. */
  lemma LongLinesNeedSix(limits: Limits)
    requires Positive(limits) && limits.maxData + 7 <= limits.maxLine
    ensures DataLimitMatters(limits) <==> limits.maxData + 6 <= limits.maxEvent
  {
  }

  /** The extra cost in closed form: four bytes a full line, and three or four for what is left. */
  lemma {:induction false} OverheadInLines(full: nat, left: nat, width: nat)
    requires width >= 2 && left < width
    ensures Overhead(Times(width, full) + left, width) == 4 * full + if left == 0 then 0 else if left == 1 then 3 else 4
  {
    hide Times;
    TimesNext(width, 0);
    if full > 0 {
      TimesNext(width, full - 1);
      OverheadInLines(full - 1, left, width);
    }
  }

  function MinPositive(left: int, right: int): (r: int)
    ensures 0 < left ==> 0 < r <= left
    ensures 0 < right ==> r <= right
    ensures r == left || r == right
  {
    if right <= 0 || left <= right then left else right
  }

  /** The limits both consumers build for a body of at most maxBytes. */
  function ConsumerLimits(maxBytes: int): Limits {
    Limits(MinPositive(DEFAULT_MAX_LINE, maxBytes),
           MinPositive(DEFAULT_MAX_EVENT, maxBytes),
           MinPositive(DEFAULT_MAX_DATA, maxBytes))
  }

  /** No stream makes a consumer's parser report oversized data. */
  lemma ConsumersNeverDataTooLarge(maxBytes: int, s: Stream)
    ensures Parse(s, WithDefaults(ConsumerLimits(maxBytes))).1 != DataTooLarge
  {
    ParseNeverDataTooLarge(s, WithDefaults(ConsumerLimits(maxBytes)));
  }
}
