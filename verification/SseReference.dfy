/**
 * A second definition of what a stream means, by line numbers instead of by
 * consumption: the lines between two blank lines form an event, and everything
 * from the first line that breaks a limit on is ignored.
 */
module SseReference {
  import opened Options
  import opened Bytes
  import opened SseReaders
  import opened SseFormat

  /** The LF-terminated lines of `s`, each with its terminator. */
  function RawLines(s: Bytes): seq<Bytes> {
    var n := IndexByte(s, LF);
    if n == |s| then [] else [s[..n + 1]] + RawLines(s[n + 1..])
  }

  /** What follows the last LF of `s`. */
  function Remainder(s: Bytes): Bytes {
    var n := IndexByte(s, LF);
    if n == |s| then s else Remainder(s[n + 1..])
  }

  predicate Blank(raw: Bytes) {
    TrimLineEnding(raw) == []
  }

  /** The trimmed lines between the last blank line before line i and line i. */
  function GroupBefore(lines: seq<Bytes>, i: nat): seq<Bytes>
    requires i <= |lines|
  {
    if i == 0 || Blank(lines[i - 1]) then []
    else GroupBefore(lines, i - 1) + [TrimLineEnding(lines[i - 1])]
  }

  /** The limit that line i breaks, if any. */
  function ErrorAt(lines: seq<Bytes>, i: nat, limits: Limits): Option<ParseError>
    requires i < |lines|
  {
    if |lines[i]| > limits.maxLine then Some(LineTooLarge)
    else if Blank(lines[i]) then None
    else LimitError(GroupBefore(lines, i + 1), limits)
  }

  /** Line `cut` is the first one that breaks a limit, or there is none and cut is the end. */
  predicate IsCut(lines: seq<Bytes>, limits: Limits, cut: nat) {
    cut <= |lines| &&
    (forall i :: 0 <= i < cut ==> ErrorAt(lines, i, limits) == None) &&
    (cut < |lines| ==> ErrorAt(lines, cut, limits) != None)
  }

  /** The events closed by the blank lines numbered from i up to cut. */
  function EventsBetween(lines: seq<Bytes>, i: nat, cut: nat): seq<Event>
    requires i <= cut <= |lines|
    decreases cut - i
  {
    if i == cut then []
    else if Blank(lines[i]) then [EventOf(GroupBefore(lines, i))] + EventsBetween(lines, i + 1, cut)
    else EventsBetween(lines, i + 1, cut)
  }

  /** How a stream ends that breaks no limit on its complete lines. */
  function EndError(group: seq<Bytes>, tail: Bytes, end: ReadError, limits: Limits): ParseError {
    if |tail| > limits.maxLine then LineTooLarge
    else if !end.Eof? then ReadFailed(end)
    else if tail == [] && !HasField(group) then EndOfStream
    else UnexpectedEof
  }

  function Meaning(s: Stream, limits: Limits, cut: nat): (seq<Event>, ParseError)
    requires IsCut(RawLines(s.bytes), limits, cut)
  {
    var lines := RawLines(s.bytes);
    (EventsBetween(lines, 0, cut),
     if cut < |lines| then ErrorAt(lines, cut, limits).value
     else EndError(GroupBefore(lines, cut), Remainder(s.bytes), s.end, limits))
  }

  /** Parsing as Parse does it, but with the lines of `group` already read. */
  function ParseWith(group: seq<Bytes>, s: Stream, limits: Limits): (seq<Event>, ParseError) {
    match NextEvent(group, s, limits)
    case Fail(err) => ([], err)
    case Dispatch(event, rest) =>
      var (events, err) := Parse(Stream(rest, s.end), limits);
      ([event] + events, err)
  }

  lemma {:induction false} ParseWithStep(group: seq<Bytes>, s: Stream, limits: Limits)
    ensures ParseWith(group, s, limits) ==
            match ReadOne(group, s, limits)
            case Done(Fail(err)) => ([], err)
            case Done(Dispatch(event, rest)) =>
              var tail := ParseWith([], Stream(rest, s.end), limits);
              ([event] + tail.0, tail.1)
            case More(line, rest) => ParseWith(group + [line], Stream(rest, s.end), limits)
  {
  }

  /** What line i means to the parser, told by line numbers. */
  lemma {:induction false} ReadOneAt(lines: seq<Bytes>, i: nat, s: Stream, limits: Limits)
    requires i < |lines| && RawLines(s.bytes) == lines[i..]
    ensures |lines[i]| <= |s.bytes| && RawLines(s.bytes[|lines[i]|..]) == lines[i + 1..]
    ensures Remainder(s.bytes[|lines[i]|..]) == Remainder(s.bytes)
    ensures var rest := s.bytes[|lines[i]|..];
            ReadOne(GroupBefore(lines, i), s, limits) ==
            if ErrorAt(lines, i, limits).Some? then Done(Fail(ErrorAt(lines, i, limits).value))
            else if Blank(lines[i]) then Done(Dispatch(EventOf(GroupBefore(lines, i)), rest))
            else More(TrimLineEnding(lines[i]), rest)
  {
    FirstRawLine(lines, i, s.bytes);
  }

  lemma {:induction false} FirstRawLine(lines: seq<Bytes>, i: nat, s: Bytes)
    requires i < |lines| && RawLines(s) == lines[i..]
    ensures IndexByte(s, LF) < |s| && lines[i] == s[..IndexByte(s, LF) + 1]
    ensures RawLines(s[|lines[i]|..]) == lines[i + 1..]
    ensures Remainder(s[|lines[i]|..]) == Remainder(s)
  {
    var n := IndexByte(s, LF);
    assert lines[i] == lines[i..][0];
    assert RawLines(s[n + 1..]) == lines[i..][1..] == lines[i + 1..];
  }

  lemma {:induction false} ReadOneAtEnd(group: seq<Bytes>, s: Stream, limits: Limits)
    requires RawLines(s.bytes) == []
    ensures ReadOne(group, s, limits) == Done(Fail(EndError(group, Remainder(s.bytes), s.end, limits)))
  {
    assert IndexByte(s.bytes, LF) == |s.bytes|;
  }

  lemma {:induction false} ParseFromLine(lines: seq<Bytes>, i: nat, s: Stream, limits: Limits, cut: nat)
    requires i <= cut && IsCut(lines, limits, cut) && RawLines(s.bytes) == lines[i..]
    ensures ParseWith(GroupBefore(lines, i), s, limits) ==
            (EventsBetween(lines, i, cut),
             if cut < |lines| then ErrorAt(lines, cut, limits).value
             else EndError(GroupBefore(lines, cut), Remainder(s.bytes), s.end, limits))
    decreases |lines| - i
  {
    var group := GroupBefore(lines, i);
    ParseWithStep(group, s, limits);
    if i == |lines| {
      ReadOneAtEnd(group, s, limits);
    } else {
      ReadOneAt(lines, i, s, limits);
      if i < cut {
        ParseFromLine(lines, i + 1, Stream(s.bytes[|lines[i]|..], s.end), limits, cut);
      }
    }
  }

  /** The incremental parser's result is the reference meaning, for every stream. */
  lemma ParseIsMeaning(s: Stream, limits: Limits, cut: nat)
    requires IsCut(RawLines(s.bytes), limits, cut)
    ensures Parse(s, limits) == Meaning(s, limits, cut)
  {
    var lines := RawLines(s.bytes);
    assert lines[0..] == lines;
    ParseFromLine(lines, 0, s, limits, cut);
  }

  /** Every stream has exactly one cut, so Meaning is defined for every stream. */
  lemma CutExists(lines: seq<Bytes>, limits: Limits) returns (cut: nat)
    ensures IsCut(lines, limits, cut)
    ensures forall other: nat :: IsCut(lines, limits, other) ==> other == cut
  {
    cut := 0;
    while cut < |lines| && ErrorAt(lines, cut, limits) == None
      invariant cut <= |lines|
      invariant forall i :: 0 <= i < cut ==> ErrorAt(lines, i, limits) == None
    {
      cut := cut + 1;
    }
  }

  /** The lines and the remainder are the stream, cut at its line feeds and nowhere else. */
  lemma {:induction false} RawLinesRebuild(s: Bytes)
    ensures Concat(RawLines(s)) + Remainder(s) == s
    ensures LF !in Remainder(s)
    ensures forall i :: 0 <= i < |RawLines(s)| ==> IsLine(RawLines(s)[i])
  {
    var n := IndexByte(s, LF);
    if n < |s| {
      FirstLine(s, n);
      hide IsLine;
      RawLinesRebuild(s[n + 1..]);
      assert Concat([s[..n + 1]] + RawLines(s[n + 1..])) == s[..n + 1] + Concat(RawLines(s[n + 1..]));
    }
  }

  /** One line feed, at the end. */
  predicate IsLine(raw: Bytes) {
    IndexByte(raw, LF) + 1 == |raw|
  }

  lemma FirstLine(s: Bytes, n: nat)
    requires n == IndexByte(s, LF) < |s|
    ensures IsLine(s[..n + 1]) && s == s[..n + 1] + s[n + 1..]
  {
    IndexByteUnique(s[..n + 1], LF, n);
  }
}
