/**
 * The usage observer of streamed responses: chunks are appended to a buffer,
 * complete events are cut off at the leftmost LF LF or CR LF CR LF, and the data
 * lines of each event may replace the usage and the response id.  What JSON says
 * is left to three functions of the bytes.
 */
module UsageObserver {
  import opened Bytes

  const LFLF: Bytes := [LF, LF]
  const CRLFCRLF: Bytes := [CR, LF, CR, LF]
  const EVENT_PREFIX: Bytes := [101, 118, 101, 110, 116, 58]
  const DATA_PREFIX: Bytes := [100, 97, 116, 97, 58]
  const DONE_MARK: Bytes := [91, 68, 79, 78, 69, 93]

  datatype Usage = Missing | Usage(model: Bytes, input: int, output: int, total: int, cached: int, reasoning: int)

  /** White-space trimming and the two JSON extractions; an absent response id is empty. */
  datatype Extractors = Extractors(
    trim: Bytes -> Bytes,
    usage: Bytes -> Usage,
    responseId: (Bytes, Bytes) -> Bytes)

  datatype Totals = Totals(usage: Usage, responseId: Bytes)

  const NOTHING_SEEN := Totals(Missing, [])

  // ---------- Delimiters ----------

  predicate OccursAt(s: Bytes, i: int, pattern: Bytes) {
    0 <= i <= |s| && pattern <= s[i..]
  }

  lemma OccursInTail(s: Bytes, pattern: Bytes)
    requires s != []
    ensures forall k :: 0 < k <= |s| ==> OccursAt(s, k, pattern) == OccursAt(s[1..], k - 1, pattern)
  {
    forall k | 0 < k <= |s| ensures OccursAt(s, k, pattern) == OccursAt(s[1..], k - 1, pattern) {
      assert s[k..] == s[1..][k - 1..];
    }
  }

  /** The first index at which the pattern occurs, or |s|. */
  function Find(s: Bytes, pattern: Bytes): (r: nat)
    requires pattern != []
    ensures r <= |s|
    ensures r < |s| ==> OccursAt(s, r, pattern)
    ensures forall k :: 0 <= k < r ==> !OccursAt(s, k, pattern)
    decreases |s|
  {
    if s == [] || OccursAt(s, 0, pattern) then 0
    else
      var tail := s[1..];
      OccursInTail(s, pattern);
      1 + Find(tail, pattern)
  }

  lemma FindUnique(s: Bytes, pattern: Bytes, r: nat)
    requires pattern != [] && r <= |s| && (r < |s| ==> OccursAt(s, r, pattern))
    requires forall k :: 0 <= k < r ==> !OccursAt(s, k, pattern)
    ensures Find(s, pattern) == r
  {
  }

  datatype Cut = NoCut | Cut(index: nat, length: nat)

  function NextDelimiter(buf: Bytes): (r: Cut)
    ensures r.Cut? ==> r.index + r.length <= |buf| && 0 < r.length
  {
    var lf, crlf := Find(buf, LFLF), Find(buf, CRLFCRLF);
    if crlf < |buf| && (lf == |buf| || crlf < lf) then Cut(crlf, 4)
    else if lf < |buf| then Cut(lf, 2)
    else NoCut
  }

  lemma OccursInPrefix(a: Bytes, b: Bytes, i: int, pattern: Bytes)
    ensures OccursAt(a, i, pattern) ==> OccursAt(a + b, i, pattern)
    ensures i + |pattern| <= |a| && OccursAt(a + b, i, pattern) ==> OccursAt(a, i, pattern)
  {
    if 0 <= i <= |a| {
      assert (a + b)[i..] == a[i..] + b;
    }
  }

  /** A pattern found in a prefix stays the first occurrence when bytes follow. */
  lemma FindStable(a: Bytes, b: Bytes, pattern: Bytes)
    requires pattern != []
    ensures Find(a, pattern) < |a| ==> Find(a + b, pattern) == Find(a, pattern)
    ensures Find(a, pattern) == |a| ==> |a| < Find(a + b, pattern) + |pattern| || Find(a + b, pattern) == |a + b|
  {
    var r, r' := Find(a, pattern), Find(a + b, pattern);
    OccursInPrefix(a, b, r, pattern);
    OccursInPrefix(a, b, r', pattern);
  }

  /** The delimiter found in a prefix stays the first one when bytes follow. */
  lemma DelimiterStable(a: Bytes, b: Bytes)
    requires NextDelimiter(a).Cut?
    ensures NextDelimiter(a + b) == NextDelimiter(a)
  {
    hide Find, OccursAt;
    FindStable(a, b, LFLF);
    FindStable(a, b, CRLFCRLF);
    // a late CR LF CR LF would have to straddle the end of `a`, over an earlier LF LF
    if Find(a, LFLF) < |a| && Find(a, CRLFCRLF) == |a| && Find(a + b, CRLFCRLF) < |a + b| {
      NoStraddle(a, b, Find(a, LFLF), Find(a + b, CRLFCRLF));
    }
  }

  lemma NoStraddle(a: Bytes, b: Bytes, lf: nat, crlf: nat)
    requires lf < |a| && OccursAt(a, lf, LFLF)
    requires crlf < |a + b| && OccursAt(a + b, crlf, CRLFCRLF) && |a| < crlf + 4
    ensures crlf >= lf
  {
    assert a[lf..][0] == LFLF[0] && a[lf..][1] == LFLF[1];
    assert (a + b)[lf] == LF && (a + b)[lf + 1] == LF;
    assert (a + b)[crlf..][2] == CRLFCRLF[2];
  }

  // ---------- Events ----------

  function SplitLines(s: Bytes): (lines: seq<Bytes>)
    ensures lines != []
  {
    var n := IndexByte(s, LF);
    if n == |s| then [s] else [s[..n]] + SplitLines(s[n + 1..])
  }

  /** The last `event:` value of the lines, or `name` when there is none. */
  function NameOf(lines: seq<Bytes>, name: Bytes, ex: Extractors): Bytes {
    if lines == [] then name
    else
      var line := ex.trim(lines[0]);
      NameOf(lines[1..], if EVENT_PREFIX <= line then ex.trim(line[6..]) else name, ex)
  }

  /** The payloads of the data lines, without the empty ones and the end marker. */
  function PayloadsOf(lines: seq<Bytes>, ex: Extractors): seq<Bytes> {
    if lines == [] then []
    else
      var line := ex.trim(lines[0]);
      var tail := PayloadsOf(lines[1..], ex);
      if EVENT_PREFIX <= line || !(DATA_PREFIX <= line) then tail
      else
        var data := ex.trim(line[5..]);
        if data == [] || data == DONE_MARK then tail else [data] + tail
  }

  function Absorb(t: Totals, name: Bytes, payload: Bytes, ex: Extractors): Totals {
    var usage, id := ex.usage(payload), ex.responseId(name, payload);
    Totals(if usage.Missing? then t.usage else usage, if id == [] then t.responseId else id)
  }

  function AbsorbAll(t: Totals, name: Bytes, payloads: seq<Bytes>, ex: Extractors): Totals
    decreases |payloads|
  {
    if payloads == [] then t else AbsorbAll(Absorb(t, name, payloads[0], ex), name, payloads[1..], ex)
  }

  function OneEvent(t: Totals, event: Bytes, ex: Extractors): Totals {
    var lines := SplitLines(event);
    AbsorbAll(t, NameOf(lines, [], ex), PayloadsOf(lines, ex), ex)
  }

  /** Every complete event of the buffer, oldest first, and what is left over. */
  function Fold(t: Totals, buf: Bytes, ex: Extractors): (r: (Totals, Bytes))
    decreases |buf|
  {
    match NextDelimiter(buf)
    case NoCut => (t, buf)
    case Cut(i, n) => Fold(OneEvent(t, buf[..i], ex), buf[i + n..], ex)
  }

  // ---------- Chunking does not matter ----------

  /** Folding a prefix first and its leftover with the rest later is folding everything. */
  lemma {:induction false} FoldAppend(t: Totals, a: Bytes, b: Bytes, ex: Extractors)
    ensures Fold(t, a + b, ex) == Fold(Fold(t, a, ex).0, Fold(t, a, ex).1 + b, ex)
    decreases |a|
  {
    hide NextDelimiter, OneEvent;
    var cut := NextDelimiter(a);
    if cut.Cut? {
      var i, n := cut.index, cut.length;
      DelimiterStable(a, b);
      assert (a + b)[..i] == a[..i] && (a + b)[i + n..] == a[i + n..] + b;
      FoldAppend(OneEvent(t, a[..i], ex), a[i + n..], b, ex);
    }
  }

  class SseUsageObserver {
    const ex: Extractors
    var buf: Bytes
    var usage: Usage
    var responseId: Bytes

    constructor (ex: Extractors)
      ensures Valid() && this.ex == ex && buf == [] && State() == NOTHING_SEEN
    {
      this.ex, buf, usage, responseId := ex, [], Missing, [];
    }

    /** Complete events do not stay in the buffer. */
    ghost predicate Valid()
      reads this
    {
      NextDelimiter(buf).NoCut?
    }

    ghost function State(): Totals
      reads this
    {
      Totals(usage, responseId)
    }

    method ObserveEvent(event: Bytes)
      modifies this`usage, this`responseId
      ensures State() == OneEvent(old(State()), event, ex)
    {
      var name, payloads := ReadLines(event, ex);
      var i := 0;
      while i < |payloads|
        invariant i <= |payloads|
        invariant AbsorbAll(State(), name, payloads[i..], ex) == AbsorbAll(old(State()), name, payloads, ex)
      {
        assert payloads[i..][1..] == payloads[i + 1..];
        var found, id := ex.usage(payloads[i]), ex.responseId(name, payloads[i]);
        if !found.Missing? {
          usage := found;
        }
        if id != [] {
          responseId := id;
        }
        i := i + 1;
      }
    }

    method Observe(chunk: Bytes)
      requires Valid()
      modifies this
      ensures Valid() && (State(), buf) == Fold(old(State()), old(buf) + chunk, ex)
    {
      if chunk == [] {
        assert buf + chunk == buf;
        return;
      }
      buf := buf + chunk;
      ghost var goal := Fold(State(), buf, ex);
      while true
        invariant Fold(State(), buf, ex) == goal
        decreases |buf|
      {
        var cut := NextDelimiter(buf);
        if cut.NoCut? {
          return;
        }
        var event := buf[..cut.index];
        buf := buf[cut.index + cut.length..];
        ObserveEvent(event);
      }
    }
  }

  /** Event name and payloads of one event, line by line. */
  method ReadLines(event: Bytes, ex: Extractors) returns (name: Bytes, payloads: seq<Bytes>)
    ensures name == NameOf(SplitLines(event), [], ex)
    ensures payloads == PayloadsOf(SplitLines(event), ex)
  {
    hide NameOf, PayloadsOf;
    var lines := SplitLines(event);
    name, payloads := [], [];
    var i := 0;
    assert lines[0..] == lines;
    while i < |lines|
      invariant i <= |lines|
      invariant NameOf(lines[i..], name, ex) == NameOf(lines, [], ex)
      invariant payloads + PayloadsOf(lines[i..], ex) == PayloadsOf(lines, ex)
    {
      OneLine(lines, i, name, payloads, ex);
      var line := ex.trim(lines[i]);
      if EVENT_PREFIX <= line {
        name := ex.trim(line[6..]);
      } else if DATA_PREFIX <= line {
        var data := ex.trim(line[5..]);
        if data != [] && data != DONE_MARK {
          payloads := payloads + [data];
        }
      }
      i := i + 1;
    }
    OneLine(lines, i, name, payloads, ex);
  }

  /** What line i does to the name and to the payloads. */
  lemma {:induction false} OneLine(lines: seq<Bytes>, i: nat, name: Bytes, payloads: seq<Bytes>, ex: Extractors)
    requires i <= |lines|
    ensures i == |lines| ==> NameOf(lines[i..], name, ex) == name && payloads + PayloadsOf(lines[i..], ex) == payloads
    ensures i < |lines| ==>
              var line := ex.trim(lines[i]);
              var named, data := EVENT_PREFIX <= line, if DATA_PREFIX <= line then ex.trim(line[5..]) else [];
              var kept := !named && data != [] && data != DONE_MARK;
              && NameOf(lines[i..], name, ex) == NameOf(lines[i + 1..], if named then ex.trim(line[6..]) else name, ex)
              && payloads + PayloadsOf(lines[i..], ex) ==
                 (if kept then payloads + [data] else payloads) + PayloadsOf(lines[i + 1..], ex)
  {
    if i < |lines| {
      assert lines[i..][1..] == lines[i + 1..];
    }
  }

  lemma {:induction false} FoldOneMore(chunks: seq<Bytes>, i: nat, ex: Extractors)
    requires i < |chunks|
    ensures var r := Fold(NOTHING_SEEN, Concat(chunks[..i]), ex);
            Fold(NOTHING_SEEN, Concat(chunks[..i + 1]), ex) == Fold(r.0, r.1 + chunks[i], ex)
  {
    assert chunks[..i + 1] == chunks[..i] + [chunks[i]];
    ConcatAppend(chunks[..i], [chunks[i]]);
    assert Concat([chunks[i]]) == chunks[i];
    FoldAppend(NOTHING_SEEN, Concat(chunks[..i]), chunks[i], ex);
  }

  /** After any sequence of chunks the observer holds the fold of the whole stream. */
  method ObserveAll(chunks: seq<Bytes>, ex: Extractors) returns (totals: Totals, leftover: Bytes)
    ensures (totals, leftover) == Fold(NOTHING_SEEN, Concat(chunks), ex)
  {
    var o := new SseUsageObserver(ex);
    var i := 0;
    assert chunks[..0] == [];
    while i < |chunks|
      invariant i <= |chunks| && o.Valid() && o.ex == ex
      invariant (o.State(), o.buf) == Fold(NOTHING_SEEN, Concat(chunks[..i]), ex)
    {
      o.Observe(chunks[i]);
      FoldOneMore(chunks, i, ex);
      i := i + 1;
    }
    assert chunks[..i] == chunks;
    return Totals(o.usage, o.responseId), o.buf;
  }

  // ---------- What the split is ----------

  datatype Block = Block(event: Bytes, delimiter: Bytes)

  function Blocks(buf: Bytes): seq<Block>
    decreases |buf|
  {
    match NextDelimiter(buf)
    case NoCut => []
    case Cut(i, n) => [Block(buf[..i], buf[i..i + n])] + Blocks(buf[i + n..])
  }

  function Rebuild(blocks: seq<Block>, leftover: Bytes): Bytes {
    if blocks == [] then leftover
    else blocks[0].event + blocks[0].delimiter + Rebuild(blocks[1..], leftover)
  }

  function EachEvent(t: Totals, blocks: seq<Block>, ex: Extractors): Totals
    decreases |blocks|
  {
    if blocks == [] then t else EachEvent(OneEvent(t, blocks[0].event, ex), blocks[1..], ex)
  }

  predicate IsDelimiter(s: Bytes) {
    s == LFLF || s == CRLFCRLF
  }

  lemma OccursSlice(s: Bytes, i: nat, pattern: Bytes)
    requires OccursAt(s, i, pattern)
    ensures i + |pattern| <= |s| && s[i..i + |pattern|] == pattern
  {
    assert s[i..i + |pattern|] == s[i..][..|pattern|];
  }

  predicate Undelimited(s: Bytes) {
    forall i :: 0 <= i <= |s| ==> !OccursAt(s, i, LFLF) && !OccursAt(s, i, CRLFCRLF)
  }

  /** The fold visits the events of a split that loses no byte, and the leftover holds no delimiter. */
  lemma {:induction false} FoldSplitsStream(t: Totals, buf: Bytes, ex: Extractors)
    ensures var r := Fold(t, buf, ex);
            r.0 == EachEvent(t, Blocks(buf), ex) && Rebuild(Blocks(buf), r.1) == buf && Undelimited(r.1)
    decreases |buf|
  {
    hide NextDelimiter, Undelimited, OneEvent;
    match NextDelimiter(buf)
    case NoCut =>
      NoDelimiterLeft(buf);
    case Cut(i, n) =>
      FoldSplitsStream(OneEvent(t, buf[..i], ex), buf[i + n..], ex);
      assert buf == buf[..i] + buf[i..i + n] + buf[i + n..];
  }

  /** A block ends in a delimiter, and none begins in it before that one. */
  ghost predicate Leftmost(b: Block) {
    IsDelimiter(b.delimiter) && NoneBefore(b.event + b.delimiter, |b.event|)
  }

  ghost predicate NoneBefore(s: Bytes, n: nat) {
    forall i :: 0 <= i < n ==> !OccursAt(s, i, LFLF) && !OccursAt(s, i, CRLFCRLF)
  }

  /** A way to cut a stream at its delimiters, always the leftmost first. */
  ghost predicate IsSplit(buf: Bytes, blocks: seq<Block>, leftover: Bytes) {
    Rebuild(blocks, leftover) == buf && Undelimited(leftover) && forall i :: 0 <= i < |blocks| ==> Leftmost(blocks[i])
  }

  /** What the fold cuts off are the events of the leftmost split. */
  lemma {:induction false} BlocksAreLeftmost(t: Totals, buf: Bytes, ex: Extractors)
    ensures IsSplit(buf, Blocks(buf), Fold(t, buf, ex).1)
  {
    hide Fold, Rebuild, Undelimited;
    FoldSplitsStream(t, buf, ex);
    EachLeftmost(buf);
  }

  lemma {:induction false} EachLeftmost(buf: Bytes)
    ensures forall i :: 0 <= i < |Blocks(buf)| ==> Leftmost(Blocks(buf)[i])
    decreases |buf|
  {
    hide NextDelimiter, Leftmost;
    var cut := NextDelimiter(buf);
    if cut.Cut? {
      FirstBlock(buf);
      EachLeftmost(buf[cut.index + cut.length..]);
    }
  }

  lemma NoDelimiterLeft(s: Bytes)
    requires NextDelimiter(s).NoCut?
    ensures Undelimited(s)
  {
    assert !OccursAt(s, |s|, LFLF) && !OccursAt(s, |s|, CRLFCRLF);
  }

  lemma FirstBlock(buf: Bytes)
    requires NextDelimiter(buf).Cut?
    ensures var cut := NextDelimiter(buf);
            Leftmost(Block(buf[..cut.index], buf[cut.index..cut.index + cut.length]))
  {
    hide Find;
    var cut := NextDelimiter(buf);
    OccursSlice(buf, cut.index, if cut.length == 4 then CRLFCRLF else LFLF);
    hide OccursAt;
    var end := cut.index + cut.length;
    assert buf[..cut.index] + buf[cut.index..end] == buf[..end];
    NoneBeforeInPrefix(buf, end, cut.index);
  }

  lemma NoneBeforeInPrefix(buf: Bytes, end: nat, n: nat)
    requires end <= |buf| && NoneBefore(buf, n)
    ensures NoneBefore(buf[..end], n)
  {
    hide OccursAt;
    assert buf == buf[..end] + buf[end..];
    forall i | 0 <= i < n ensures !OccursAt(buf[..end], i, LFLF) && !OccursAt(buf[..end], i, CRLFCRLF) {
      OccursInPrefix(buf[..end], buf[end..], i, LFLF);
      OccursInPrefix(buf[..end], buf[end..], i, CRLFCRLF);
    }
  }

  /** Whatever follows a leftmost block, no delimiter begins before its own. */
  lemma NoneBeforeBlock(b: Block, rest: Bytes)
    requires Leftmost(b)
    ensures NoneBefore(b.event + b.delimiter + rest, |b.event|)
  {
    var block, n := b.event + b.delimiter, |b.event|;
    forall i | 0 <= i < n ensures !OccursAt(block + rest, i, LFLF) && !OccursAt(block + rest, i, CRLFCRLF) {
      OccursInPrefix(block, rest, i, LFLF);
      OccursInPrefix(block, rest, i, CRLFCRLF);
      if i + 4 > |block| {
        assert b.delimiter == LFLF && i == n - 1;
        assert (block + rest)[n + 1] == LF;
        NotAcross(block + rest, i);
      }
    }
  }

  lemma NotAcross(s: Bytes, i: nat)
    requires i + 2 < |s| && s[i + 2] == LF
    ensures !OccursAt(s, i, CRLFCRLF)
  {
    assert s[i..][2] == s[i + 2] && CRLFCRLF[2] == CR;
  }

  lemma OnlyOneOccurs(s: Bytes, i: nat, delimiter: Bytes)
    requires i + |delimiter| <= |s| && s[i..i + |delimiter|] == delimiter && IsDelimiter(delimiter)
    ensures OccursAt(s, i, LFLF) == (delimiter == LFLF) && OccursAt(s, i, CRLFCRLF) == (delimiter == CRLFCRLF)
  {
    assert s[i] == delimiter[0] && s[i..][0] == s[i];
    assert s[i..][..|delimiter|] == delimiter;
  }

  /** The next delimiter of a stream that begins with a leftmost block is that block's. */
  lemma CutAtBlock(b: Block, rest: Bytes)
    requires Leftmost(b)
    ensures NextDelimiter(b.event + b.delimiter + rest) == Cut(|b.event|, |b.delimiter|)
  {
    hide NoneBefore, NextDelimiter;
    var buf, n := b.event + b.delimiter + rest, |b.event|;
    NoneBeforeBlock(b, rest);
    SliceBlock(b, rest);
    OnlyOneOccurs(buf, n, b.delimiter);
    FirstDelimiterAt(buf, n, b.delimiter);
  }

  lemma FirstDelimiterAt(buf: Bytes, n: nat, delimiter: Bytes)
    requires n < |buf| && IsDelimiter(delimiter) && NoneBefore(buf, n)
    requires OccursAt(buf, n, LFLF) == (delimiter == LFLF) && OccursAt(buf, n, CRLFCRLF) == (delimiter == CRLFCRLF)
    ensures NextDelimiter(buf) == Cut(n, |delimiter|)
  {
    hide OccursAt, Find;
    FindUnique(buf, delimiter, n);
  }

  lemma NoCutInUndelimited(s: Bytes)
    requires Undelimited(s)
    ensures NextDelimiter(s) == NoCut
  {
    hide OccursAt, Find;
    FindUnique(s, LFLF, |s|);
    FindUnique(s, CRLFCRLF, |s|);
  }

  /** There is only one such split. */
  lemma {:induction false} SplitIsUnique(buf: Bytes, blocks: seq<Block>, leftover: Bytes, t: Totals, ex: Extractors)
    requires IsSplit(buf, blocks, leftover)
    ensures blocks == Blocks(buf) && leftover == Fold(t, buf, ex).1
    decreases |blocks|
  {
    hide NextDelimiter, Undelimited, Leftmost, OneEvent;
    if blocks == [] {
      NoCutInUndelimited(buf);
    } else {
      var b, rest := blocks[0], Rebuild(blocks[1..], leftover);
      CutAtBlock(b, rest);
      SliceBlock(b, rest);
      SplitIsUnique(rest, blocks[1..], leftover, OneEvent(t, b.event, ex), ex);
      assert blocks == [b] + blocks[1..];
    }
  }

  lemma SliceBlock(b: Block, rest: Bytes)
    ensures var buf, n := b.event + b.delimiter + rest, |b.event|;
            buf[..n] == b.event && buf[n..n + |b.delimiter|] == b.delimiter && buf[n + |b.delimiter|..] == rest
  {
  }
}
