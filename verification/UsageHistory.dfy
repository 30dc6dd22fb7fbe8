/**
 * What the usage observer holds after a stream, told from the lines of its events: the last usage and the last
 * response id found in a data line, and the name an event's last `event:` line gives it.
 */
module UsageHistory {
  import opened Bytes
  import opened UsageObserver

  // ---------- Lines ----------

  function Unsplit(lines: seq<Bytes>): Bytes
    requires lines != []
  {
    if |lines| == 1 then lines[0] else lines[0] + [LF] + Unsplit(lines[1..])
  }

  /** The lines of an event hold no line feed, and with line feeds between them they are the event. */
  lemma {:induction false} LinesAreSplit(s: Bytes)
    ensures Unsplit(SplitLines(s)) == s && forall i :: 0 <= i < |SplitLines(s)| ==> LF !in SplitLines(s)[i]
    decreases |s|
  {
    var n := IndexByte(s, LF);
    if n < |s| {
      var tail := s[n + 1..];
      LinesAreSplit(tail);
      LineBefore(s[..n], SplitLines(tail));
      assert s == s[..n] + [LF] + tail;
    }
  }

  lemma LineBefore(line: Bytes, lines: seq<Bytes>)
    requires lines != []
    ensures Unsplit([line] + lines) == line + [LF] + Unsplit(lines)
  {
    assert ([line] + lines)[1..] == lines;
  }

  ghost predicate Names(line: Bytes, ex: Extractors) {
    StartsWith(ex.trim(line), "event:")
  }

  ghost function GivenName(line: Bytes, ex: Extractors): Bytes
    requires Names(line, ex)
  {
    ex.trim(ex.trim(line)[6..])
  }

  ghost function DataOf(line: Bytes, ex: Extractors): Bytes
    requires StartsWith(ex.trim(line), "data:")
  {
    ex.trim(ex.trim(line)[5..])
  }

  /** A data line with something in it other than the end marker. */
  ghost predicate CarriesData(line: Bytes, ex: Extractors) {
    !Names(line, ex) && StartsWith(ex.trim(line), "data:") && DataOf(line, ex) != [] && !Spells(DataOf(line, ex), "[DONE]")
  }

  lemma PrefixesSpelled(b: Bytes)
    ensures StartsWith(b, "event:") <==> EVENT_PREFIX <= b
    ensures StartsWith(b, "data:") <==> DATA_PREFIX <= b
    ensures Spells(b, "[DONE]") <==> b == DONE_MARK
  {
    assert Spells(EVENT_PREFIX, "event:") && Spells(DATA_PREFIX, "data:") && Spells(DONE_MARK, "[DONE]");
    assert EVENT_PREFIX <= b ==> b[..6] == EVENT_PREFIX;
    assert DATA_PREFIX <= b ==> b[..5] == DATA_PREFIX;
    if StartsWith(b, "event:") {
      assert forall i :: 0 <= i < 6 ==> b[i] == b[..6][i] && b[i] == EVENT_PREFIX[i];
    }
    if StartsWith(b, "data:") {
      assert forall i :: 0 <= i < 5 ==> b[i] == b[..5][i] && b[i] == DATA_PREFIX[i];
    }
    if Spells(b, "[DONE]") {
      assert forall i :: 0 <= i < 6 ==> b[i] == DONE_MARK[i];
    }
  }

  lemma LineParts(lines: seq<Bytes>, ex: Extractors)
    requires lines != []
    ensures var line := lines[0];
            && (Names(line, ex) <==> EVENT_PREFIX <= ex.trim(line))
            && (CarriesData(line, ex) <==> PayloadsOf(lines, ex) != PayloadsOf(lines[1..], ex))
            && PayloadsOf(lines, ex) == (if CarriesData(line, ex) then [DataOf(line, ex)] else []) + PayloadsOf(lines[1..], ex)
  {
    var line := ex.trim(lines[0]);
    PrefixesSpelled(line);
    if DATA_PREFIX <= line {
      PrefixesSpelled(ex.trim(line[5..]));
    }
    hide Spells, StartsWith;
    assert |PayloadsOf(lines, ex)| == |PayloadsOf(lines[1..], ex)| + if CarriesData(lines[0], ex) then 1 else 0;
  }

  // ---------- The name of an event ----------

  /** The name is that of the last line that gives one, or empty. */
  ghost predicate IsName(name: Bytes, lines: seq<Bytes>, ex: Extractors) {
    if forall i :: 0 <= i < |lines| ==> !Names(lines[i], ex) then name == []
    else exists i :: LastNaming(lines, i, ex) && name == GivenName(lines[i], ex)
  }

  ghost predicate LastNaming(lines: seq<Bytes>, i: int, ex: Extractors) {
    0 <= i < |lines| && Names(lines[i], ex) && forall j :: i < j < |lines| ==> !Names(lines[j], ex)
  }

  lemma {:induction false} LastNameWins(lines: seq<Bytes>, name: Bytes, ex: Extractors)
    ensures (forall i :: 0 <= i < |lines| ==> !Names(lines[i], ex)) ==> NameOf(lines, name, ex) == name
    ensures forall i :: LastNaming(lines, i, ex) ==> NameOf(lines, name, ex) == GivenName(lines[i], ex)
  {
    hide Names, GivenName;
    if lines != [] {
      NameStep(lines, name, ex);
      var tail := lines[1..];
      var next := if Names(lines[0], ex) then GivenName(lines[0], ex) else name;
      LastNameWins(tail, next, ex);
      assert forall i :: 0 <= i < |tail| ==> tail[i] == lines[i + 1];
      forall i | LastNaming(lines, i, ex) ensures NameOf(lines, name, ex) == GivenName(lines[i], ex) {
        if i > 0 {
          assert LastNaming(tail, i - 1, ex);
        }
      }
    }
  }

  lemma NameStep(lines: seq<Bytes>, name: Bytes, ex: Extractors)
    requires lines != []
    ensures NameOf(lines, name, ex) == NameOf(lines[1..], if Names(lines[0], ex) then GivenName(lines[0], ex) else name, ex)
  {
    PrefixesSpelled(ex.trim(lines[0]));
    hide Spells, StartsWith;
  }

  /** The observer's name for an event is the one its last `event:` line gives it. */
  lemma NameIsLast(lines: seq<Bytes>, name: Bytes, ex: Extractors)
    ensures IsName(name, lines, ex) <==> name == NameOf(lines, [], ex)
  {
    hide Names, GivenName, NameOf;
    LastNameWins(lines, [], ex);
    if !(forall i :: 0 <= i < |lines| ==> !Names(lines[i], ex)) {
      var i := FindNaming(lines, ex);
      assert LastNaming(lines, i, ex);
    }
  }

  lemma {:induction false} FindNaming(lines: seq<Bytes>, ex: Extractors) returns (i: int)
    requires exists i :: 0 <= i < |lines| && Names(lines[i], ex)
    ensures LastNaming(lines, i, ex)
  {
    hide Names;
    i := |lines| - 1;
    while !Names(lines[i], ex)
      invariant 0 <= i < |lines| && forall j :: i < j < |lines| ==> !Names(lines[j], ex)
      decreases i
    {
      i := i - 1;
    }
  }

  // ---------- One event ----------

  datatype What = TheUsage | TheResponseId

  /** The line tells the usage, or the response id. */
  ghost predicate Tells(what: What, name: Bytes, line: Bytes, ex: Extractors) {
    CarriesData(line, ex) &&
    match what
    case TheUsage => !ex.usage(DataOf(line, ex)).Missing?
    case TheResponseId => ex.responseId(name, DataOf(line, ex)) != []
  }

  ghost predicate Holds(what: What, t: Totals, name: Bytes, line: Bytes, ex: Extractors)
    requires CarriesData(line, ex)
  {
    match what
    case TheUsage => t.usage == ex.usage(DataOf(line, ex))
    case TheResponseId => t.responseId == ex.responseId(name, DataOf(line, ex))
  }

  ghost predicate Agree(what: What, t: Totals, u: Totals) {
    match what
    case TheUsage => t.usage == u.usage
    case TheResponseId => t.responseId == u.responseId
  }

  /** The totals after the lines of one event. */
  function AfterLines(t: Totals, name: Bytes, lines: seq<Bytes>, ex: Extractors): Totals {
    AbsorbAll(t, name, PayloadsOf(lines, ex), ex)
  }

  lemma LineStep(what: What, t: Totals, name: Bytes, lines: seq<Bytes>, ex: Extractors) returns (u: Totals)
    requires lines != []
    ensures AfterLines(t, name, lines, ex) == AfterLines(u, name, lines[1..], ex)
    ensures if Tells(what, name, lines[0], ex) then Holds(what, u, name, lines[0], ex) else Agree(what, t, u)
  {
    LineParts(lines, ex);
    hide CarriesData, PayloadsOf;
    u := t;
    if CarriesData(lines[0], ex) {
      u := Absorb(t, name, DataOf(lines[0], ex), ex);
      assert PayloadsOf(lines, ex)[1..] == PayloadsOf(lines[1..], ex);
    }
  }

  lemma {:induction false} QuietLines(what: What, t: Totals, name: Bytes, lines: seq<Bytes>, ex: Extractors)
    requires forall i :: 0 <= i < |lines| ==> !Tells(what, name, lines[i], ex)
    ensures Agree(what, t, AfterLines(t, name, lines, ex))
    decreases |lines|
  {
    hide Tells, AfterLines;
    if lines == [] {
      NoLines(t, name, ex);
    } else {
      var u := LineStep(what, t, name, lines, ex);
      assert forall i :: 0 <= i < |lines| - 1 ==> lines[1..][i] == lines[i + 1];
      QuietLines(what, u, name, lines[1..], ex);
    }
  }

  lemma NoLines(t: Totals, name: Bytes, ex: Extractors)
    ensures AfterLines(t, name, [], ex) == t
  {
  }

  lemma {:induction false} LastLineWins(what: What, t: Totals, name: Bytes, lines: seq<Bytes>, l: nat, ex: Extractors)
    requires l < |lines| && Tells(what, name, lines[l], ex)
    requires forall i :: l < i < |lines| ==> !Tells(what, name, lines[i], ex)
    ensures CarriesData(lines[l], ex) && Holds(what, AfterLines(t, name, lines, ex), name, lines[l], ex)
    decreases |lines|
  {
    assert CarriesData(lines[l], ex);
    hide Tells, AfterLines, CarriesData;
    var u := LineStep(what, t, name, lines, ex);
    assert forall i :: 0 <= i < |lines| - 1 ==> lines[1..][i] == lines[i + 1];
    if l == 0 {
      QuietLines(what, u, name, lines[1..], ex);
    } else {
      LastLineWins(what, u, name, lines[1..], l - 1, ex);
    }
  }

  // ---------- The whole stream ----------

  /** Line l of event b tells it. */
  ghost predicate TellsAt(what: What, blocks: seq<Block>, b: nat, l: nat, ex: Extractors) {
    b < |blocks| && l < |SplitLines(blocks[b].event)| &&
    Tells(what, NameOf(SplitLines(blocks[b].event), [], ex), SplitLines(blocks[b].event)[l], ex)
  }

  ghost predicate Later(b: nat, l: nat, b': nat, l': nat) {
    b < b' || (b == b' && l < l')
  }

  /** The last line that tells it. */
  ghost predicate LastTelling(what: What, blocks: seq<Block>, b: nat, l: nat, ex: Extractors) {
    TellsAt(what, blocks, b, l, ex) &&
    forall b': nat, l': nat :: Later(b, l, b', l') ==> !TellsAt(what, blocks, b', l', ex)
  }

  lemma {:induction false} QuietBlocks(what: What, t: Totals, blocks: seq<Block>, ex: Extractors)
    requires forall b: nat, l: nat :: !TellsAt(what, blocks, b, l, ex)
    ensures Agree(what, t, EachEvent(t, blocks, ex))
    decreases |blocks|
  {
    hide Tells, OneEvent, SplitLines, NameOf;
    if blocks != [] {
      var u := OneEvent(t, blocks[0].event, ex);
      QuietEvent(what, t, blocks, ex);
      forall b: nat, l: nat ensures !TellsAt(what, blocks[1..], b, l, ex) {
        assert !TellsAt(what, blocks, b + 1, l, ex);
      }
      QuietBlocks(what, u, blocks[1..], ex);
    }
  }

  lemma QuietEvent(what: What, t: Totals, blocks: seq<Block>, ex: Extractors)
    requires blocks != [] && forall l: nat :: !TellsAt(what, blocks, 0, l, ex)
    ensures Agree(what, t, OneEvent(t, blocks[0].event, ex))
  {
    hide Tells, SplitLines, NameOf, PayloadsOf, AbsorbAll;
    var lines := SplitLines(blocks[0].event);
    var name := NameOf(lines, [], ex);
    forall i | 0 <= i < |lines| ensures !Tells(what, name, lines[i], ex) {
      assert !TellsAt(what, blocks, 0, i, ex);
    }
    QuietLines(what, t, name, lines, ex);
  }

  lemma {:induction false} LastBlockWins(what: What, t: Totals, blocks: seq<Block>, b: nat, l: nat, ex: Extractors)
    requires LastTelling(what, blocks, b, l, ex)
    ensures var lines := SplitLines(blocks[b].event);
            CarriesData(lines[l], ex) && Holds(what, EachEvent(t, blocks, ex), NameOf(lines, [], ex), lines[l], ex)
    decreases |blocks|
  {
    hide Tells, OneEvent, SplitLines, NameOf, CarriesData;
    assert TellsAt(what, blocks, b, l, ex);
    var u := OneEvent(t, blocks[0].event, ex);
    forall b': nat, l': nat | b == 0 || Later(b - 1, l, b', l') ensures !TellsAt(what, blocks[1..], b', l', ex) {
      assert Later(b, l, b' + 1, l');
      assert !TellsAt(what, blocks, b' + 1, l', ex);
    }
    if b == 0 {
      LastEventWins(what, t, blocks, l, ex);
      QuietBlocks(what, u, blocks[1..], ex);
    } else {
      assert TellsAt(what, blocks[1..], b - 1, l, ex);
      LastBlockWins(what, u, blocks[1..], b - 1, l, ex);
    }
  }

  lemma LastEventWins(what: What, t: Totals, blocks: seq<Block>, l: nat, ex: Extractors)
    requires LastTelling(what, blocks, 0, l, ex)
    ensures var lines := SplitLines(blocks[0].event);
            CarriesData(lines[l], ex) && Holds(what, OneEvent(t, blocks[0].event, ex), NameOf(lines, [], ex), lines[l], ex)
  {
    hide Tells, SplitLines, NameOf, PayloadsOf, AbsorbAll, CarriesData;
    var lines := SplitLines(blocks[0].event);
    var name := NameOf(lines, [], ex);
    forall i | l < i < |lines| ensures !Tells(what, name, lines[i], ex) {
      assert Later(0, l, 0, i);
      assert !TellsAt(what, blocks, 0, i, ex);
    }
    LastLineWins(what, t, name, lines, l, ex);
  }

  /** After a stream the observer holds the usage and the response id of the last lines that tell them, or none. */
  lemma LastFindingWins(buf: Bytes, ex: Extractors, what: What)
    ensures var r, blocks := Fold(NOTHING_SEEN, buf, ex).0, Blocks(buf);
            && ((forall b: nat, l: nat :: !TellsAt(what, blocks, b, l, ex)) ==> Agree(what, NOTHING_SEEN, r))
            && (forall b: nat, l: nat :: LastTelling(what, blocks, b, l, ex) ==>
                  var lines := SplitLines(blocks[b].event);
                  CarriesData(lines[l], ex) && Holds(what, r, NameOf(lines, [], ex), lines[l], ex))
  {
    hide Fold, Blocks, EachEvent, TellsAt, CarriesData, NameOf, SplitLines, LastTelling;
    FoldSplitsStream(NOTHING_SEEN, buf, ex);
    var blocks := Blocks(buf);
    if forall b: nat, l: nat :: !TellsAt(what, blocks, b, l, ex) {
      QuietBlocks(what, NOTHING_SEEN, blocks, ex);
    }
    forall b: nat, l: nat | LastTelling(what, blocks, b, l, ex)
      ensures b < |blocks| && l < |SplitLines(blocks[b].event)| &&
              var lines := SplitLines(blocks[b].event);
              CarriesData(lines[l], ex) && Holds(what, EachEvent(NOTHING_SEEN, blocks, ex), NameOf(lines, [], ex), lines[l], ex)
    {
      InStream(what, blocks, b, l, ex);
      LastBlockWins(what, NOTHING_SEEN, blocks, b, l, ex);
    }
  }

  lemma InStream(what: What, blocks: seq<Block>, b: nat, l: nat, ex: Extractors)
    requires LastTelling(what, blocks, b, l, ex)
    ensures b < |blocks| && l < |SplitLines(blocks[b].event)|
  {
    assert TellsAt(what, blocks, b, l, ex);
  }
}
