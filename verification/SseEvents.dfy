/** What an event is, told from its lines: endings, fields, the name, the data, and the bytes that count. */
module SseEvents {
  import opened Options
  import opened Bytes
  import opened SseFormat
  import opened SseReference
  import opened UsageObserver

  // ---------- Lines ----------

  /** A line loses its line feed and one carriage return before it, and nothing else. */
  lemma LineEnding(raw: Bytes)
    requires IsLine(raw)
    ensures var line := TrimLineEnding(raw);
            raw == line + [CR, LF] || (raw == line + [LF] && (line == [] || line[|line| - 1] != CR))
    ensures Blank(raw) <==> raw == [LF] || raw == [CR, LF]
    ensures LF !in TrimLineEnding(raw)
  {
    var n := |raw| - 1;
    assert raw == raw[..n] + [LF];
    if n > 0 && raw[n - 1] == CR {
      assert raw == raw[..n - 1] + [CR, LF];
    }
  }

  /** The name holds no colon; the value follows the first one, and one space after it. */
  lemma FieldParts(line: Bytes)
    ensures var (field, value) := SplitField(line);
            && COLON !in field
            && (|| (line == field && value == [])
                || line == field + [COLON, SPACE] + value
                || (line == field + [COLON] + value && !([SPACE] <= value)))
  {
    var colon := IndexByte(line, COLON);
    if colon < |line| {
      assert line == line[..colon] + [COLON] + line[colon + 1..];
    }
  }

  /** A line has only one field and value. */
  lemma FieldPartsUnique(line: Bytes, field: Bytes, value: Bytes)
    requires COLON !in field
    requires || (line == field && value == [])
             || line == field + [COLON, SPACE] + value
             || (line == field + [COLON] + value && !([SPACE] <= value))
    ensures SplitField(line) == (field, value)
  {
    assert forall k :: 0 <= k < |field| ==> line[k] == field[k];
    IndexByteUnique(line, COLON, |field|);
    if |field| < |line| {
      assert line[..|field|] == field;
      assert line == field + [COLON, SPACE] + value ==> line[|field| + 1..] == [SPACE] + value;
      assert line == field + [COLON] + value ==> line[|field| + 1..] == value;
    }
  }

  lemma FieldNames()
    ensures Spells(EVENT_FIELD, "event") && Spells(DATA_FIELD, "data") && COLON as char == ':' && SPACE as char == ' '
  {
  }

  // ---------- The name ----------

  predicate Names(line: Bytes) {
    SplitField(line).0 == EVENT_FIELD
  }

  ghost predicate LastNaming(group: seq<Bytes>, i: nat) {
    i < |group| && Names(group[i]) && forall j :: i < j < |group| ==> !Names(group[j])
  }

  /** An event is named by the last of its event lines. */
  lemma {:induction false} LastNameCounts(group: seq<Bytes>, i: nat)
    requires LastNaming(group, i)
    ensures EventOf(group).name == SplitField(group[i]).1
  {
    hide SplitField, Names, EventOf;
    var n := |group| - 1;
    NameStep(group);
    if i < n {
      LastNameCounts(group[..n], i);
    }
  }

  /** An event without an event line has no name. */
  lemma {:induction false} Unnamed(group: seq<Bytes>)
    requires forall i :: 0 <= i < |group| ==> !Names(group[i])
    ensures EventOf(group).name == []
  {
    hide SplitField, Names;
    if group != [] {
      NameStep(group);
      Unnamed(group[..|group| - 1]);
    }
  }

  lemma NameStep(group: seq<Bytes>)
    requires group != []
    ensures var n := |group| - 1;
            EventOf(group).name == if Names(group[n]) then SplitField(group[n]).1 else EventOf(group[..n]).name
  {
    hide SplitField, Join, DataValues;
  }

  // ---------- The data ----------

  /** The number of data lines among the first n. */
  function DataLines(group: seq<Bytes>, n: nat): nat
    requires n <= |group|
  {
    if n == 0 then 0 else DataLines(group, n - 1) + if IsData(group[n - 1]) then 1 else 0
  }

  lemma {:induction false} DataLinesPrefix(group: seq<Bytes>, m: nat, n: nat)
    requires n <= m <= |group|
    ensures DataLines(group[..m], n) == DataLines(group, n)
  {
    if n > 0 {
      DataLinesPrefix(group, m, n - 1);
    }
  }

  /** The values of an event are those of its data lines, each in its place. */
  lemma {:induction false} ValuesInOrder(group: seq<Bytes>)
    ensures |DataValues(group)| == DataLines(group, |group|)
    ensures forall i :: 0 <= i < |group| && IsData(group[i]) ==>
              DataLines(group, i) < |DataValues(group)| && DataValues(group)[DataLines(group, i)] == SplitField(group[i]).1
  {
    hide SplitField, IsData;
    if group != [] {
      var n := |group| - 1;
      var most := group[..n];
      ValuesInOrder(most);
      DataLinesPrefix(group, n, n);
      forall i | 0 <= i < |group| && IsData(group[i])
        ensures DataLines(group, i) < |DataValues(group)| && DataValues(group)[DataLines(group, i)] == SplitField(group[i]).1
      {
        DataLinesPrefix(group, n, i);
        if i < n {
          assert most[i] == group[i];
        }
      }
    }
  }

  lemma {:induction false} SplitAppend(s: Bytes, line: Bytes)
    requires LF !in line
    ensures SplitLines(s + ([LF] + line)) == SplitLines(s) + [line]
    decreases |s|
  {
    hide SplitLines, IndexByte;
    var n, whole := IndexByte(s, LF), s + ([LF] + line);
    SameFirst(s, [LF] + line, n);
    FirstSplit(whole, n);
    FirstSplit(s, n);
    if n == |s| {
      CutBehind(s, line);
      OneLine(line);
    } else {
      CutWithin(s, [LF] + line, n);
      var tail := s[n + 1..];
      SplitAppend(tail, line);
      assert [s[..n]] + (SplitLines(tail) + [line]) == ([s[..n]] + SplitLines(tail)) + [line];
    }
  }

  lemma FirstSplit(s: Bytes, n: nat)
    requires n == IndexByte(s, LF)
    ensures n == |s| ==> SplitLines(s) == [s]
    ensures n < |s| ==> SplitLines(s) == [s[..n]] + SplitLines(s[n + 1..])
  {
    if n == |s| {
      OneLine(s);
    }
  }

  lemma SameFirst(s: Bytes, rest: Bytes, n: nat)
    requires n == IndexByte(s, LF) && (n == |s| ==> rest != [] && rest[0] == LF)
    ensures IndexByte(s + rest, LF) == n
  {
    hide IndexByte;
    forall k | 0 <= k < n ensures (s + rest)[k] != LF {
      assert (s + rest)[k] == s[k];
    }
    IndexByteUnique(s + rest, LF, n);
  }

  lemma CutBehind(s: Bytes, line: Bytes)
    ensures (s + ([LF] + line))[..|s|] == s && (s + ([LF] + line))[|s| + 1..] == line
  {
  }

  lemma CutWithin(s: Bytes, rest: Bytes, n: nat)
    requires n < |s|
    ensures (s + rest)[..n] == s[..n] && (s + rest)[n + 1..] == s[n + 1..] + rest
  {
  }

  /** The data of an event, cut at its line feeds, are the values of its data lines. */
  lemma {:induction false} DataSplitsBack(values: seq<Bytes>)
    requires values != [] && forall i :: 0 <= i < |values| ==> LF !in values[i]
    ensures SplitLines(Join(values)) == values
  {
    hide SplitLines;
    var n := |values| - 1;
    if n == 0 {
      OneLine(values[0]);
    } else {
      DataSplitsBack(values[..n]);
      SplitAppend(Join(values[..n]), values[n]);
      Regroup(Join(values[..n]), [LF], values[n]);
    }
    assert values == values[..n] + [values[n]];
  }

  lemma Regroup(a: Bytes, b: Bytes, c: Bytes)
    ensures a + b + c == a + (b + c)
  {
  }

  lemma OneLine(line: Bytes)
    requires LF !in line
    ensures SplitLines(line) == [line]
  {
    assert IndexByte(line, LF) == |line|;
  }

  /** The data of an event whose lines hold no line feed are its values, and it has data if it has a data line. */
  lemma EventData(group: seq<Bytes>)
    requires forall i :: 0 <= i < |group| ==> LF !in group[i]
    ensures EventOf(group).hasData <==> exists i :: 0 <= i < |group| && IsData(group[i])
    ensures EventOf(group).hasData ==> SplitLines(EventOf(group).data) == DataValues(group)
    ensures !EventOf(group).hasData ==> EventOf(group).data == []
  {
    hide SplitField, IsData, SplitLines;
    ValuesInOrder(group);
    SomeDataLine(group, |group|);
    if DataValues(group) != [] {
      ValuesHaveNoLf(group);
      DataSplitsBack(DataValues(group));
    }
  }

  lemma {:induction false} SomeDataLine(group: seq<Bytes>, n: nat)
    requires n <= |group|
    ensures DataLines(group, n) > 0 <==> exists i :: 0 <= i < n && IsData(group[i])
  {
    hide IsData;
    if n > 0 {
      SomeDataLine(group, n - 1);
    }
  }

  lemma {:induction false} ValuesHaveNoLf(group: seq<Bytes>)
    requires forall i :: 0 <= i < |group| ==> LF !in group[i]
    ensures forall i :: 0 <= i < |DataValues(group)| ==> LF !in DataValues(group)[i]
  {
    if group != [] {
      ValuesHaveNoLf(group[..|group| - 1]);
      var line := group[|group| - 1];
      FieldParts(line);
      assert forall b :: b in SplitField(line).1 ==> b in line;
      hide SplitField;
    }
  }

  // ---------- The bytes that count ----------

  /** The size of an event is that of its lines together, without their endings. */
  lemma {:induction false} SizeOfEvent(group: seq<Bytes>)
    ensures EventBytes(group) == |Concat(group)|
  {
    if group != [] {
      var n := |group| - 1;
      SizeOfEvent(group[..n]);
      assert group == group[..n] + [group[n]];
      ConcatAppend(group[..n], [group[n]]);
      assert [group[n]][1..] == [];
      assert Concat([group[n]]) == group[n] + [];
    }
  }
}
