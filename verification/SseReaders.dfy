/**
 * The reader stack below the SSE parser: an upstream body that delivers its
 * bytes in reads of any size, the byte-limited reader wrapped around it, and
 * the 4 KiB buffered reader that cuts the result at line feeds.  Each class
 * keeps in `rest` the stream its consumer is still going to see.
 */
module SseReaders {
  import opened Options
  import opened Bytes

  datatype ReadError = Eof | TooLarge | IdleTimeout | Broken

  /** A byte stream as its consumer sees it: the bytes still to come, then an error. */
  datatype Stream = Stream(bytes: Bytes, end: ReadError)

  const BUFFER_SIZE: nat := 4096

  /** What a limited reader lets through when `budget` bytes may still pass. */
  function Limited(s: Stream, budget: int): Stream {
    if |s.bytes| <= budget then s
    else Stream(if budget < 0 then [] else s.bytes[..budget + 1], TooLarge)
  }

  lemma LimitedAdvances(s: Stream, budget: nat, data: Bytes, rest: Bytes)
    requires s.bytes == data + rest && |data| <= budget + 1
    ensures var before, after := Limited(s, budget), Limited(Stream(rest, s.end), budget - |data|);
            data + after.bytes == before.bytes && after.end == before.end
  {
    if |s.bytes| > budget && |data| <= budget {
      assert data + rest[..budget - |data| + 1] == s.bytes[..budget + 1];
    }
  }

  lemma LimitedEnds(s: Stream, budget: int)
    ensures budget < 0 ==> Limited(s, budget) == Stream([], TooLarge)
    ensures budget >= 0 && s.bytes == [] ==> Limited(s, budget) == s
  {
  }

  /** Taking `data` off the front of one stream leaves the other. */
  predicate Advances(before: Stream, data: Bytes, after: Stream) {
    data + after.bytes == before.bytes && after.end == before.end
  }

  class ByteSource {
    /** The data of the coming reads; one chunk may be delivered in several reads. */
    var chunks: seq<Bytes>
    const end: ReadError
    /** Whether the read that delivers the last byte reports the end as well. */
    const eager: bool
    ghost var rest: Stream

    constructor (chunks: seq<Bytes>, end: ReadError, eager: bool)
      requires forall i :: 0 <= i < |chunks| ==> chunks[i] != []
      ensures Valid() && rest == Stream(Concat(chunks), end)
    {
      this.chunks, this.end, this.eager := chunks, end, eager;
      rest := Stream(Concat(chunks), end);
    }

    ghost predicate Valid()
      reads this
    {
      (forall i :: 0 <= i < |chunks| ==> chunks[i] != []) && rest == Stream(Concat(chunks), end)
    }

    method Read(max: nat) returns (data: Bytes, err: Option<ReadError>)
      requires Valid() && 1 <= max
      modifies this
      ensures Valid() && Advances(old(rest), data, rest) && |data| <= max
      ensures err.None? ==> data != []
      ensures err.Some? ==> rest == Stream([], err.value)
    {
      if chunks == [] {
        return [], Some(end);
      }
      var first := chunks[0];
      var n := if |first| <= max then |first| else max;
      data := first[..n];
      assert first == data + first[n..];
      if n == |first| {
        chunks := chunks[1..];
      } else {
        chunks := [first[n..]] + chunks[1..];
        assert Concat(chunks) == first[n..] + Concat(chunks[1..]);
        assert chunks[1..] == old(chunks[1..]);
      }
      rest := Stream(Concat(chunks), end);
      err := if eager && chunks == [] then Some(end) else None;
    }
  }

  class BoundedReader {
    const source: ByteSource
    const max: int
    var read: int
    ghost var rest: Stream

    constructor (source: ByteSource, max: int)
      requires source.Valid()
      ensures Valid() && this.source == source && this.max == max
      ensures rest == if max > 0 then Limited(source.rest, max) else source.rest
    {
      this.source, this.max, this.read := source, max, 0;
      rest := if max > 0 then Limited(source.rest, max) else source.rest;
    }

    ghost predicate Valid()
      reads this, source
    {
      source.Valid() && rest == if max > 0 then Limited(source.rest, max - read) else source.rest
    }

    method Read(room: nat) returns (data: Bytes, err: Option<ReadError>)
      requires Valid() && 1 <= room
      modifies this, source
      ensures Valid() && Advances(old(rest), data, rest) && |data| <= room
      ensures err.None? ==> data != []
      ensures err.Some? ==> rest == Stream([], err.value)
    {
      hide Limited;
      LimitedEnds(source.rest, max - read);
      var space := room;
      if max > 0 {
        var remaining := max - read;
        if remaining < 0 {
          return [], Some(TooLarge);
        }
        if space > remaining + 1 {
          space := remaining + 1;
        }
      }
      ghost var before := source.rest;
      data, err := source.Read(space);
      if max > 0 {
        LimitedAdvances(before, max - read, data, source.rest.bytes);
      }
      read := read + |data|;
      LimitedEnds(source.rest, max - read);
      rest := if max > 0 then Limited(source.rest, max - read) else source.rest;
      if max > 0 && read > max {
        err := Some(TooLarge);
      }
    }
  }

  datatype SliceStatus = Line | BufferFull | Ended(err: ReadError)

  class BufferedReader {
    const reader: BoundedReader
    var buf: Bytes
    /** An error reported by the reader that its consumer has not seen yet. */
    var pending: Option<ReadError>
    ghost var rest: Stream

    constructor (reader: BoundedReader)
      requires reader.Valid()
      ensures Valid() && rest == reader.rest && this.reader == reader
    {
      this.reader, this.buf, this.pending := reader, [], None;
      rest := reader.rest;
    }

    ghost predicate Valid()
      reads this, reader, reader.source
    {
      reader.Valid() && |buf| <= BUFFER_SIZE && Advances(rest, buf, reader.rest) &&
      (pending.Some? ==> reader.rest == Stream([], pending.value))
    }

    method Fill()
      requires Valid() && pending.None? && |buf| < BUFFER_SIZE
      modifies this, reader, reader.source
      ensures Valid() && rest == old(rest)
      ensures |old(buf)| < |buf| || (pending.Some? && |old(buf)| <= |buf|)
    {
      var data, err := reader.Read(BUFFER_SIZE - |buf|);
      assert (buf + data) + reader.rest.bytes == buf + (data + reader.rest.bytes);
      buf, pending := buf + data, err;
    }

    /** Hands out the first n buffered bytes. */
    method Take(n: nat) returns (chunk: Bytes)
      requires Valid() && n <= |buf|
      modifies this
      ensures Valid() && buf == old(buf)[n..] && chunk == old(buf)[..n] && pending == old(pending)
      ensures Advances(old(rest), chunk, rest)
    {
      chunk := buf[..n];
      assert rest.bytes == chunk + (buf[n..] + reader.rest.bytes);
      buf := buf[n..];
      rest := Stream(buf + reader.rest.bytes, rest.end);
    }

    /** Cuts the stream after the next line feed, at a full buffer, or at its end. */
    method ReadSlice() returns (chunk: Bytes, status: SliceStatus)
      requires Valid()
      modifies this, reader, reader.source
      ensures Valid() && Advances(old(rest), chunk, rest)
      ensures IsSlice(chunk, status, rest)
    {
      while true
        invariant Valid() && rest == old(rest)
        decreases BUFFER_SIZE - |buf|, pending.None?
      {
        var i := IndexByte(buf, LF);
        if i < |buf| {
          chunk := Take(i + 1);
          return chunk, Line;
        }
        if pending.Some? {
          status := Ended(pending.value);
          chunk := Take(|buf|);
          pending := None;
          return;
        }
        if |buf| == BUFFER_SIZE {
          chunk := Take(|buf|);
          return chunk, BufferFull;
        }
        Fill();
      }
    }
  }

  ghost predicate IsSlice(chunk: Bytes, status: SliceStatus, rest: Stream) {
    match status
    case Line => chunk != [] && chunk[|chunk| - 1] == LF && LF !in chunk[..|chunk| - 1]
    case BufferFull => |chunk| == BUFFER_SIZE && LF !in chunk
    case Ended(err) => LF !in chunk && rest == Stream([], err)
  }
}
