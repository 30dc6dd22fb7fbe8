/** Octet strings shared by the stream modules. */
module Bytes {

  newtype Byte = b: int | 0 <= b < 256

  type Bytes = seq<Byte>

  const LF: Byte := 10
  const CR: Byte := 13
  const SPACE: Byte := 32
  const COLON: Byte := 58

  /** The first index of `b` in `s`, or |s| when `b` does not occur. */
  function IndexByte(s: Bytes, b: Byte): (i: nat)
    ensures i <= |s|
    ensures i < |s| ==> s[i] == b
    ensures forall k :: 0 <= k < i ==> s[k] != b
  {
    if s == [] || s[0] == b then 0 else 1 + IndexByte(s[1..], b)
  }

  /** The first index is the only one that satisfies IndexByte's contract. */
  lemma IndexByteUnique(s: Bytes, b: Byte, i: nat)
    requires i <= |s|
    requires i < |s| ==> s[i] == b
    requires forall k :: 0 <= k < i ==> s[k] != b
    ensures IndexByte(s, b) == i
  {
  }

  function Concat(chunks: seq<Bytes>): Bytes {
    if chunks == [] then [] else chunks[0] + Concat(chunks[1..])
  }

  lemma ConcatAppend(a: seq<Bytes>, b: seq<Bytes>)
    ensures Concat(a + b) == Concat(a) + Concat(b)
  {
    if a == [] {
      assert a + b == b;
    } else {
      assert (a + b)[1..] == a[1..] + b;
      ConcatAppend(a[1..], b);
    }
  }

  function Ascii(s: string): (r: Bytes)
    requires forall i :: 0 <= i < |s| ==> (s[i] as int) < 128
    ensures |r| == |s| && forall i :: 0 <= i < |s| ==> r[i] as int == s[i] as int
  {
    seq(|s|, i requires 0 <= i < |s| => (s[i] as int) as Byte)
  }

  /** The bytes are the characters of an ASCII text. */
  ghost predicate Spells(b: Bytes, text: string) {
    |b| == |text| && forall i :: 0 <= i < |text| ==> b[i] as int == text[i] as int
  }

  lemma SpellsAscii(b: Bytes, text: string)
    requires forall i :: 0 <= i < |text| ==> (text[i] as int) < 128
    ensures Spells(b, text) <==> b == Ascii(text)
  {
    if Spells(b, text) {
      assert forall i :: 0 <= i < |text| ==> b[i] == Ascii(text)[i];
    }
  }

  ghost predicate StartsWith(b: Bytes, text: string) {
    |text| <= |b| && Spells(b[..|text|], text)
  }
}
