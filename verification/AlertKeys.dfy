/** Length-prefixed framing of the components of a deduplication key. */
module AlertKeys {
  import opened Bytes

  const LENGTH_BYTES: nat := 8

  /** The last k base-256 digits of n, most significant first. */
  function BigEndian(n: nat, k: nat): (r: Bytes)
    ensures |r| == k
  {
    if k == 0 then [] else BigEndian(n / 256, k - 1) + [(n % 256) as Byte]
  }

  function Pow256(k: nat): (p: nat)
    ensures p >= 1
  {
    if k == 0 then 1 else 256 * Pow256(k - 1)
  }

  lemma {:induction false} BigEndianUnique(m: nat, n: nat, k: nat)
    requires m < Pow256(k) && n < Pow256(k) && BigEndian(m, k) == BigEndian(n, k)
    ensures m == n
  {
    if k > 0 {
      var a, b := BigEndian(m, k), BigEndian(n, k);
      assert a[..k - 1] == BigEndian(m / 256, k - 1) && b[..k - 1] == BigEndian(n / 256, k - 1);
      assert a[k - 1] == (m % 256) as Byte && b[k - 1] == (n % 256) as Byte;
      BigEndianUnique(m / 256, n / 256, k - 1);
    }
  }

  /** Every component behind its length. */
  function Framed(components: seq<Bytes>): Bytes {
    if components == [] then []
    else BigEndian(|components[0]|, LENGTH_BYTES) + components[0] + Framed(components[1..])
  }

  /** Lengths that fit the prefix. */
  ghost predicate Framable(components: seq<Bytes>) {
    forall i :: 0 <= i < |components| ==> |components[i]| < Pow256(LENGTH_BYTES)
  }

  /** Two lists of components with the same frame are the same list. */
  lemma {:induction false} FramingIsUnambiguous(a: seq<Bytes>, b: seq<Bytes>)
    requires Framable(a) && Framable(b) && Framed(a) == Framed(b)
    ensures a == b
    decreases |a|
  {
    if a != [] && b != [] {
      FirstComponent(a, b);
      FramingIsUnambiguous(a[1..], b[1..]);
      assert a == [a[0]] + a[1..] && b == [b[0]] + b[1..];
    }
  }

  lemma FirstComponent(a: seq<Bytes>, b: seq<Bytes>)
    requires a != [] && b != [] && Framable(a) && Framable(b) && Framed(a) == Framed(b)
    ensures a[0] == b[0] && Framed(a[1..]) == Framed(b[1..])
  {
    hide BigEndian, Pow256;
    var f, n := Framed(a), |a[0]|;
    assert f[..LENGTH_BYTES] == BigEndian(n, LENGTH_BYTES) && f[..LENGTH_BYTES] == BigEndian(|b[0]|, LENGTH_BYTES);
    BigEndianUnique(n, |b[0]|, LENGTH_BYTES);
    assert f[LENGTH_BYTES..][..n] == a[0] && f[LENGTH_BYTES..][..n] == b[0];
    assert f[LENGTH_BYTES..][n..] == Framed(a[1..]) && f[LENGTH_BYTES..][n..] == Framed(b[1..]);
  }
}
