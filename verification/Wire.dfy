/** Octets, Python's clipping slices and the big-endian integers of the DNS wire format. */
module Wire {

  type Byte = b: int | 0 <= b < 256
  type Octets = seq<Byte>
  type U16 = n: int | 0 <= n < 0x1_0000
  type U32 = n: int | 0 <= n < 0x1_0000_0000

  datatype Option<+T> = None | Some(value: T)

  /** The exceptions the modelled code can raise. */
  datatype Error =
    | ShortPacket        // fewer than the 12 header bytes
    | TruncatedQuestion
    | TruncatedRecord
    | PackOverflow       // struct.error: a value does not fit its field
    | AlreadyBuilt       // RuntimeError: the send data exists already

  datatype Result<+T> = Ok(value: T) | Err(error: Error) {
    predicate IsFailure() { Err? }
    function PropagateFailure<U>(): Result<U> requires Err? { Err(error) }
    function Extract(): T requires Ok? { value }
  }

  /** `s[:n]`, which clips instead of failing. */
  function Take<T>(s: seq<T>, n: nat): seq<T> {
    if n <= |s| then s[..n] else s
  }

  /** `s[n:]`, which clips instead of failing. */
  function Drop<T>(s: seq<T>, n: nat): seq<T> {
    if n <= |s| then s[n..] else []
  }

  lemma DropDrop<T>(s: seq<T>, a: nat, b: nat)
    ensures Drop(Drop(s, a), b) == Drop(s, a + b)
  {
  }

  lemma DropNothing<T>(s: seq<T>)
    ensures Drop(s, 0) == s
  {
  }

  lemma DropConcat<T>(a: seq<T>, b: seq<T>)
    ensures Drop(a + b, |a|) == b
    ensures Take(a + b, |a|) == a
  {
  }

  lemma Associative<T>(a: seq<T>, b: seq<T>, c: seq<T>)
    ensures a + (b + c) == a + b + c
  {
  }

  /** A concatenation seen from the first element of its first part. */
  lemma FirstOfConcat<T>(a: seq<T>, b: seq<T>)
    requires a != []
    ensures a + b != [] && (a + b)[0] == a[0] && (a + b)[1..] == a[1..] + b
  {
  }

  /** `bytes` stand in `m` from offset `at` on. */
  predicate Sits(m: Octets, at: nat, bytes: Octets) { at + |bytes| <= |m| && m[at..at + |bytes|] == bytes }

  lemma SitsSplit(m: Octets, at: nat, a: Octets, b: Octets)
    requires Sits(m, at, a + b)
    ensures Sits(m, at, a) && Sits(m, at + |a|, b)
  {
    assert m[at..at + |a|] == m[at..at + |a + b|][..|a|] == a;
    assert m[at + |a|..at + |a| + |b|] == m[at..at + |a + b|][|a|..] == b;
  }

  lemma SitsBehind(a: Octets, b: Octets, c: Octets)
    ensures Sits(a + (b + c), |a|, b)
  {
  }

  lemma SitsInside(m: Octets, at: nat, b: Octets, d: nat, e: Octets)
    requires Sits(m, at, b) && Sits(b, d, e)
    ensures Sits(m, at + d, e)
  {
    forall i | 0 <= i < |e| ensures m[at + d + i] == e[i] {
      assert m[at..at + |b|][d + i] == b[d + i] && b[d..d + |e|][i] == e[i];
    }
  }

  function Unpack16(b: Octets, at: nat): (n: U16)
    requires at + 2 <= |b|
  {
    var hi: int, lo: int := b[at], b[at + 1];
    256 * hi + lo
  }

  function Pack16(n: U16): (b: Octets)
    ensures |b| == 2 && Unpack16(b, 0) == n
  {
    [n / 256, n % 256]
  }

  function Unpack32(b: Octets, at: nat): (n: U32)
    requires at + 4 <= |b|
  {
    0x1_0000 * Unpack16(b, at) + Unpack16(b, at + 2)
  }

  function Pack32(n: U32): (b: Octets)
    ensures |b| == 4 && Unpack32(b, 0) == n
  {
    Pack16(n / 0x1_0000) + Pack16(n % 0x1_0000)
  }

  /** Packing undoes unpacking. */
  lemma PackUnpack16(b: Octets, at: nat)
    requires at + 2 <= |b|
    ensures Pack16(Unpack16(b, at)) == b[at..at + 2]
  {
  }

  lemma PackUnpack32(b: Octets, at: nat)
    requires at + 4 <= |b|
    ensures Pack32(Unpack32(b, at)) == b[at..at + 4]
  {
    var n := Unpack32(b, at);
    assert n / 0x1_0000 == Unpack16(b, at) && n % 0x1_0000 == Unpack16(b, at + 2);
    PackUnpack16(b, at);
    PackUnpack16(b, at + 2);
  }

  lemma Unpack16Drop(b: Octets, at: nat)
    requires at + 2 <= |b|
    ensures Unpack16(b[at..], 0) == Unpack16(b, at)
  {
  }

  lemma UnpackSlice32(b: Octets, at: nat, n: U32)
    requires at + 4 <= |b| && b[at..at + 4] == Pack32(n)
    ensures Unpack32(b, at) == n
  {
    var c := b[at..at + 4];
    assert c[0] == b[at] && c[1] == b[at + 1] && c[2] == b[at + 2] && c[3] == b[at + 3];
  }
}
