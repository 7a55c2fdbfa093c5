/**
 Bloom bitsets: eleven bit positions per digest by double hashing modulo 2^64.
 Bits are only ever set, so what was inserted is found for ever after.
 */
module Bloom {
  import opened Bytes
  import opened RunFormat

  const HASHES := 11
  const WRAP := 0x1_0000_0000_0000_0000

  function Exp2(n: nat): (p: nat)
    ensures p > 0
  {
    if n == 0 then 1 else 2 * Exp2(n - 1)
  }

  /** `x & 1 << k != 0`. */
  predicate BitSet(x: nat, k: nat)
  {
    if k == 0 then x % 2 == 1 else BitSet(x / 2, k - 1)
  }

  /** `x | 1 << k`. */
  function SetBit(x: nat, k: nat): nat
  {
    if k == 0 then x / 2 * 2 + 1 else SetBit(x / 2, k - 1) * 2 + x % 2
  }

  lemma {:induction false} SetBitBound(x: nat, k: nat, n: nat)
    requires x < Exp2(n) && k < n
    ensures SetBit(x, k) < Exp2(n)
  {
    if k > 0 { SetBitBound(x / 2, k - 1, n - 1); }
  }

  lemma {:induction false} SetBitExact(x: nat, k: nat, j: nat)
    ensures BitSet(SetBit(x, k), j) <==> j == k || BitSet(x, j)
  {
    if k > 0 {
      assert SetBit(x, k) / 2 == SetBit(x / 2, k - 1) && SetBit(x, k) % 2 == x % 2;
      if j > 0 { SetBitExact(x / 2, k - 1, j - 1); }
    } else {
      assert SetBit(x, k) / 2 == x / 2;
    }
  }

  lemma ByteWidth()
    ensures Exp2(8) == 256
  {
    assert Exp2(4) == 16;
  }

  function SetByteBit(x: Byte, k: nat): Byte
    requires k < 8
  {
    ByteWidth(); SetBitBound(x, k, 8);
    SetBit(x, k)
  }

  predicate BitAt(bits: Bytes, n: nat)
    requires n < |bits| * 8
  {
    BitSet(bits[n / 8], n % 8)
  }

  function WithBit(bits: Bytes, n: nat): Bytes
    requires n < |bits| * 8
  {
    bits[n / 8 := SetByteBit(bits[n / 8], n % 8)]
  }

  lemma WithBitExact(bits: Bytes, n: nat, m: nat)
    requires n < |bits| * 8 && m < |bits| * 8
    ensures |WithBit(bits, n)| == |bits|
    ensures BitAt(WithBit(bits, n), m) <==> m == n || BitAt(bits, m)
  {
    SetBitExact(bits[n / 8], n % 8, m % 8);
  }

  /** The `i`th bit position of a digest: `h1 + i * h2`, wrapping, modulo the number of bits. */
  function Position(d: Digest, i: nat, total: nat): (n: nat)
    requires total > 0
    ensures n < total
  {
    var h1 := FromBigEndian(d[..8]);
    var h2 := FromBigEndian(d[8..16]);
    var odd := if h2 % 2 == 0 then h2 + 1 else h2;
    (h1 + i * odd % WRAP) % WRAP % total
  }

  predicate Contains(bits: Bytes, d: Digest)
    requires bits != []
  {
    forall i :: 0 <= i < HASHES ==> BitAt(bits, Position(d, i, |bits| * 8))
  }

  /** Every bit of `before` is set in `after`. */
  ghost predicate Grown(before: Bytes, after: Bytes)
  {
    |before| == |after| && forall n :: 0 <= n < |before| * 8 && BitAt(before, n) ==> BitAt(after, n)
  }

  lemma GrownContains(before: Bytes, after: Bytes, d: Digest)
    requires before != [] && Grown(before, after) && Contains(before, d)
    ensures after != [] && Contains(after, d)
  {
  }

  /** The digest owns bit `n` of `total`: one of its first `upto` positions. */
  ghost predicate Hits(d: Digest, upto: nat, n: nat, total: nat)
    requires total > 0
  {
    exists i :: 0 <= i < upto && Position(d, i, total) == n
  }

  /** Set the bits of a digest, and no others. */
  method Insert(bits: Bytes, d: Digest) returns (out: Bytes)
    requires bits != []
    ensures Grown(bits, out) && Contains(out, d)
    ensures forall n :: 0 <= n < |bits| * 8 ==> (BitAt(out, n) <==> BitAt(bits, n) || Hits(d, HASHES, n, |bits| * 8))
  {
    hide Position, BitAt, WithBit;
    out := bits;
    var total := |bits| * 8;
    for i := 0 to HASHES
      invariant |out| == |bits|
      invariant forall n :: 0 <= n < total ==> (BitAt(out, n) <==> BitAt(bits, n) || Hits(d, i, n, total))
    {
      var p := Position(d, i, total);
      WithBitExact(out, p, 0);
      forall n | 0 <= n < total ensures BitAt(WithBit(out, p), n) <==> BitAt(bits, n) || Hits(d, i + 1, n, total) {
        WithBitExact(out, p, n);
        OneMoreHit(d, i, n, total);
      }
      out := WithBit(out, p);
    }
  }

  lemma OneMoreHit(d: Digest, i: nat, n: nat, total: nat)
    requires total > 0
    ensures Hits(d, i + 1, n, total) <==> Hits(d, i, n, total) || Position(d, i, total) == n
  {
    hide Position;
  }

  /** A bit is set exactly when some digest of `ds` owns it. */
  ghost predicate Exactly(bits: Bytes, ds: set<Digest>)
  {
    && bits != []
    && forall n :: 0 <= n < |bits| * 8 ==>
         (BitAt(bits, n) <==> exists d :: d in ds && Hits(d, HASHES, n, |bits| * 8))
  }

  lemma ExactlyMore(bits: Bytes, out: Bytes, ds: set<Digest>, d: Digest)
    requires Exactly(bits, ds) && |out| == |bits|
    requires forall n :: 0 <= n < |bits| * 8 ==> (BitAt(out, n) <==> BitAt(bits, n) || Hits(d, HASHES, n, |bits| * 8))
    ensures Exactly(out, ds + {d})
  {
    hide Hits, BitAt;
    forall n | 0 <= n < |out| * 8
      ensures BitAt(out, n) <==> exists e :: e in ds + {d} && Hits(e, HASHES, n, |out| * 8)
    {
      if Hits(d, HASHES, n, |bits| * 8) { assert d in ds + {d}; }
      if e :| e in ds && Hits(e, HASHES, n, |bits| * 8) { assert e in ds + {d}; }
    }
  }

  /** A fresh bitset belongs to nobody. */
  lemma {:induction false} ZeroBits(k: nat)
    ensures !BitSet(0, k)
  {
    if k > 0 { ZeroBits(k - 1); }
  }

  lemma ExactlyNone(bits: Bytes)
    requires bits != [] && forall i :: 0 <= i < |bits| ==> bits[i] == 0
    ensures Exactly(bits, {})
  {
    forall n | 0 <= n < |bits| * 8 ensures !BitAt(bits, n) {
      ZeroBits(n % 8);
    }
  }

  /** A digest is found only in a bitset something was put into. */
  lemma Owner(bits: Bytes, ds: set<Digest>, d: Digest) returns (e: Digest)
    requires Exactly(bits, ds) && Contains(bits, d)
    ensures e in ds && Hits(e, HASHES, Position(d, 0, |bits| * 8), |bits| * 8)
  {
    hide BitAt, Position, Hits;
    var n := Position(d, 0, |bits| * 8);
    assert BitAt(bits, n);
    e :| e in ds && Hits(e, HASHES, n, |bits| * 8);
  }

  lemma {:induction false} SameBits(x: nat, y: nat, n: nat)
    requires x < Exp2(n) && y < Exp2(n) && forall k :: 0 <= k < n ==> (BitSet(x, k) <==> BitSet(y, k))
    ensures x == y
  {
    if n > 0 {
      assert BitSet(x, 0) <==> BitSet(y, 0);
      forall k | 0 <= k < n - 1 ensures BitSet(x / 2, k) <==> BitSet(y / 2, k) {
        assert BitSet(x, k + 1) <==> BitSet(y, k + 1);
      }
      SameBits(x / 2, y / 2, n - 1);
    }
  }

  /** The digests put into a bitset of a given size determine it. */
  lemma ExactlyOne(a: Bytes, b: Bytes, ds: set<Digest>)
    requires Exactly(a, ds) && Exactly(b, ds) && |a| == |b|
    ensures a == b
  {
    hide Hits;
    forall i | 0 <= i < |a| ensures a[i] == b[i] {
      forall k | 0 <= k < 8 ensures BitSet(a[i], k) <==> BitSet(b[i], k) {
        var n := i * 8 + k;
        assert n / 8 == i && n % 8 == k;
        assert BitAt(a, n) <==> BitAt(b, n);
      }
      ByteWidth();
      SameBits(a[i], b[i], 8);
    }
  }
}
