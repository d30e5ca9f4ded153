/**
 What MD5 and SHA-1 share: a message is cut into 64-byte blocks, the blocks are folded into a
 chaining state, and the end is padded with 0x80, zeros and a 64-bit length.
*/
module BlockHash {
  /** A byte as a bit vector. */
  type Octet = bv8
  type Octets = seq<Octet>

  const TWO64: nat := 0x1_0000_0000_0000_0000

  /** The length at the end of the last block. */
  const LENGTH_BYTES: nat := 8

  /** Fold the whole blocks of `m` into `s`; a partial block at the end is not looked at. */
  function Fold<S>(f: (S, Octets) -> S, s: S, m: Octets): S
    decreases |m|
  {
    if |m| < 64 then s else Fold(f, f(s, m[..64]), m[64..])
  }

  /** The bytes after the last whole block. */
  function Tail(m: Octets): (t: Octets)
    ensures |t| < 64
    decreases |m|
  {
    if |m| < 64 then m else Tail(m[64..])
  }

  /** Nothing but whole blocks. */
  predicate Whole(a: Octets)
    decreases |a|
  {
    |a| == 0 || (|a| >= 64 && Whole(a[64..]))
  }

  lemma {:induction false} TailLength(m: Octets)
    ensures |Tail(m)| == |m| % 64
    decreases |m|
  {
    if |m| >= 64 { TailLength(m[64..]); }
  }

  lemma {:induction false} FoldSplit<S>(f: (S, Octets) -> S, s: S, a: Octets, b: Octets)
    requires Whole(a)
    ensures Fold(f, s, a + b) == Fold(f, Fold(f, s, a), b) && Tail(a + b) == Tail(b)
    decreases |a|
  {
    if |a| == 0 {
      assert a + b == b;
    } else {
      assert (a + b)[..64] == a[..64] && (a + b)[64..] == a[64..] + b;
      FoldSplit(f, f(s, a[..64]), a[64..], b);
    }
  }

  lemma {:induction false} FoldAgrees<S(!new)>(f: (S, Octets) -> S, g: (S, Octets) -> S, s: S, m: Octets)
    requires forall t, b :: f(t, b) == g(t, b)
    ensures Fold(f, s, m) == Fold(g, s, m)
    decreases |m|
  {
    if |m| >= 64 { FoldAgrees(f, g, f(s, m[..64]), m[64..]); }
  }

  lemma FoldShort<S>(f: (S, Octets) -> S, s: S, m: Octets)
    requires |m| < 64
    ensures Fold(f, s, m) == s && Tail(m) == m
  {
  }

  lemma FoldOne<S>(f: (S, Octets) -> S, s: S, block: Octets)
    requires |block| == 64
    ensures Fold(f, s, block) == f(s, block) && Tail(block) == []
  {
    assert block[..64] == block && block[64..] == [];
    FoldShort(f, f(s, block), block[64..]);
  }

  /** A message is its whole blocks followed by its tail. */
  lemma {:induction false} SplitTail<S>(f: (S, Octets) -> S, s: S, m: Octets) returns (whole: Octets)
    ensures Whole(whole) && m == whole + Tail(m)
    ensures Fold(f, s, m) == Fold(f, s, whole)
    decreases |m|
  {
    if |m| < 64 {
      whole := [];
      FoldShort(f, s, m);
      FoldShort(f, s, whole);
    } else {
      var rest := SplitTail(f, f(s, m[..64]), m[64..]);
      whole := m[..64] + rest;
      assert whole[..64] == m[..64] && whole[64..] == rest;
      assert m == m[..64] + m[64..];
      assert m[..64] + (rest + Tail(m)) == whole + Tail(m);
    }
  }

  /** New data that does not fill the block leaves the state alone. */
  lemma AbsorbPart<S>(f: (S, Octets) -> S, s: S, m: Octets, d: Octets)
    requires |Tail(m)| + |d| < 64
    ensures Fold(f, s, m + d) == Fold(f, s, m)
    ensures Tail(m + d) == Tail(m) + d
  {
    var whole := SplitTail(f, s, m);
    ExtendTail(f, s, whole, Tail(m), d);
    assert whole + Tail(m) + d == m + d;
  }

  lemma ExtendTail<S>(f: (S, Octets) -> S, s: S, whole: Octets, t: Octets, d: Octets)
    requires Whole(whole) && |t| + |d| < 64
    ensures Fold(f, s, whole + t + d) == Fold(f, s, whole) && Tail(whole + t + d) == t + d
  {
    assert whole + t + d == whole + (t + d);
    FoldSplit(f, s, whole, t + d);
    FoldShort(f, Fold(f, s, whole), t + d);
  }

  /** New data that completes the block folds it in. */
  lemma AbsorbBlock<S>(f: (S, Octets) -> S, s: S, m: Octets, d: Octets)
    requires |Tail(m)| + |d| == 64
    ensures Fold(f, s, m + d) == f(Fold(f, s, m), Tail(m) + d)
    ensures Tail(m + d) == []
  {
    var whole := SplitTail(f, s, m);
    CompleteTail(f, s, whole, Tail(m), d);
    assert whole + Tail(m) + d == m + d;
  }

  lemma CompleteTail<S>(f: (S, Octets) -> S, s: S, whole: Octets, t: Octets, d: Octets)
    requires Whole(whole) && |t| + |d| == 64
    ensures Fold(f, s, whole + t + d) == f(Fold(f, s, whole), t + d) && Tail(whole + t + d) == []
  {
    assert whole + t + d == whole + (t + d);
    FoldSplit(f, s, whole, t + d);
    FoldOne(f, Fold(f, s, whole), t + d);
  }

  // Padding

  function Zeros(n: nat): (z: Octets)
    ensures |z| == n && forall i :: 0 <= i < n ==> z[i] == 0
  {
    seq(n, i => 0)
  }

  /** One 1 bit, then zeros up to 56 bytes modulo 64 (RFC 1321 section 3.1, FIPS 180-3
      section 5.1.1). */
  function Padding(n: nat): (p: Octets)
    ensures |p| == if n % 64 < 56 then 56 - n % 64 else 120 - n % 64
  {
    [0x80] + Zeros(if n % 64 < 56 then 55 - n % 64 else 119 - n % 64)
  }

  lemma PaddingOf(n: nat, k: nat)
    requires k == n % 64
    ensures Padding(n) == [0x80] + Zeros(if k < 56 then 55 - k else 119 - k)
  {
  }

  /** Two padding blocks: the first is filled up, the second holds 56 zeros and the length. */
  lemma PadLong(m: Octets, t: Octets, length: Octets)
    requires t == Tail(m) && |t| >= 56
    ensures m + ([0x80] + Zeros(63 - |t|)) + (Zeros(56) + length) == m + Padding(|m|) + length
  {
    TailLength(m);
    PaddingOf(|m|, |t|);
    ZerosJoin(63 - |t|, 56);
    Regroup(m, [0x80], Zeros(63 - |t|), Zeros(56), length);
  }

  lemma Regroup(m: Octets, a: Octets, b: Octets, c: Octets, d: Octets)
    ensures m + (a + b) + (c + d) == m + (a + (b + c)) + d
  {
  }

  /** One padding block. */
  lemma PadShort(m: Octets, t: Octets, zeros: Octets, length: Octets)
    requires t == Tail(m) && |t| < 56 && zeros == Zeros(55 - |t|)
    ensures m + ([0x80] + zeros + length) == m + Padding(|m|) + length
  {
    TailLength(m);
    PaddingOf(|m|, |t|);
    assert m + (([0x80] + zeros) + length) == m + ([0x80] + zeros) + length;
  }

  lemma ZerosJoin(a: nat, b: nat)
    ensures Zeros(a) + Zeros(b) == Zeros(a + b)
  {
  }

  /** A message whose padding and length fit behind its tail ends in one block. */
  lemma OneBlock<S>(f: (S, Octets) -> S, s: S, m: Octets, t: Octets, zeros: Octets, length: Octets)
    requires t == Tail(m) && |t| < 56 && zeros == Zeros(55 - |t|) && |length| == LENGTH_BYTES
    ensures f(Fold(f, s, m), t + [0x80] + zeros + length) == Fold(f, s, m + Padding(|m|) + length)
  {
    PadShort(m, t, zeros, length);
    Reassociate(t, [0x80], zeros, length);
    EndsIn(f, s, m, [0x80] + zeros + length, m + Padding(|m|) + length, t + [0x80] + zeros + length);
  }

  lemma EndsIn<S>(f: (S, Octets) -> S, s: S, m: Octets, d: Octets, padded: Octets, block: Octets)
    requires |Tail(m)| + |d| == 64 && m + d == padded && Tail(m) + d == block
    ensures f(Fold(f, s, m), block) == Fold(f, s, padded)
  {
    AbsorbBlock(f, s, m, d);
  }

  lemma Reassociate(a: Octets, b: Octets, c: Octets, d: Octets)
    ensures a + b + c + d == a + (b + c + d)
  {
  }

  function Low(n: nat): Octet {
    (n % 256) as bv8
  }

  function BigEndian(n: nat, k: nat): (b: Octets)
    ensures |b| == k
  {
    if k == 0 then [] else BigEndian(n / 256, k - 1) + [Low(n)]
  }
}
