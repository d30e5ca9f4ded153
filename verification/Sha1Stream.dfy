/**
 The class SecureHashAlgorithm of libquic/base/sha1.cc, against the one-pass digest of
 FIPS 180-3.  The union of M and W is two separate buffers here: once Process has run, the
 bytes of M are never read before they are written.  The class is written over the step functions
 (`ops`); SHA1HashBytes uses those of sha1.cc.
*/
module Sha1Stream {
  import opened BlockHash
  import opened Sha1

  // FIPS 180-3 section 6.1

  const INIT := State(0x67452301, 0xefcdab89, 0x98badcfe, 0x10325476, 0xc3d2e1f0)

  /** Four bytes make a word, first byte highest. */
  function Join(b0: Octet, b1: Octet, b2: Octet, b3: Octet): Word {
    (b0 as Word << 24) | (b1 as Word << 16) | (b2 as Word << 8) | b3 as Word
  }

  function WordAt(block: Octets, t: nat): Word {
    if 4 * t + 4 <= |block| then Join(block[4 * t], block[4 * t + 1], block[4 * t + 2], block[4 * t + 3]) else 0
  }

  function Decode(block: Octets): nat -> Word {
    (t: nat) => WordAt(block, t)
  }

  function Compress(ops: Ops, st: State, block: Octets): State {
    if |block| == 64 then Rounds(ops, st, Schedule(ops.mix, Decode(block))) else st
  }

  function Rounds(ops: Ops, st: State, w: seq<Word>): State {
    ops.add(st, Steps(ops, w, st, |w|))
  }

  function Compressor(ops: Ops): (State, Octets) -> State {
    (st: State, block: Octets) => Compress(ops, st, block)
  }

  /** Section 5.1.1; the length is taken modulo 2^64, the standard has it below that. */
  function Padded(m: Octets): Octets {
    m + Padding(|m|) + BigEndian(8 * |m| % TWO64, LENGTH_BYTES)
  }

  function Encode(w: Word): Octets {
    [(w >> 24) as Octet, ((w >> 16) & 0xff) as Octet, ((w >> 8) & 0xff) as Octet, (w & 0xff) as Octet]
  }

  function Output(st: State): Octets {
    Encode(st.a) + Encode(st.b) + Encode(st.c) + Encode(st.d) + Encode(st.e)
  }

  /** The digest over any step functions; Digest(FIPS, m) is the one of the standard. */
  function Digest(ops: Ops, m: Octets): Octets {
    Output(Fold(Compressor(ops), INIT, Padded(m)))
  }

  /** The digest with the step functions of sha1.cc is the one of the standard. */
  lemma DigestsAgree(m: Octets)
    ensures Digest(CODE, m) == Digest(FIPS, m)
  {
    forall st, block ensures Compressor(CODE)(st, block) == Compressor(FIPS)(st, block) {
      CodeAgrees(st, Schedule(Mix, Decode(block)));
    }
    FoldAgrees(Compressor(CODE), Compressor(FIPS), INIT, Padded(m));
  }

  // sha1.cc

  /** Process, steps b to e */
  method ProcessWords(ops: Ops, h: State, w: array<Word>, ghost m: nat -> Word) returns (r: State)
    requires w.Length == ROUNDS
    requires forall t :: 0 <= t < 16 ==> w[t] == ScheduleWord(ops.mix, m, t)
    modifies w
    ensures r == Rounds(ops, h, Schedule(ops.mix, m))
  {
    var t := 16;
    while t < ROUNDS
      invariant 16 <= t <= ROUNDS
      invariant forall i :: 0 <= i < t ==> w[i] == ScheduleWord(ops.mix, m, i)
    {
      w[t] := ops.mix(w[t - 3], w[t - 8], w[t - 14], w[t - 16]);
      t := t + 1;
    }
    assert w[..] == Schedule(ops.mix, m);
    r := RunRounds(ops, h, w);
  }

  /** Steps c to e */
  method RunRounds(ops: Ops, h: State, w: array<Word>) returns (r: State)
    ensures r == Rounds(ops, h, w[..])
  {
    var a, b, c, d, e := h.a, h.b, h.c, h.d, h.e;
    var t := 0;
    while t < w.Length
      invariant 0 <= t <= w.Length
      invariant State(a, b, c, d, e) == Steps(ops, w[..], h, t)
    {
      var temp := ops.temp(t, State(a, b, c, d, e), w[t]);
      e := d;
      d := c;
      c := ops.turn(b);
      b := a;
      a := temp;
      t := t + 1;
    }
    r := ops.add(h, State(a, b, c, d, e));
  }

  // On a little-endian machine a word in memory starts with its lowest byte.

  function Load(b0: Octet, b1: Octet, b2: Octet, b3: Octet): Word {
    b0 as Word | (b1 as Word << 8) | (b2 as Word << 16) | (b3 as Word << 24)
  }

  function Store(w: Word): Octets {
    [(w & 0xff) as Octet, ((w >> 8) & 0xff) as Octet, ((w >> 16) & 0xff) as Octet, (w >> 24) as Octet]
  }

  function ByteSwap(x: Word): Word {
    ((x & 0x000000ff) << 24) | ((x & 0x0000ff00) << 8) | ((x & 0x00ff0000) >> 8) | ((x & 0xff000000) >> 24)
  }

  lemma SwapLoads(b0: Octet, b1: Octet, b2: Octet, b3: Octet)
    ensures ByteSwap(Load(b0, b1, b2, b3)) == Join(b0, b1, b2, b3)
  {
  }

  lemma SwapStores(w: Word)
    ensures Store(ByteSwap(w)) == Encode(w)
  {
  }

  /** The counter after n bytes: 8 for each, modulo 2^64. */
  function BitCount(n: nat): nat {
    if n == 0 then 0 else (BitCount(n - 1) + 8) % TWO64
  }

  lemma {:induction false} BitCountIs(n: nat)
    ensures BitCount(n) == 8 * n % TWO64
  {
    if n > 0 {
      BitCountIs(n - 1);
      ByteAfterByte(BitCount(n - 1), n - 1);
    }
  }

  lemma ByteAfterByte(l: nat, n: nat)
    requires l == 8 * n % TWO64
    ensures (l + 8) % TWO64 == 8 * (n + 1) % TWO64
  {
  }

  /** The eight shifts of Pad write the length with its highest byte first. */
  lemma LengthBytes(l: nat)
    ensures [Low(l / 0x100_0000_0000_0000), Low(l / 0x1_0000_0000_0000),
             Low(l / 0x100_0000_0000), Low(l / 0x1_0000_0000),
             Low(l / 0x100_0000), Low(l / 0x1_0000), Low(l / 0x100), Low(l)] == BigEndian(l, LENGTH_BYTES)
  {
    Shifts(l);
    EightDigits(l, l / 0x100, l / 0x1_0000, l / 0x100_0000, l / 0x1_0000_0000,
                l / 0x100_0000_0000, l / 0x1_0000_0000_0000, l / 0x100_0000_0000_0000);
  }

  lemma Shifts(l: nat)
    ensures l / 0x1_0000 == l / 0x100 / 0x100 && l / 0x100_0000 == l / 0x1_0000 / 0x100
    ensures l / 0x1_0000_0000 == l / 0x100_0000 / 0x100 && l / 0x100_0000_0000 == l / 0x1_0000_0000 / 0x100
    ensures l / 0x1_0000_0000_0000 == l / 0x100_0000_0000 / 0x100
    ensures l / 0x100_0000_0000_0000 == l / 0x1_0000_0000_0000 / 0x100
  {
    DivideTwice(l, 0x100);
    DivideTwice(l, 0x1_0000);
    DivideTwice(l, 0x100_0000);
    DivideTwice(l, 0x1_0000_0000);
    DivideTwice(l, 0x100_0000_0000);
    DivideTwice(l, 0x1_0000_0000_0000);
  }

  lemma EightDigits(l: nat, l1: nat, l2: nat, l3: nat, l4: nat, l5: nat, l6: nat, l7: nat)
    requires l1 == l / 0x100 && l2 == l1 / 0x100 && l3 == l2 / 0x100 && l4 == l3 / 0x100
    requires l5 == l4 / 0x100 && l6 == l5 / 0x100 && l7 == l6 / 0x100
    ensures [Low(l7), Low(l6), Low(l5), Low(l4), Low(l3), Low(l2), Low(l1), Low(l)] == BigEndian(l, LENGTH_BYTES)
  {
    BigEndianFour(l, l1, l2, l3, l4, 4);
    BigEndianFour(l4, l5, l6, l7, l7 / 0x100, 0);
  }

  lemma DivideTwice(n: nat, p: nat)
    requires p > 0
    ensures n / (256 * p) == n / p / 256
  {
    var a, b := n / p, n % p;
    var q, r := a / 256, a % 256;
    Regroup(p, q, r);
    assert p * r + b < 256 * p by { LessThan(p, r, b); }
    Quotient(n, 256 * p, q, p * r + b);
  }

  lemma Regroup(p: nat, q: nat, r: nat)
    ensures p * (256 * q + r) == 256 * p * q + p * r
  {
  }

  lemma LessThan(p: nat, r: nat, b: nat)
    requires r < 256 && b < p
    ensures p * r + b < 256 * p
  {
    assert p * r <= p * 255;
  }

  lemma Quotient(n: nat, p: nat, q: nat, r: nat)
    requires n == p * q + r && r < p
    ensures n / p == q
  {
    var d := n / p - q;
    assert p * d == p * (n / p) - p * q == r - n % p;
    MulGrows(p, d);
  }

  lemma MulGrows(p: int, d: int)
    requires p >= 0
    ensures d >= 1 ==> p * d >= p
    ensures d <= -1 ==> p * d <= -p
    ensures p * (d + 1) == p * d + p
  {
  }

  lemma BigEndianFour(l: nat, l1: nat, l2: nat, l3: nat, l4: nat, k: nat)
    requires l1 == l / 0x100 && l2 == l1 / 0x100 && l3 == l2 / 0x100 && l4 == l3 / 0x100
    ensures BigEndian(l, k + 4) == BigEndian(l4, k) + [Low(l3), Low(l2), Low(l1), Low(l)]
  {
    assert BigEndian(l1, k + 3) == BigEndian(l2, k + 2) + [Low(l1)];
    assert BigEndian(l2, k + 2) == BigEndian(l3, k + 1) + [Low(l2)];
    assert BigEndian(l3, k + 1) == BigEndian(l4, k) + [Low(l3)];
  }

  class SecureHashAlgorithm {
    const ops: Ops
    var h: State
    const m: array<Octet>
    const w: array<Word>
    var cursor: nat
    var l: nat
    ghost var message: Octets

    ghost predicate Valid()
      reads this, m
    {
      && m.Length == 64 && w.Length == ROUNDS
      && h == Fold(Compressor(ops), INIT, message)
      && Holds(Tail(message))
      && l == BitCount(|message|)
    }

    /** The cursor stands after the bytes `t`, which the block starts with. */
    ghost predicate Holds(t: Octets)
      reads this`cursor, m
    {
      cursor == |t| <= m.Length && m[..cursor] == t
    }

    constructor (ops: Ops)
      ensures Valid() && this.ops == ops && |message| == 0 && fresh(m) && fresh(w)
    {
      this.ops := ops;
      m := new Octet[64];
      w := new Word[ROUNDS];
      new;
      Init();
    }

    method Init()
      requires m.Length == 64 && w.Length == ROUNDS
      modifies this
      ensures Valid() && |message| == 0
    {
      cursor, l, h := 0, 0, INIT;
      message := m[..cursor];
      FoldShort(Compressor(ops), INIT, message);
      assert Tail(message) == message;
    }

    /** M[cursor++] = b */
    method Put(b: Octet, ghost t: Octets)
      requires Holds(t) && cursor < m.Length
      modifies this`cursor, m
      ensures Holds(t + [b])
    {
      m[cursor] := b;
      cursor := cursor + 1;
    }

    /** Step a of Process: the bytes of the block, read as words and byte-swapped. */
    method LoadWords(ghost block: Octets)
      requires m.Length == 64 && w.Length == ROUNDS && m[..] == block
      modifies w
      ensures forall t :: 0 <= t < 16 ==> w[t] == WordAt(block, t)
    {
      var t := 0;
      while t < 16
        invariant 0 <= t <= 16
        invariant forall i :: 0 <= i < t ==> w[i] == WordAt(block, i)
      {
        var k := 4 * t;
        SwapLoads(m[k], m[k + 1], m[k + 2], m[k + 3]);
        w[t] := ByteSwap(Load(m[k], m[k + 1], m[k + 2], m[k + 3]));
        t := t + 1;
      }
    }

    method Process(ghost block: Octets)
      requires m.Length == 64 && w.Length == ROUNDS && Holds(block) && |block| == 64
      modifies this`h, this`cursor, w
      ensures h == Compress(ops, old(h), block) && Holds([])
    {
      assert m[..] == m[..cursor];
      LoadWords(block);
      h := ProcessWords(ops, h, w, Decode(block));
      cursor := 0;
    }

    method Update(data: Octets)
      requires Valid()
      modifies this, m, w
      ensures Valid() && message == old(message) + data
    {
      var i := 0;
      while i < |data|
        invariant 0 <= i <= |data|
        invariant Valid() && message == old(message) + data[..i]
      {
        UpdateByte(data[i]);
        i := i + 1;
        assert old(message) + data[..i] == old(message) + data[..i - 1] + [data[i - 1]];
      }
      assert data[..i] == data;
    }

    /** One turn of the loop of Update */
    method UpdateByte(b: Octet)
      requires Valid()
      modifies this, m, w
      ensures Valid() && message == old(message) + [b]
    {
      Absorb(b);
      l := (l + 8) % TWO64;
      message := message + [b];
    }

    /** The byte goes into the block, and a full block is processed. */
    method Absorb(b: Octet)
      requires m.Length == 64 && w.Length == ROUNDS && h == Fold(Compressor(ops), INIT, message) && Holds(Tail(message))
      modifies this`h, this`cursor, m, w
      ensures h == Fold(Compressor(ops), INIT, message + [b]) && Holds(Tail(message + [b]))
    {
      ghost var msg, t := message, Tail(message);
      Put(b, t);
      if cursor >= 64 {
        AbsorbBlock(Compressor(ops), INIT, msg, [b]);
        Process(t + [b]);
      } else {
        AbsorbPart(Compressor(ops), INIT, msg, [b]);
      }
    }

    /** while (cursor < end) M[cursor++] = 0 */
    method ZeroTo(end: nat, ghost t: Octets)
      requires Holds(t) && cursor <= end <= m.Length
      modifies this`cursor, m
      ensures Holds(t + Zeros(end - |t|))
    {
      assert t + Zeros(0) == t;
      while cursor < end
        invariant |t| <= cursor <= end && Holds(t + Zeros(cursor - |t|))
      {
        ghost var k := cursor - |t|;
        Put(0, t + Zeros(k));
        assert t + Zeros(k) + [0] == t + Zeros(k + 1);
      }
    }

    /** The last eight bytes of Pad */
    method PutLength(ghost t: Octets)
      requires Holds(t) && |t| == 56 && m.Length == 64
      modifies this`cursor, m
      ensures Holds(t + BigEndian(l, LENGTH_BYTES))
    {
      var l7, l6 := Low(l / 0x100_0000_0000_0000), Low(l / 0x1_0000_0000_0000);
      var l5, l4 := Low(l / 0x100_0000_0000), Low(l / 0x1_0000_0000);
      var l3, l2, l1, l0 := Low(l / 0x100_0000), Low(l / 0x1_0000), Low(l / 0x100), Low(l);
      LengthBytes(l);
      PutFour(l7, l6, l5, l4, t);
      PutFour(l3, l2, l1, l0, t + [l7, l6, l5, l4]);
      assert t + [l7, l6, l5, l4] + [l3, l2, l1, l0] == t + [l7, l6, l5, l4, l3, l2, l1, l0];
    }

    method PutFour(a: Octet, b: Octet, c: Octet, d: Octet, ghost t: Octets)
      requires Holds(t) && |t| + 4 <= m.Length
      modifies this`cursor, m
      ensures Holds(t + [a, b, c, d])
    {
      Put(a, t);
      Put(b, t + [a]);
      Put(c, t + [a] + [b]);
      Put(d, t + [a] + [b] + [c]);
      assert t + [a] + [b] + [c] + [d] == t + [a, b, c, d];
    }

    /** Pad: the block is full, and one more Process gives the state of the padded message. */
    method Pad() returns (ghost block: Octets)
      requires m.Length == 64 && w.Length == ROUNDS
      requires h == Fold(Compressor(ops), INIT, message) && Holds(Tail(message))
      modifies this`h, this`cursor, m, w
      ensures Holds(block) && |block| == 64
      ensures Compress(ops, h, block) ==
              Fold(Compressor(ops), INIT, message + Padding(|message|) + BigEndian(l, LENGTH_BYTES))
    {
      ghost var msg, t := message, Tail(message);
      Put(0x80, t);
      if cursor > 56 {
        PadLong(msg, t, BigEndian(l, LENGTH_BYTES));
        ghost var done := PadOut(msg, t);
        block := LengthOnly(done);
      } else {
        block := PadSameBlock(msg, t);
      }
    }

    /** No room for the length: fill the block with zeros and process it. */
    method PadOut(ghost msg: Octets, ghost t: Octets) returns (ghost done: Octets)
      requires m.Length == 64 && w.Length == ROUNDS && h == Fold(Compressor(ops), INIT, msg) && t == Tail(msg)
      requires Holds(t + [0x80])
      modifies this`h, this`cursor, m, w
      ensures h == Fold(Compressor(ops), INIT, done) && Holds([]) && Tail(done) == []
      ensures done == msg + ([0x80] + Zeros(63 - |t|))
    {
      ghost var zeros := Zeros(63 - |t|);
      ZeroTo(64, t + [0x80]);
      ghost var d := [0x80] + zeros;
      ghost var block := t + d;
      assert t + [0x80] + zeros == block;
      AbsorbBlock(Compressor(ops), INIT, msg, d);
      Process(block);
      done := msg + d;
    }

    /** Zeros and the length fit into the block. */
    method PadSameBlock(ghost msg: Octets, ghost t: Octets) returns (ghost block: Octets)
      requires m.Length == 64 && h == Fold(Compressor(ops), INIT, msg) && t == Tail(msg) && |t| < 56
      requires Holds(t + [0x80])
      modifies this`cursor, m
      ensures Holds(block) && |block| == 64
      ensures Compress(ops, h, block) == Fold(Compressor(ops), INIT, msg + Padding(|msg|) + BigEndian(l, LENGTH_BYTES))
    {
      ghost var zeros, length := Zeros(55 - |t|), BigEndian(l, LENGTH_BYTES);
      ZeroTo(56, t + [0x80]);
      PutLength(t + [0x80] + zeros);
      block := t + [0x80] + zeros + length;
      OneBlock(Compressor(ops), INIT, msg, t, zeros, length);
    }

    method LengthOnly(ghost done: Octets) returns (ghost block: Octets)
      requires m.Length == 64 && Holds([]) && h == Fold(Compressor(ops), INIT, done) && Tail(done) == []
      modifies this`cursor, m
      ensures Holds(block) && |block| == 64
      ensures Compress(ops, h, block) == Fold(Compressor(ops), INIT, done + (Zeros(56) + BigEndian(l, LENGTH_BYTES)))
    {
      ZeroTo(56, []);
      assert [] + Zeros(56) == Zeros(56);
      PutLength(Zeros(56));
      block := Zeros(56) + BigEndian(l, LENGTH_BYTES);
      AbsorbBlock(Compressor(ops), INIT, done, block);
      assert Tail(done) + block == block;
    }

    /** Final: pad, process, byte-swap the words; Digest() then reads them from memory. */
    method Final() returns (digest: Octets)
      requires Valid()
      modifies this, m, w
      ensures digest == Digest(ops, old(message))
    {
      BitCountIs(|message|);
      ghost var block := Pad();
      Process(block);
      ghost var r := h;
      h := State(ByteSwap(h.a), ByteSwap(h.b), ByteSwap(h.c), ByteSwap(h.d), ByteSwap(h.e));
      digest := Memory(h);
      SwapsOut(r);
    }
  }

  function Memory(h: State): Octets {
    Store(h.a) + Store(h.b) + Store(h.c) + Store(h.d) + Store(h.e)
  }

  lemma SwapsOut(h: State)
    ensures Memory(State(ByteSwap(h.a), ByteSwap(h.b), ByteSwap(h.c), ByteSwap(h.d), ByteSwap(h.e))) == Output(h)
  {
    SwapStores(h.a);
    SwapStores(h.b);
    SwapStores(h.c);
    SwapStores(h.d);
    SwapStores(h.e);
  }

  /** SHA1HashBytes */
  method Hash(data: Octets) returns (digest: Octets)
    ensures digest == Digest(FIPS, data)
  {
    var sha := new SecureHashAlgorithm(CODE);
    sha.Update(data);
    assert sha.message == data;
    digest := sha.Final();
    DigestsAgree(data);
  }
}
