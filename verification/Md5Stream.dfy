/**
 MD5Init, MD5Update, MD5Final and MD5Sum of libquic/base/md5.cc, against the one-pass digest of
 RFC 1321.  The machine is little-endian, so byteReverse changes nothing.
*/
module Md5Stream {
  import Basics
  import opened BlockHash
  import opened Md5

  // RFC 1321

  const INIT := State(0x67452301, 0xefcdab89, 0x98badcfe, 0x10325476)

  function Compress(st: State, block: Octets): State {
    if |block| == 64 then Rounds(Operation1, Operation2, Operation3, Operation4, st, Words(block)) else st
  }

  function Output(st: State): Octets {
    Encode(st.a) + Encode(st.b) + Encode(st.c) + Encode(st.d)
  }

  /** Sections 3.1 and 3.2: pad, append the length in bits modulo 2^64. */
  function Padded(m: Octets): Octets {
    m + Padding(|m|) + LittleEndian(8 * |m| % TWO64, LENGTH_BYTES)
  }

  function Digest(m: Octets): Octets {
    Output(Fold(Compress, INIT, Padded(m)))
  }

  // md5.cc

  method Transform(st: State, block: Octets) returns (r: State)
    requires |block| == 64
    ensures r == Compress(st, block)
  {
    var x := Words(block);
    r := Round1(Macro1, x, st);
    r := Round2(Macro2, x, r);
    r := Round3(Macro3, x, r);
    r := Round4(Macro4, x, r);
    r := Add(st, r);
    RoundsAgree(st, x);
  }

  /** The carry from the low to the high word keeps the bit count exact modulo 2^64. */
  lemma BitCount(lo: nat, hi: nat, len: nat, lo': nat, hi': nat)
    requires lo < Basics.TWO32 && hi < Basics.TWO32
    requires lo' == (lo + len % Basics.TWO32 * 8 % Basics.TWO32) % Basics.TWO32
    requires hi' == (hi + (if lo' < lo then 1 else 0) + len / 0x2000_0000 % Basics.TWO32) % Basics.TWO32
    ensures lo' + Basics.TWO32 * hi' == (lo + Basics.TWO32 * hi + 8 * len) % TWO64
  {
    var q, r := len / 0x2000_0000, len % 0x2000_0000;
    LowWord(len);
    var carry := if lo' < lo then 1 else 0;
    assert lo + 8 * r == lo' + Basics.TWO32 * carry;
    Reduce(lo', hi + carry + q);
    HighWord(hi + carry, q);
  }

  lemma LowWord(len: nat)
    ensures len % Basics.TWO32 * 8 % Basics.TWO32 == 8 * (len % 0x2000_0000)
  {
  }

  lemma HighWord(h: nat, q: nat)
    ensures (h + q % Basics.TWO32) % Basics.TWO32 == (h + q) % Basics.TWO32
  {
  }

  lemma Reduce(lo: nat, hi: nat)
    requires lo < Basics.TWO32
    ensures lo + Basics.TWO32 * (hi % Basics.TWO32) == (lo + Basics.TWO32 * hi) % TWO64
  {
  }

  lemma CountGrows(b: nat, n: nat, len: nat)
    requires b == 8 * n % TWO64
    ensures (b + 8 * len) % TWO64 == 8 * (n + len) % TWO64
  {
  }

  /** (bits[0] >> 3) & 0x3f is the number of bytes waiting in the block. */
  lemma Waiting(lo: nat, hi: nat, n: nat)
    requires lo < Basics.TWO32 && lo + Basics.TWO32 * hi == 8 * n % TWO64
    ensures lo / 8 % 64 == n % 64
  {
    var q := 8 * n / TWO64;
    var k := 0x80_0000_0000_0000 * q + 0x80_0000 * hi;
    assert lo == 8 * (n - 64 * k);
    TakeBlocks(n, k);
  }

  lemma TakeBlocks(n: nat, k: nat)
    ensures (n - 64 * k) % 64 == n % 64
  {
  }

  ghost predicate Counted(lo: nat, hi: nat, n: nat) {
    lo < Basics.TWO32 && hi < Basics.TWO32 && lo + Basics.TWO32 * hi == 8 * n % TWO64
  }

  /** What MD5Final reads off the two words of the bit count. */
  method CountAndLength(lo: nat, hi: nat, ghost n: nat) returns (count: nat, length: Octets)
    requires Counted(lo, hi, n)
    ensures count == n % 64 && length == LittleEndian(8 * n % TWO64, LENGTH_BYTES)
  {
    Waiting(lo, hi, n);
    LengthWords(lo, hi);
    count, length := lo / 8 % 64, LittleEndian(lo, 4) + LittleEndian(hi, 4);
  }

  class Context {
    var buf: State
    var bits0: nat
    var bits1: nat
    const input: array<Octet>
    ghost var message: Octets

    ghost predicate Valid()
      reads this, input
    {
      && input.Length == 64
      && Holds(message)
      && Counted(bits0, bits1, |message|)
    }

    /** The state after the whole blocks of `m`, and the rest of `m` at the front of the block. */
    ghost predicate Holds(m: Octets)
      reads this`buf, input
    {
      buf == Fold(Compress, INIT, m) && Waits(Tail(m))
    }

    ghost predicate Waits(t: Octets)
      reads input
    {
      |t| <= input.Length && input[..|t|] == t
    }

    /** MD5Init */
    constructor ()
      ensures Valid() && |message| == 0 && fresh(input)
    {
      buf := INIT;
      bits0, bits1 := 0, 0;
      input := new Octet[64];
      new;
      message := input[..0];
      FoldShort(Compress, INIT, message);
      assert Tail(message) == message;
    }

    /** memcpy into the block */
    method Copy(at: nat, src: Octets)
      requires at + |src| <= input.Length
      modifies input
      ensures input[..at + |src|] == old(input[..at]) + src
      ensures input[at + |src|..] == old(input[at + |src|..])
    {
      var i := 0;
      while i < |src|
        invariant 0 <= i <= |src|
        invariant forall j :: 0 <= j < input.Length ==>
          input[j] == if at <= j < at + i then src[j - at] else old(input[j])
      {
        input[at + i] := src[i];
        i := i + 1;
      }
      assert input[..at + |src|] == old(input[..at]) + src;
    }

    /** The bit count, and how many bytes of the block were already taken. */
    method CountBits(ghost n: nat, len: nat) returns (taken: nat)
      requires Counted(bits0, bits1, n)
      modifies this`bits0, this`bits1
      ensures Counted(bits0, bits1, n + len)
      ensures taken == n % 64
    {
      var t := bits0;
      bits0 := (t + len % Basics.TWO32 * 8 % Basics.TWO32) % Basics.TWO32;
      if bits0 < t { bits1 := (bits1 + 1) % Basics.TWO32; }
      bits1 := (bits1 + len / 0x2000_0000 % Basics.TWO32) % Basics.TWO32;
      BitCount(t, old(bits1), len, bits0, bits1);
      CountGrows(old(bits0 + Basics.TWO32 * bits1), n, len);
      Waiting(t, old(bits1), n);
      taken := t / 8 % 64;
    }

    /** MD5Update */
    method Update(data: Octets)
      requires Valid() && |data| < TWO64
      modifies this, input
      ensures Valid() && message == old(message) + data
    {
      ghost var m := message + data;
      TailLength(message);
      var taken := CountBits(|message|, |data|);
      assert Counted(bits0, bits1, |m|);
      Absorb(taken, data);
      message := m;
    }

    /** Octets that complete the block: copy and transform. */
    method Complete(ghost done: Octets, at: nat, src: Octets)
      requires input.Length == 64 && at == |Tail(done)| && at + |src| == 64
      requires Holds(done)
      modifies this`buf, input
      ensures Holds(done + src) && Tail(done + src) == []
    {
      Copy(at, src);
      AbsorbBlock(Compress, INIT, done, src);
      assert input[..] == input[..at + |src|];
      buf := Transform(buf, input[..]);
    }

    /** Octets that leave the block incomplete: copy them and wait. */
    method Keep(ghost done: Octets, at: nat, src: Octets)
      requires input.Length == 64 && at == |Tail(done)| && at + |src| < 64
      requires Holds(done)
      modifies input
      ensures Holds(done + src)
    {
      Copy(at, src);
      AbsorbPart(Compress, INIT, done, src);
    }

    /** The copying part of MD5Update */
    method Absorb(waiting: nat, data: Octets)
      requires input.Length == 64 && waiting == |Tail(message)|
      requires Holds(message)
      modifies this`buf, input
      ensures Holds(message + data)
    {
      var rest := data;
      ghost var done := message;
      if waiting != 0 {
        var room := 64 - waiting;
        if |data| < room {
          Keep(message, waiting, data);
          return;
        }
        Complete(message, waiting, data[..room]);
        done := message + data[..room];
        rest := data[room..];
        Rejoin(message, data, room);
      }
      while |rest| >= 64
        invariant done + rest == message + data && Tail(done) == [] && Holds(done)
      {
        Complete(done, 0, rest[..64]);
        Rejoin(done, rest, 64);
        done := done + rest[..64];
        rest := rest[64..];
      }
      Keep(done, 0, rest);
    }

    /** MD5Final: the digest, and a context wiped to zero. */
    method Final() returns (digest: Octets)
      requires Valid()
      modifies this, input
      ensures digest == Digest(old(message))
      ensures buf == State(0, 0, 0, 0) && bits0 == bits1 == 0 && forall i :: 0 <= i < 64 ==> input[i] == 0
    {
      Finish();
      digest := Output(buf);
      Wipe();
    }

    /** MD5Final up to the last MD5Transform */
    method Finish()
      requires Valid()
      modifies this`buf, input
      ensures buf == Fold(Compress, INIT, Padded(message))
    {
      ghost var m := message;
      TailLength(m);
      var count, length := CountAndLength(bits0, bits1, |m|);
      Pad(count, length);
    }

    /** The padding part of MD5Final */
    method Pad(count: nat, length: Octets)
      requires Holds(message) && input.Length == 64 && count == |Tail(message)| && |length| == 8
      modifies this`buf, input
      ensures Holds(message + Padding(|message|) + length)
    {
      if 63 - count < 8 {
        PadTwice(count, length);
      } else {
        PadOnce(count, length);
      }
    }

    method PadOnce(count: nat, length: Octets)
      requires Holds(message) && input.Length == 64 && count == |Tail(message)| < 56 && |length| == 8
      modifies this`buf, input
      ensures Holds(message + Padding(|message|) + length)
    {
      ghost var m := message;
      var zeros := Zeros(55 - count);
      var block := [0x80] + zeros + length;
      assert |block| == 64 - count;
      Complete(m, count, block);
      PadShort(m, Tail(m), zeros, length);
    }

    method LastBlock(ghost done: Octets, length: Octets)
      requires Holds(done) && input.Length == 64 && Tail(done) == [] && |length| == 8
      modifies this`buf, input
      ensures Holds(done + (Zeros(56) + length))
    {
      var block := Zeros(56) + length;
      assert |block| == 64;
      Complete(done, 0, block);
    }

    method PadTwice(count: nat, length: Octets)
      requires Holds(message) && input.Length == 64 && count == |Tail(message)| >= 56 && |length| == 8
      modifies this`buf, input
      ensures Holds(message + Padding(|message|) + length)
    {
      ghost var m := message;
      var first := [0x80] + Zeros(63 - count);
      ghost var done := m + first;
      Complete(m, count, first);
      assert Tail(done) == [];
      LastBlock(done, length);
      PadLong(m, Tail(m), length);
      assert done + (Zeros(56) + length) == m + Padding(|m|) + length;
    }

    method Wipe()
      requires input.Length == 64
      modifies this, input
      ensures buf == State(0, 0, 0, 0) && bits0 == bits1 == 0 && forall i :: 0 <= i < 64 ==> input[i] == 0
    {
      buf, bits0, bits1 := State(0, 0, 0, 0), 0, 0;
      var i := 0;
      while i < 64
        modifies input
        invariant 0 <= i <= 64 && forall j :: 0 <= j < i ==> input[j] == 0
      {
        input[i] := 0;
        i := i + 1;
      }
    }

    /** memcpy of the whole context */
    constructor Clone(from: Context)
      requires from.Valid()
      ensures Valid() && message == from.message && fresh(input)
    {
      buf, bits0, bits1, message := from.buf, from.bits0, from.bits1, from.message;
      input := new Octet[64](i requires 0 <= i < 64 && from.input.Length == 64 reads from.input => from.input[i]);
      new;
      assert input[..] == from.input[..];
      assert input[..|Tail(message)|] == from.input[..|Tail(message)|];
    }

    /** MD5IntermediateFinal: the digest so far; the context can go on. */
    method IntermediateFinal() returns (digest: Octets)
      requires Valid()
      ensures digest == Digest(message)
    {
      var copy := new Context.Clone(this);
      digest := copy.Final();
    }
  }

  /** MD5Sum */
  method Sum(data: Octets) returns (digest: Octets)
    requires |data| < TWO64
    ensures digest == Digest(data)
  {
    var ctx := new Context();
    ctx.Update(data);
    assert ctx.message == data;
    digest := ctx.Final();
  }

  lemma Rejoin(done: Octets, rest: Octets, k: nat)
    requires k <= |rest|
    ensures done + rest[..k] + rest[k..] == done + rest
  {
  }
}
