/**
 MD5 as libquic/base/md5.cc computes it, against RFC 1321.
*/
module Md5 {
  import Basics
  import opened BlockHash

  type Word = bv32

  datatype State = State(a: Word, b: Word, c: Word, d: Word)

  // RFC 1321 section 3.4

  function F(x: Word, y: Word, z: Word): Word { (x & y) | (!x & z) }
  function G(x: Word, y: Word, z: Word): Word { (x & z) | (y & !z) }
  function H(x: Word, y: Word, z: Word): Word { x ^ y ^ z }
  function I(x: Word, y: Word, z: Word): Word { y ^ (x | !z) }

  type Count = s: bv6 | s <= 32

  function RotateLeft(w: Word, s: Count): Word { (w << s) | (w >> (32 - s)) }

  /** The operation [abcd k s i]: a = b + ((a + f(b,c,d) + X[k] + T[i]) <<< s). */
  function Operation(f: Word, a: Word, b: Word, x: Word, t: Word, s: Count): Word {
    b + RotateLeft(a + f + x + t, s)
  }

  type Op = (State, Word, Word, Count) -> Word

  function Operation1(r: State, x: Word, t: Word, s: Count): Word { Operation(F(r.b, r.c, r.d), r.a, r.b, x, t, s) }
  function Operation2(r: State, x: Word, t: Word, s: Count): Word { Operation(G(r.b, r.c, r.d), r.a, r.b, x, t, s) }
  function Operation3(r: State, x: Word, t: Word, s: Count): Word { Operation(H(r.b, r.c, r.d), r.a, r.b, x, t, s) }
  function Operation4(r: State, x: Word, t: Word, s: Count): Word { Operation(I(r.b, r.c, r.d), r.a, r.b, x, t, s) }

  /** One operation of a round: the word of the block it reads, its constant and its rotation. */
  datatype Row = Row(k: nat, t: Word, s: Count)

  function Rows1(i: nat): Row {
    match i
    case 0 => Row(0, 0xd76aa478, 7) case 1 => Row(1, 0xe8c7b756, 12)
    case 2 => Row(2, 0x242070db, 17) case 3 => Row(3, 0xc1bdceee, 22)
    case 4 => Row(4, 0xf57c0faf, 7) case 5 => Row(5, 0x4787c62a, 12)
    case 6 => Row(6, 0xa8304613, 17) case 7 => Row(7, 0xfd469501, 22)
    case 8 => Row(8, 0x698098d8, 7) case 9 => Row(9, 0x8b44f7af, 12)
    case 10 => Row(10, 0xffff5bb1, 17) case 11 => Row(11, 0x895cd7be, 22)
    case 12 => Row(12, 0x6b901122, 7) case 13 => Row(13, 0xfd987193, 12)
    case 14 => Row(14, 0xa679438e, 17) case _ => Row(15, 0x49b40821, 22)
  }

  function Rows2(i: nat): Row {
    match i
    case 0 => Row(1, 0xf61e2562, 5) case 1 => Row(6, 0xc040b340, 9)
    case 2 => Row(11, 0x265e5a51, 14) case 3 => Row(0, 0xe9b6c7aa, 20)
    case 4 => Row(5, 0xd62f105d, 5) case 5 => Row(10, 0x02441453, 9)
    case 6 => Row(15, 0xd8a1e681, 14) case 7 => Row(4, 0xe7d3fbc8, 20)
    case 8 => Row(9, 0x21e1cde6, 5) case 9 => Row(14, 0xc33707d6, 9)
    case 10 => Row(3, 0xf4d50d87, 14) case 11 => Row(8, 0x455a14ed, 20)
    case 12 => Row(13, 0xa9e3e905, 5) case 13 => Row(2, 0xfcefa3f8, 9)
    case 14 => Row(7, 0x676f02d9, 14) case _ => Row(12, 0x8d2a4c8a, 20)
  }

  function Rows3(i: nat): Row {
    match i
    case 0 => Row(5, 0xfffa3942, 4) case 1 => Row(8, 0x8771f681, 11)
    case 2 => Row(11, 0x6d9d6122, 16) case 3 => Row(14, 0xfde5380c, 23)
    case 4 => Row(1, 0xa4beea44, 4) case 5 => Row(4, 0x4bdecfa9, 11)
    case 6 => Row(7, 0xf6bb4b60, 16) case 7 => Row(10, 0xbebfbc70, 23)
    case 8 => Row(13, 0x289b7ec6, 4) case 9 => Row(0, 0xeaa127fa, 11)
    case 10 => Row(3, 0xd4ef3085, 16) case 11 => Row(6, 0x04881d05, 23)
    case 12 => Row(9, 0xd9d4d039, 4) case 13 => Row(12, 0xe6db99e5, 11)
    case 14 => Row(15, 0x1fa27cf8, 16) case _ => Row(2, 0xc4ac5665, 23)
  }

  function Rows4(i: nat): Row {
    match i
    case 0 => Row(0, 0xf4292244, 6) case 1 => Row(7, 0x432aff97, 10)
    case 2 => Row(14, 0xab9423a7, 15) case 3 => Row(5, 0xfc93a039, 21)
    case 4 => Row(12, 0x655b59c3, 6) case 5 => Row(3, 0x8f0ccc92, 10)
    case 6 => Row(10, 0xffeff47d, 15) case 7 => Row(1, 0x85845dd1, 21)
    case 8 => Row(8, 0x6fa87e4f, 6) case 9 => Row(15, 0xfe2ce6e0, 10)
    case 10 => Row(6, 0xa3014314, 15) case 11 => Row(13, 0x4e0811a1, 21)
    case 12 => Row(4, 0xf7537e82, 6) case 13 => Row(11, 0xbd3af235, 10)
    case 14 => Row(2, 0x2ad7d2bb, 15) case _ => Row(9, 0xeb86d391, 21)
  }

  type Block = x: seq<Word> | |x| == 16 witness seq(16, i => 0)

  /** The first `n` operations of a round; the registers are renamed after each, so that the
      next one reads (a, b, c, d) again. */
  function Steps(op: Op, rows: nat -> Row, x: Block, st: State, n: nat): State {
    if n == 0 then st
    else
      var row, r := rows(n - 1), Steps(op, rows, x, st, n - 1);
      State(r.d, op(r, x[row.k % 16], row.t, row.s), r.b, r.c)
  }

  /** Four MD5STEPs in a row, on a, d, c and b. */
  method FourSteps(op: Op, x: Block, ghost rows: nat -> Row, ghost s0: State, ghost n: nat, st: State,
                   r0: Row, r1: Row, r2: Row, r3: Row)
    returns (r: State)
    requires st == Steps(op, rows, x, s0, n)
    requires r0 == rows(n) && r1 == rows(n + 1) && r2 == rows(n + 2) && r3 == rows(n + 3)
    requires r0.k < 16 && r1.k < 16 && r2.k < 16 && r3.k < 16
    ensures r == Steps(op, rows, x, s0, n + 4)
  {
    var a, b, c, d := st.a, st.b, st.c, st.d;
    a := op(State(a, b, c, d), x[r0.k], r0.t, r0.s);
    assert State(d, a, b, c) == Steps(op, rows, x, s0, n + 1);
    d := op(State(d, a, b, c), x[r1.k], r1.t, r1.s);
    assert State(c, d, a, b) == Steps(op, rows, x, s0, n + 2);
    c := op(State(c, d, a, b), x[r2.k], r2.t, r2.s);
    assert State(b, c, d, a) == Steps(op, rows, x, s0, n + 3);
    b := op(State(b, c, d, a), x[r3.k], r3.t, r3.s);
    r := State(a, b, c, d);
  }

  method Round1(op: Op, x: Block, st: State) returns (r: State)
    ensures r == Steps(op, Rows1, x, st, |x|)
  {
    ghost var rows := Rows1;
    r := st;
    r := FourSteps(op, x, rows, st, 0, r, Row(0, 0xd76aa478, 7), Row(1, 0xe8c7b756, 12),
                   Row(2, 0x242070db, 17), Row(3, 0xc1bdceee, 22));
    r := FourSteps(op, x, rows, st, 4, r, Row(4, 0xf57c0faf, 7), Row(5, 0x4787c62a, 12),
                   Row(6, 0xa8304613, 17), Row(7, 0xfd469501, 22));
    r := FourSteps(op, x, rows, st, 8, r, Row(8, 0x698098d8, 7), Row(9, 0x8b44f7af, 12),
                   Row(10, 0xffff5bb1, 17), Row(11, 0x895cd7be, 22));
    r := FourSteps(op, x, rows, st, 12, r, Row(12, 0x6b901122, 7), Row(13, 0xfd987193, 12),
                   Row(14, 0xa679438e, 17), Row(15, 0x49b40821, 22));
  }

  method Round2(op: Op, x: Block, st: State) returns (r: State)
    ensures r == Steps(op, Rows2, x, st, |x|)
  {
    ghost var rows := Rows2;
    r := st;
    r := FourSteps(op, x, rows, st, 0, r, Row(1, 0xf61e2562, 5), Row(6, 0xc040b340, 9),
                   Row(11, 0x265e5a51, 14), Row(0, 0xe9b6c7aa, 20));
    r := FourSteps(op, x, rows, st, 4, r, Row(5, 0xd62f105d, 5), Row(10, 0x02441453, 9),
                   Row(15, 0xd8a1e681, 14), Row(4, 0xe7d3fbc8, 20));
    r := FourSteps(op, x, rows, st, 8, r, Row(9, 0x21e1cde6, 5), Row(14, 0xc33707d6, 9),
                   Row(3, 0xf4d50d87, 14), Row(8, 0x455a14ed, 20));
    r := FourSteps(op, x, rows, st, 12, r, Row(13, 0xa9e3e905, 5), Row(2, 0xfcefa3f8, 9),
                   Row(7, 0x676f02d9, 14), Row(12, 0x8d2a4c8a, 20));
  }

  method Round3(op: Op, x: Block, st: State) returns (r: State)
    ensures r == Steps(op, Rows3, x, st, |x|)
  {
    ghost var rows := Rows3;
    r := st;
    r := FourSteps(op, x, rows, st, 0, r, Row(5, 0xfffa3942, 4), Row(8, 0x8771f681, 11),
                   Row(11, 0x6d9d6122, 16), Row(14, 0xfde5380c, 23));
    r := FourSteps(op, x, rows, st, 4, r, Row(1, 0xa4beea44, 4), Row(4, 0x4bdecfa9, 11),
                   Row(7, 0xf6bb4b60, 16), Row(10, 0xbebfbc70, 23));
    r := FourSteps(op, x, rows, st, 8, r, Row(13, 0x289b7ec6, 4), Row(0, 0xeaa127fa, 11),
                   Row(3, 0xd4ef3085, 16), Row(6, 0x04881d05, 23));
    r := FourSteps(op, x, rows, st, 12, r, Row(9, 0xd9d4d039, 4), Row(12, 0xe6db99e5, 11),
                   Row(15, 0x1fa27cf8, 16), Row(2, 0xc4ac5665, 23));
  }

  method Round4(op: Op, x: Block, st: State) returns (r: State)
    ensures r == Steps(op, Rows4, x, st, |x|)
  {
    ghost var rows := Rows4;
    r := st;
    r := FourSteps(op, x, rows, st, 0, r, Row(0, 0xf4292244, 6), Row(7, 0x432aff97, 10),
                   Row(14, 0xab9423a7, 15), Row(5, 0xfc93a039, 21));
    r := FourSteps(op, x, rows, st, 4, r, Row(12, 0x655b59c3, 6), Row(3, 0x8f0ccc92, 10),
                   Row(10, 0xffeff47d, 15), Row(1, 0x85845dd1, 21));
    r := FourSteps(op, x, rows, st, 8, r, Row(8, 0x6fa87e4f, 6), Row(15, 0xfe2ce6e0, 10),
                   Row(6, 0xa3014314, 15), Row(13, 0x4e0811a1, 21));
    r := FourSteps(op, x, rows, st, 12, r, Row(4, 0xf7537e82, 6), Row(11, 0xbd3af235, 10),
                   Row(2, 0x2ad7d2bb, 15), Row(9, 0xeb86d391, 21));
  }

  // The macros of md5.cc

  function F1(x: Word, y: Word, z: Word): Word { z ^ (x & (y ^ z)) }
  function F2(x: Word, y: Word, z: Word): Word { F1(z, x, y) }

  /** MD5STEP: w += f(x, y, z) + data, with data = in[k] + t; rotate; w += x. */
  function Macro(f: Word, w: Word, x: Word, data: Word, t: Word, s: Count): Word {
    RotateLeft(w + (f + (data + t)), s) + x
  }

  function Macro1(r: State, x: Word, t: Word, s: Count): Word { Macro(F1(r.b, r.c, r.d), r.a, r.b, x, t, s) }
  function Macro2(r: State, x: Word, t: Word, s: Count): Word { Macro(F2(r.b, r.c, r.d), r.a, r.b, x, t, s) }
  function Macro3(r: State, x: Word, t: Word, s: Count): Word { Macro(H(r.b, r.c, r.d), r.a, r.b, x, t, s) }
  function Macro4(r: State, x: Word, t: Word, s: Count): Word { Macro(I(r.b, r.c, r.d), r.a, r.b, x, t, s) }

  // Facts about bit vectors are kept apart, over bare expressions.

  lemma SelectBits(x: Word, y: Word, z: Word)
    ensures z ^ (x & (y ^ z)) == (x & y) | (!x & z)
  {
  }

  lemma SelectBitsTurned(x: Word, y: Word, z: Word)
    ensures y ^ (z & (x ^ y)) == (x & z) | (y & !z)
  {
  }

  lemma Regroup(a: Word, f: Word, x: Word, t: Word)
    ensures a + (f + (x + t)) == a + f + x + t
  {
  }

  lemma Commute(a: Word, b: Word)
    ensures a + b == b + a
  {
  }

  lemma F1IsF(x: Word, y: Word, z: Word)
    ensures F1(x, y, z) == F(x, y, z)
  {
    SelectBits(x, y, z);
  }

  lemma F2IsG(x: Word, y: Word, z: Word)
    ensures F2(x, y, z) == G(x, y, z)
  {
    SelectBitsTurned(x, y, z);
  }

  lemma MacroIsOperation(f: Word, w: Word, x: Word, data: Word, t: Word, s: Count)
    ensures Macro(f, w, x, data, t, s) == Operation(f, w, x, data, t, s)
  {
    Regroup(w, f, data, t);
    Commute(x, RotateLeft(w + f + data + t, s));
  }

  lemma Macro1IsOperation1(r: State, x: Word, t: Word, s: Count)
    ensures Macro1(r, x, t, s) == Operation1(r, x, t, s)
  {
    F1IsF(r.b, r.c, r.d);
    MacroIsOperation(F(r.b, r.c, r.d), r.a, r.b, x, t, s);
  }

  lemma Macro2IsOperation2(r: State, x: Word, t: Word, s: Count)
    ensures Macro2(r, x, t, s) == Operation2(r, x, t, s)
  {
    F2IsG(r.b, r.c, r.d);
    MacroIsOperation(G(r.b, r.c, r.d), r.a, r.b, x, t, s);
  }

  lemma Macro3IsOperation3(r: State, x: Word, t: Word, s: Count)
    ensures Macro3(r, x, t, s) == Operation3(r, x, t, s)
  {
    MacroIsOperation(H(r.b, r.c, r.d), r.a, r.b, x, t, s);
  }

  lemma Macro4IsOperation4(r: State, x: Word, t: Word, s: Count)
    ensures Macro4(r, x, t, s) == Operation4(r, x, t, s)
  {
    MacroIsOperation(I(r.b, r.c, r.d), r.a, r.b, x, t, s);
  }

  lemma {:induction false} StepsAgree(op: Op, op': Op, rows: nat -> Row, x: Block, st: State, n: nat)
    requires forall r, w, t, s :: op(r, w, t, s) == op'(r, w, t, s)
    ensures Steps(op, rows, x, st, n) == Steps(op', rows, x, st, n)
  {
    if n > 0 { StepsAgree(op, op', rows, x, st, n - 1); }
  }

  /** The four rounds of RFC 1321 section 3.4, added to the state the block started from. */
  function Rounds(o1: Op, o2: Op, o3: Op, o4: Op, st: State, x: Block): State {
    var r1 := Steps(o1, Rows1, x, st, |x|);
    var r2 := Steps(o2, Rows2, x, r1, |x|);
    var r3 := Steps(o3, Rows3, x, r2, |x|);
    Add(st, Steps(o4, Rows4, x, r3, |x|))
  }

  function Add(s: State, t: State): State {
    State(s.a + t.a, s.b + t.b, s.c + t.c, s.d + t.d)
  }

  lemma RoundsAgree(st: State, x: Block)
    ensures Rounds(Macro1, Macro2, Macro3, Macro4, st, x)
         == Rounds(Operation1, Operation2, Operation3, Operation4, st, x)
  {
    var r1 := Steps(Operation1, Rows1, x, st, |x|);
    var r2 := Steps(Operation2, Rows2, x, r1, |x|);
    var r3 := Steps(Operation3, Rows3, x, r2, |x|);
    Round1Agrees(x, st);
    Round2Agrees(x, r1);
    Round3Agrees(x, r2);
    Round4Agrees(x, r3);
  }

  lemma Round1Agrees(x: Block, st: State)
    ensures Steps(Macro1, Rows1, x, st, |x|) == Steps(Operation1, Rows1, x, st, |x|)
  {
    forall r, w, t, s ensures Macro1(r, w, t, s) == Operation1(r, w, t, s) {
      Macro1IsOperation1(r, w, t, s);
    }
    StepsAgree(Macro1, Operation1, Rows1, x, st, |x|);
  }

  lemma Round2Agrees(x: Block, st: State)
    ensures Steps(Macro2, Rows2, x, st, |x|) == Steps(Operation2, Rows2, x, st, |x|)
  {
    forall r, w, t, s ensures Macro2(r, w, t, s) == Operation2(r, w, t, s) {
      Macro2IsOperation2(r, w, t, s);
    }
    StepsAgree(Macro2, Operation2, Rows2, x, st, |x|);
  }

  lemma Round3Agrees(x: Block, st: State)
    ensures Steps(Macro3, Rows3, x, st, |x|) == Steps(Operation3, Rows3, x, st, |x|)
  {
    forall r, w, t, s ensures Macro3(r, w, t, s) == Operation3(r, w, t, s) {
      Macro3IsOperation3(r, w, t, s);
    }
    StepsAgree(Macro3, Operation3, Rows3, x, st, |x|);
  }

  lemma Round4Agrees(x: Block, st: State)
    ensures Steps(Macro4, Rows4, x, st, |x|) == Steps(Operation4, Rows4, x, st, |x|)
  {
    forall r, w, t, s ensures Macro4(r, w, t, s) == Operation4(r, w, t, s) {
      Macro4IsOperation4(r, w, t, s);
    }
    StepsAgree(Macro4, Operation4, Rows4, x, st, |x|);
  }

  // Octets and words

  /** Four bytes make a word, low-order byte first (RFC 1321 section 2). */
  function Decode(b: Octets): Word
    requires |b| == 4
  {
    b[0] as Word | (b[1] as Word << 8) | (b[2] as Word << 16) | (b[3] as Word << 24)
  }

  function Words(block: Octets): Block
    requires |block| == 64
  {
    seq(16, i requires 0 <= i < 16 => Decode(block[4 * i..4 * i + 4]))
  }

  function Encode(w: Word): Octets {
    [(w & 0xff) as Octet, ((w >> 8) & 0xff) as Octet, ((w >> 16) & 0xff) as Octet, (w >> 24) as Octet]
  }

  function LittleEndian(n: nat, k: nat): (b: Octets)
    ensures |b| == k
  {
    if k == 0 then [] else [Low(n)] + LittleEndian(n / 256, k - 1)
  }

  /** The two length words, one after the other, are the 64-bit length. */
  lemma LengthWords(lo: nat, hi: nat)
    requires lo < Basics.TWO32
    ensures LittleEndian(lo, 4) + LittleEndian(hi, 4) == LittleEndian(lo + Basics.TWO32 * hi, LENGTH_BYTES)
  {
    LittleEndianSplit(lo, hi, 4);
  }

  lemma {:induction false} LittleEndianSplit(lo: nat, hi: nat, k: nat)
    requires lo < Basics.Pow256(k)
    ensures LittleEndian(lo, k) + LittleEndian(hi, 4) == LittleEndian(lo + Basics.Pow256(k) * hi, k + 4)
  {
    if k == 0 {
      assert lo == 0;
    } else {
      var p := Basics.Pow256(k - 1);
      Shift256(lo, p, hi);
      LittleEndianSplit(lo / 256, hi, k - 1);
      var rest := LittleEndian(lo / 256, k - 1);
      assert [Low(lo)] + rest + LittleEndian(hi, 4) == [Low(lo)] + (rest + LittleEndian(hi, 4));
    }
  }

  lemma Shift256(lo: nat, p: nat, hi: nat)
    requires lo < 256 * p
    ensures (lo + 256 * p * hi) % 256 == lo % 256
    ensures (lo + 256 * p * hi) / 256 == lo / 256 + p * hi
    ensures lo / 256 < p
  {
    assert 256 * p * hi == 256 * (p * hi);
  }
}
