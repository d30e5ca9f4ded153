/**
 SHA-1 as libquic/base/sha1.cc computes it, against FIPS 180-3.

 The compression is written over the step functions it uses (`Ops`), so that facts about bits
 stay in small lemmas of their own.
*/
module Sha1 {
  import opened BlockHash

  type Word = bv32

  datatype State = State(a: Word, b: Word, c: Word, d: Word, e: Word)

  type Count = s: bv6 | s <= 32

  function RotateLeft(n: Count, x: Word): Word { (x << n) | (x >> (32 - n)) }

  const ROUNDS: nat := 80

  type Mixer = (Word, Word, Word, Word) -> Word

  /** Message schedule, FIPS 180-3 section 6.1.2 step 1. */
  function ScheduleWord(mix: Mixer, m: nat -> Word, t: nat): Word {
    if t < 16 then m(t)
    else mix(ScheduleWord(mix, m, t - 3), ScheduleWord(mix, m, t - 8),
             ScheduleWord(mix, m, t - 14), ScheduleWord(mix, m, t - 16))
  }

  function Schedule(mix: Mixer, m: nat -> Word): (w: seq<Word>)
    ensures |w| == ROUNDS && forall t :: 0 <= t < ROUNDS ==> w[t] == ScheduleWord(mix, m, t)
  {
    seq(ROUNDS, t requires 0 <= t < ROUNDS => ScheduleWord(mix, m, t))
  }

  /** The bit-level functions of one block: the schedule's mix, the new value of the first register
      in step t, the rotation of the second one, and the sum at the end. */
  datatype Ops = Ops(mix: Mixer, temp: (nat, State, Word) -> Word, turn: Word -> Word, add: (State, State) -> State)

  /** The first n rounds of step 3. */
  function Steps(ops: Ops, w: seq<Word>, st: State, n: nat): State
    requires n <= |w|
  {
    if n == 0 then st
    else
      var r := Steps(ops, w, st, n - 1);
      State(ops.temp(n - 1, r, w[n - 1]), r.a, ops.turn(r.b), r.c, r.d)
  }

  function Add(s: State, t: State): State {
    State(s.a + t.a, s.b + t.b, s.c + t.c, s.d + t.d, s.e + t.e)
  }

  // FIPS 180-3 section 4.1.1

  function Ch(x: Word, y: Word, z: Word): Word { (x & y) ^ (!x & z) }
  function Parity(x: Word, y: Word, z: Word): Word { x ^ y ^ z }
  function Maj(x: Word, y: Word, z: Word): Word { (x & y) ^ (x & z) ^ (y & z) }

  function F(t: nat, x: Word, y: Word, z: Word): Word {
    if t < 20 then Ch(x, y, z) else if t < 40 then Parity(x, y, z) else if t < 60 then Maj(x, y, z) else Parity(x, y, z)
  }

  function K(t: nat): Word {
    if t < 20 then 0x5a827999 else if t < 40 then 0x6ed9eba1 else if t < 60 then 0x8f1bbcdc else 0xca62c1d6
  }

  function Sum(a5: Word, f: Word, e: Word, k: Word, w: Word): Word { a5 + f + e + k + w }

  function Temp(t: nat, r: State, w: Word): Word {
    Sum(RotateLeft(5, r.a), F(t, r.b, r.c, r.d), r.e, K(t), w)
  }

  function Mix(a: Word, b: Word, c: Word, d: Word): Word { RotateLeft(1, a ^ b ^ c ^ d) }

  function Turn(b: Word): Word { RotateLeft(30, b) }

  // sha1.cc

  function CodeF(t: nat, b: Word, c: Word, d: Word): Word {
    if t < 20 then (b & c) | (!b & d) else if t < 40 then b ^ c ^ d
    else if t < 60 then (b & c) | (b & d) | (c & d) else b ^ c ^ d
  }

  /** The source adds W[t] before K(t). */
  function CodeSum(a5: Word, f: Word, e: Word, k: Word, w: Word): Word { a5 + f + e + w + k }

  function CodeTemp(t: nat, r: State, w: Word): Word {
    CodeSum(RotateLeft(5, r.a), CodeF(t, r.b, r.c, r.d), r.e, K(t), w)
  }

  lemma ChooseBits(x: Word, y: Word, z: Word)
    ensures (x & y) | (!x & z) == (x & y) ^ (!x & z)
  {
  }

  lemma MajorityBits(x: Word, y: Word, z: Word)
    ensures (x & y) | (x & z) | (y & z) == (x & y) ^ (x & z) ^ (y & z)
  {
  }

  lemma SumOrder(a: Word, k: Word, w: Word)
    ensures a + w + k == a + k + w
  {
  }

  lemma ChIsCh(t: nat, x: Word, y: Word, z: Word)
    requires t < 20
    ensures CodeF(t, x, y, z) == F(t, x, y, z)
  {
    ChooseBits(x, y, z);
  }

  lemma MajIsMaj(t: nat, x: Word, y: Word, z: Word)
    requires 40 <= t < 60
    ensures CodeF(t, x, y, z) == F(t, x, y, z)
  {
    MajorityBits(x, y, z);
  }

  lemma CodeFIsF(t: nat, x: Word, y: Word, z: Word)
    ensures CodeF(t, x, y, z) == F(t, x, y, z)
  {
    if t < 20 { ChIsCh(t, x, y, z); } else if 40 <= t < 60 { MajIsMaj(t, x, y, z); }
  }

  lemma SumsAgree(a5: Word, f: Word, e: Word, k: Word, w: Word)
    ensures CodeSum(a5, f, e, k, w) == Sum(a5, f, e, k, w)
  {
    SumOrder(a5 + f + e, k, w);
  }

  lemma TempsAgree(t: nat, r: State, w: Word)
    ensures CodeTemp(t, r, w) == Temp(t, r, w)
  {
    CodeFIsF(t, r.b, r.c, r.d);
    SumsAgree(RotateLeft(5, r.a), F(t, r.b, r.c, r.d), r.e, K(t), w);
  }

  lemma {:induction false} StepsAgree(ops: Ops, ops': Ops, w: seq<Word>, st: State, n: nat)
    requires n <= |w| && ops.turn == ops'.turn
    requires forall t, r, x :: ops.temp(t, r, x) == ops'.temp(t, r, x)
    ensures Steps(ops, w, st, n) == Steps(ops', w, st, n)
  {
    if n > 0 { StepsAgree(ops, ops', w, st, n - 1); }
  }

  const FIPS := Ops(Mix, Temp, Turn, Add)
  const CODE := Ops(Mix, CodeTemp, Turn, Add)

  lemma CodeAgrees(h: State, w: seq<Word>)
    ensures Steps(CODE, w, h, |w|) == Steps(FIPS, w, h, |w|)
  {
    forall t, r, x ensures CodeTemp(t, r, x) == Temp(t, r, x) { TempsAgree(t, r, x); }
    StepsAgree(CODE, FIPS, w, h, |w|);
  }
}
