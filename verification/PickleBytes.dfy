/**
 What a Pickle writes, byte by byte: the layout of PickleFormat against a definition that says what
 stands at each index.
*/
module PickleBytes {
  import Bits
  import opened Basics
  import opened PickleFormat

  lemma {:induction false} ByteAt(n: nat, k: nat, i: nat)
    requires i < k
    ensures ToBytes(n, k)[i] == n / Pow256(i) % 256
  {
    if i > 0 {
      ByteAt(n / 256, k - 1, i - 1);
      DivideTwice(n, Pow256(i - 1));
    }
  }

  lemma DivideTwice(n: nat, p: nat)
    requires p > 0
    ensures n / 256 / p == n / (256 * p)
  {
    var h := n / 256;
    var q, r := h / p, h % p;
    assert n == 256 * (p * q + r) + n % 256 == 256 * p * q + (256 * r + n % 256);
    Bits.RemainderOf(n, 256 * p, q, 256 * r + n % 256);
  }

  lemma TwoBytes(n: nat)
    ensures ToBytes(n, UNIT_BYTES) == [n % 256, n / 256 % 256]
  {
    assert ToBytes(n / 256, 1) == [n / 256 % 256] + ToBytes(n / 256 / 256, 0);
  }

  lemma {:induction false} UnitAt(units: seq<nat>, i: nat)
    requires i < |units|
    ensures UnitBytes(units)[UNIT_BYTES * i] == units[i] % 256
    ensures UnitBytes(units)[UNIT_BYTES * i + 1] == units[i] / 256 % 256
  {
    TwoBytes(units[0]);
    if i > 0 { UnitAt(units[1..], i - 1); }
  }

  lemma Remainder(n: int, p: nat, r: nat)
    requires r < p && n == r - p
    ensures n % p == r
  {
    var d := n / p + 1;
    assert p * d == r - n % p;
    assert d >= 1 ==> p * d >= p;
    assert d <= -1 ==> p * d <= 0 - p;
  }

  /** A number is written modulo the range of its width. */
  lemma WrapIsModulo(n: int, k: nat, signed: bool)
    requires k > 0 && Fits(n, k, signed)
    ensures Wrap(n, k) == n % Pow256(k)
  {
    if n < 0 {
      Remainder(n, Pow256(k), n + Pow256(k));
    } else {
      Bits.RemainderOf(n, Pow256(k), 0, n);
    }
  }

  function LittleEndian(n: nat, i: nat): int { n / Pow256(i) % 256 }

  /** The byte at index i of what is written for a value: numbers and lengths with their low byte
      first, text as it is, 16-bit units with their low byte first, zeros behind. */
  function ByteOf(v: Value, i: nat): int {
    match v
    case TruthValue(t) => if i == 0 && t then 1 else 0
    case NumberValue(width, _, n) => if i < width then LittleEndian(n % Pow256(width), i) else 0
    case TextValue(bytes) =>
      if i < INT_BYTES then LittleEndian(|bytes|, i) else TextByte(bytes, i - INT_BYTES)
    case WideTextValue(units) =>
      if i < INT_BYTES then LittleEndian(|units|, i) else UnitByte(units, i - INT_BYTES)
    case RawValue(bytes) => TextByte(bytes, i)
  }

  function TextByte(bytes: Bytes, i: nat): int { if i < |bytes| then bytes[i] else 0 }

  function UnitByte(units: seq<nat>, i: nat): int {
    if i >= UNIT_BYTES * |units| then 0
    else if i % UNIT_BYTES == 0 then units[i / UNIT_BYTES] % 256
    else units[i / UNIT_BYTES] / 256 % 256
  }

  lemma PaddedBytes(bytes: Bytes, i: nat)
    requires i < |Padded(bytes)|
    ensures Padded(bytes)[i] == TextByte(bytes, i)
  {
  }

  lemma PaddedUnits(units: seq<nat>, i: nat)
    requires i < |Padded(UnitBytes(units))|
    ensures Padded(UnitBytes(units))[i] == UnitByte(units, i)
  {
    PaddedBytes(UnitBytes(units), i);
    if i < UNIT_BYTES * |units| { UnitAt(units, i / UNIT_BYTES); }
  }

  lemma NumberBytes(width: nat, signed: bool, n: int, i: nat)
    requires width > 0 && Fits(n, width, signed) && i < Up(width)
    ensures Padded(ToBytes(Wrap(n, width), width))[i] == ByteOf(NumberValue(width, signed, n), i)
  {
    WrapIsModulo(n, width, signed);
    PaddedBytes(ToBytes(Wrap(n, width), width), i);
    if i < width { ByteAt(Wrap(n, width), width, i); }
  }

  lemma LengthBytes(n: nat, i: nat)
    requires i < INT_BYTES
    ensures IntBytes(n)[i] == LittleEndian(n, i)
  {
    ByteAt(n, INT_BYTES, i);
  }

  lemma {:induction false} ZeroBytes(k: nat, i: nat)
    requires i < k
    ensures ToBytes(0, k)[i] == 0
  {
    if i > 0 { ZeroBytes(k - 1, i - 1); }
  }

  lemma TruthBytes(t: bool, i: nat)
    requires i < INT_BYTES
    ensures IntBytes(if t then 1 else 0)[i] == ByteOf(TruthValue(t), i)
  {
    var n: nat := if t then 1 else 0;
    assert ToBytes(n, INT_BYTES) == [n] + ToBytes(0, INT_BYTES - 1);
    if i > 0 { ZeroBytes(INT_BYTES - 1, i - 1); }
  }

  /** What is written for any value, at every index. */
  lemma EncodedBytes(v: Value, i: nat)
    requires Writable(v) && i < |Encode(v)|
    ensures Encode(v)[i] == ByteOf(v, i)
  {
    match v
    case TruthValue(t) => TruthBytes(t, i);
    case NumberValue(width, signed, n) => NumberBytes(width, signed, n, i);
    case TextValue(bytes) =>
      if i < INT_BYTES { LengthBytes(|bytes|, i); } else { PaddedBytes(bytes, i - INT_BYTES); }
    case WideTextValue(units) =>
      if i < INT_BYTES { LengthBytes(|units|, i); } else { PaddedUnits(units, i - INT_BYTES); }
    case RawValue(bytes) => PaddedBytes(bytes, i);
  }
}
