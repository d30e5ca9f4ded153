/**
 The Pickle writer and the PickleIterator of libquic/base/pickle.cc, updated in place, against
 the layout of PickleFormat.
*/
module Pickle {
  import Bits
  import opened Basics
  import opened PickleFormat

  const WORD: nat := 64
  const PAYLOAD_UNIT: nat := 64
  const HEAP_ALIGN: nat := 4096

  /** Far above every size a Pickle can reach, far below 2^64. */
  const BOUND: nat := 0x100_0000_0000

  lemma WordIsWide(k: nat)
    requires k <= 12
    ensures Bits.Pow2(k) <= 4096 && BOUND + 4096 < Bits.Pow2(WORD)
  {
    Bits.PowGrows(k, 12);
    assert Bits.Pow2(12) == 4096;
    PowSquared(12, 4096);
    PowSquared(24, 0x100_0000);
    Bits.PowGrows(48, WORD);
  }

  lemma PowSquared(k: nat, p: nat)
    requires Bits.Pow2(k) == p
    ensures Bits.Pow2(2 * k) == p * p
  {
    Bits.PowAdds(k, k);
    assert k + k == 2 * k;
  }

  lemma UpIsUnique(n: nat, r: nat)
    requires r % 4 == 0 && n <= r < n + 4
    ensures r == Up(n)
  {
    assert (n + 3) / 4 == r / 4;
  }

  lemma Aligns(n: nat, k: nat)
    requires n < BOUND && k <= 12
    ensures Bits.Pow2(k) < Bits.Pow2(WORD) && Bits.RoundsUp(n, Bits.Pow2(k), Bits.Align(n, Bits.Pow2(k), WORD))
  {
    WordIsWide(k);
    Bits.AlignRoundsUp(n, k, WORD);
  }

  /** n rounded up to a multiple of a. */
  function UpTo(n: nat, a: nat): nat
    requires a > 0
  {
    (n + a - 1) / a * a
  }

  lemma UpToIsUnique(n: nat, a: nat, r: nat)
    requires a > 0 && Bits.RoundsUp(n, a, r)
    ensures r == UpTo(n, a)
  {
    var q, rest := r / a, n + a - 1 - r;
    assert r == a * q;
    Bits.RemainderOf(n + a - 1, a, q, rest);
  }

  // bits::Align at the alignments the writer and the reader use

  method AlignInt(n: nat) returns (r: nat)
    requires n < BOUND
    ensures r == Up(n)
  {
    Aligns(n, 2);
    assert Bits.Pow2(2) == 4;
    r := Bits.Align(n, 4, WORD);
    UpIsUnique(n, r);
  }

  method AlignUnit(n: nat) returns (r: nat)
    requires n < BOUND
    ensures r == UpTo(n, PAYLOAD_UNIT) && r % PAYLOAD_UNIT == 0 && n <= r < n + PAYLOAD_UNIT
  {
    Aligns(n, 6);
    assert Bits.Pow2(6) == PAYLOAD_UNIT;
    r := Bits.Align(n, PAYLOAD_UNIT, WORD);
    UpToIsUnique(n, PAYLOAD_UNIT, r);
  }

  method AlignHeap(n: nat) returns (r: nat)
    requires n < BOUND
    ensures r == UpTo(n, HEAP_ALIGN) && n <= r < n + HEAP_ALIGN
  {
    Aligns(n, 12);
    assert Bits.Pow2(6) == 64;
    Bits.PowAdds(6, 6);
    r := Bits.Align(n, HEAP_ALIGN, WORD);
    UpToIsUnique(n, HEAP_ALIGN, r);
  }

  /** Twice the capacity; above a page, whole pages less one unit for the heap's own header. */
  function Doubled(capacity: nat): int {
    if capacity * 2 > HEAP_ALIGN then UpTo(capacity * 2, HEAP_ALIGN) - PAYLOAD_UNIT else capacity * 2
  }

  function Max(a: int, b: int): int { if a < b then b else a }

  lemma SumAligned(a: nat, b: nat)
    requires a % 4 == 0
    ensures (a + Up(b)) % 4 == 0
  {
  }

  const MAX32: nat := 0xffff_ffff

  class Pickle {
    const headerSize: nat
    var memory: array<Byte>
    var capacity: nat
    var writeOffset: nat

    /** The buffer holds the header and `capacity` bytes after it; the write offset is aligned and
        within them; the header states the payload size. */
    ghost predicate Valid()
      reads this, memory
    {
      && headerSize % 4 == 0 && INT_BYTES <= headerSize <= PAYLOAD_UNIT
      && Sized(memory.Length, headerSize, capacity, writeOffset)
      && memory[..INT_BYTES] == ToBytes(writeOffset, INT_BYTES)
    }

    /** The payload written so far. */
    ghost function Contents(): Bytes
      requires headerSize + writeOffset <= memory.Length
      reads this, memory
    {
      memory[headerSize..headerSize + writeOffset]
    }

    /** Pickle(header_size) */
    constructor (header: nat)
      requires INT_BYTES <= header <= PAYLOAD_UNIT
      ensures Valid() && fresh(memory) && headerSize == Up(header) && Contents() == []
    {
      var aligned := AlignInt(header);
      headerSize := aligned;
      capacity, writeOffset := PAYLOAD_UNIT, 0;
      memory := new Byte[aligned + PAYLOAD_UNIT](i => 0);
      new;
      assert memory[..INT_BYTES] == ToBytes(0, INT_BYTES);
    }

    /** realloc to a capacity that is a multiple of the payload unit */
    method Resize(newCapacity: nat)
      requires headerSize <= BOUND && newCapacity < BOUND && memory.Length <= headerSize + newCapacity
      modifies this`capacity, this`memory
      ensures fresh(memory) && capacity % PAYLOAD_UNIT == 0 && newCapacity <= capacity < newCapacity + PAYLOAD_UNIT
      ensures capacity == UpTo(newCapacity, PAYLOAD_UNIT)
      ensures memory.Length == headerSize + capacity
      ensures memory[..old(memory.Length)] == old(memory[..])
    {
      capacity := AlignUnit(newCapacity);
      var bigger := new Byte[headerSize + capacity](i => 0);
      var i := 0;
      while i < memory.Length
        invariant 0 <= i <= memory.Length && bigger.Length == headerSize + capacity
        invariant bigger[..i] == memory[..i]
        modifies bigger
      {
        bigger[i] := memory[i];
        i := i + 1;
      }
      memory := bigger;
    }

    /** The growth step of ClaimUninitializedBytesInternal */
    method Grow(newSize: nat)
      requires Sized(memory.Length, headerSize, capacity, writeOffset) && headerSize <= PAYLOAD_UNIT
      requires newSize <= MAX32
      modifies this`capacity, this`memory
      ensures Sized(memory.Length, headerSize, capacity, writeOffset)
      ensures newSize <= capacity && old(capacity) <= capacity
      ensures newSize <= old(capacity) ==> capacity == old(capacity)
      ensures newSize > old(capacity) ==>
                && Max(Doubled(old(capacity)), newSize) >= 0
                && capacity == UpTo(Max(Doubled(old(capacity)), newSize), PAYLOAD_UNIT)
      ensures memory == old(memory) || fresh(memory)
      ensures memory.Length >= old(memory.Length) && memory[..old(memory.Length)] == old(memory[..])
    {
      if newSize > capacity {
        var newCapacity := capacity * 2;
        if newCapacity > HEAP_ALIGN {
          newCapacity := AlignHeap(newCapacity);
          newCapacity := newCapacity - PAYLOAD_UNIT;
        }
        Resize(if newCapacity < newSize then newSize else newCapacity);
      }
    }

    /** What the rest of a claim needs of the growth step. */
    method MakeRoom(newSize: nat)
      requires Sized(memory.Length, headerSize, capacity, writeOffset) && headerSize <= PAYLOAD_UNIT
      requires newSize <= MAX32
      modifies this`capacity, this`memory
      ensures Sized(memory.Length, headerSize, capacity, writeOffset)
      ensures newSize <= capacity && old(capacity) <= capacity
      ensures memory == old(memory) || fresh(memory)
      ensures memory.Length >= old(memory.Length) && memory[..old(memory.Length)] == old(memory[..])
    {
      Grow(newSize);
    }

    /** Reserve: room for `length` more bytes; nothing else changes. */
    method Reserve(length: nat)
      requires Valid() && length <= MAX32 && writeOffset + Up(length) <= MAX32
      modifies this`capacity, this`memory
      ensures Valid() && (memory == old(memory) || fresh(memory))
      ensures writeOffset + Up(length) <= capacity && old(capacity) <= capacity
      ensures var newSize := writeOffset + Up(length);
              capacity == if newSize <= old(capacity) then old(capacity)
                          else UpTo(old(capacity) * 2 + newSize, PAYLOAD_UNIT)
      ensures Contents() == old(Contents())
    {
      var dataLen := AlignInt(length);
      var newSize := writeOffset + dataLen;
      if newSize > capacity {
        Resize(capacity * 2 + newSize);
        SamePrefix(old(memory[..]), memory[..], INT_BYTES, headerSize, headerSize + writeOffset);
      }
    }

    /** memcpy or memset into the buffer */
    method Store(at: nat, src: Bytes)
      requires at + |src| <= memory.Length
      modifies memory
      ensures memory[..] == Put(old(memory[..]), at, src)
    {
      var i := 0;
      while i < |src|
        invariant 0 <= i <= |src|
        invariant forall j :: 0 <= j < memory.Length ==>
          memory[j] == if at <= j < at + i then src[j - at] else old(memory[j])
      {
        memory[at + i] := src[i];
        i := i + 1;
      }
    }

    /** ClaimUninitializedBytesInternal: zeroed padding, the new payload size in the header, the
        write offset moved; returns where the caller may write. */
    method Claim(length: nat) returns (write: nat)
      requires Valid() && length <= MAX32 && writeOffset + Up(length) <= MAX32
      modifies this`capacity, this`memory, this`writeOffset, memory
      ensures Valid() && (memory == old(memory) || fresh(memory))
      ensures writeOffset == old(writeOffset) + Up(length) && write == headerSize + old(writeOffset)
      ensures old(capacity) <= capacity && old(memory.Length) <= memory.Length
      ensures Claimed(old(memory[..]), memory[..], write, length, writeOffset)
    {
      var dataLen := AlignInt(length);
      var newSize := writeOffset + dataLen;
      SumAligned(writeOffset, length);
      MakeRoom(newSize);
      ghost var m0 := memory[..];
      write := headerSize + writeOffset;
      Mark(write + length, dataLen - length, newSize);
      ghost var m := memory[..];
      ClaimedAfterGrow(old(memory[..]), m0, m, write, length, newSize);
      writeOffset := newSize;
      assert Sized(memory.Length, headerSize, capacity, writeOffset);
      assert memory[..INT_BYTES] == m[..INT_BYTES];
    }

    /** Zero the padding and store the new payload size. */
    method Mark(at: nat, padding: nat, size: nat)
      requires at + padding <= memory.Length && INT_BYTES <= memory.Length
      modifies memory
      ensures memory[..] == Put(Put(old(memory[..]), at, Zeros(padding)), 0, ToBytes(size, INT_BYTES))
    {
      Store(at, Zeros(padding));
      Store(0, ToBytes(size, INT_BYTES));
    }

    /** WriteBytesCommon, and with it WriteBytes and WritePOD */
    method WriteBytes(data: Bytes)
      requires Valid() && |data| <= MAX32 && writeOffset + Up(|data|) <= MAX32
      modifies this`capacity, this`memory, this`writeOffset, memory
      ensures Valid() && (memory == old(memory) || fresh(memory))
      ensures Contents() == old(Contents()) + Padded(data)
      ensures memory[INT_BYTES..headerSize] == old(memory[INT_BYTES..headerSize])
    {
      ghost var m0, c, front := memory[..], Contents(), memory[INT_BYTES..headerSize];
      assert c == m0[headerSize..headerSize + writeOffset] && front == m0[INT_BYTES..headerSize];
      var write := Claim(|data|);
      ghost var m1 := memory[..];
      Store(write, data);
      ghost var m := memory[..];
      Written(m0, m1, m, headerSize, write, data, writeOffset);
      assert memory[..INT_BYTES] == m[..INT_BYTES] && memory[INT_BYTES..headerSize] == m[INT_BYTES..headerSize];
      assert Contents() == m[headerSize..headerSize + writeOffset];
    }

    /** WritePOD at an integer or floating type of `width` bytes */
    method WriteNumber(width: nat, signed: bool, n: int)
      requires Valid() && Writable(NumberValue(width, signed, n)) && writeOffset + Up(width) <= MAX32
      modifies this`capacity, this`memory, this`writeOffset, memory
      ensures Valid() && (memory == old(memory) || fresh(memory))
      ensures Contents() == old(Contents()) + Encode(NumberValue(width, signed, n))
      ensures memory[INT_BYTES..headerSize] == old(memory[INT_BYTES..headerSize])
    {
      WriteBytes(ToBytes(Wrap(n, width), width));
    }

    method WriteInt(n: int)
      requires Valid() && 0 - INT_LIMIT <= n < INT_LIMIT && writeOffset + INT_BYTES <= MAX32
      modifies this`capacity, this`memory, this`writeOffset, memory
      ensures Valid() && (memory == old(memory) || fresh(memory))
      ensures Contents() == old(Contents()) + IntBytes(n)
      ensures memory[INT_BYTES..headerSize] == old(memory[INT_BYTES..headerSize])
    {
      WriteBytes(IntBytes(n));
      IntIsPadded(n);
    }

    method WriteBool(b: bool)
      requires Valid() && writeOffset + INT_BYTES <= MAX32
      modifies this`capacity, this`memory, this`writeOffset, memory
      ensures Valid() && (memory == old(memory) || fresh(memory))
      ensures Contents() == old(Contents()) + Encode(TruthValue(b))
      ensures memory[INT_BYTES..headerSize] == old(memory[INT_BYTES..headerSize])
    {
      WriteInt(if b then 1 else 0);
    }

    /** WriteString and WriteData */
    method WriteText(bytes: Bytes)
      requires Valid() && Writable(TextValue(bytes)) && writeOffset + INT_BYTES + Up(|bytes|) <= MAX32
      modifies this`capacity, this`memory, this`writeOffset, memory
      ensures Valid() && (memory == old(memory) || fresh(memory))
      ensures Contents() == old(Contents()) + Encode(TextValue(bytes))
      ensures memory[INT_BYTES..headerSize] == old(memory[INT_BYTES..headerSize])
    {
      ghost var c := Contents();
      WriteInt(|bytes|);
      Prefixed(c, Contents(), |bytes|);
      WriteBytes(bytes);
      Rejoin(c, IntBytes(|bytes|), Padded(bytes));
    }

    method WriteString16(units: seq<nat>)
      requires Valid() && Writable(WideTextValue(units)) && writeOffset + INT_BYTES + Up(UNIT_BYTES * |units|) <= MAX32
      modifies this`capacity, this`memory, this`writeOffset, memory
      ensures Valid() && (memory == old(memory) || fresh(memory))
      ensures Contents() == old(Contents()) + Encode(WideTextValue(units))
      ensures memory[INT_BYTES..headerSize] == old(memory[INT_BYTES..headerSize])
    {
      ghost var c, bytes := Contents(), UnitBytes(units);
      WriteInt(|units|);
      Prefixed(c, Contents(), |units|);
      WriteBytes(UnitBytes(units));
      Rejoin(c, IntBytes(|units|), Padded(bytes));
    }

    /** Whichever write a value calls for */
    method Write(v: Value)
      requires Valid() && Writable(v) && writeOffset + |Encode(v)| <= MAX32
      modifies this`capacity, this`memory, this`writeOffset, memory
      ensures Valid() && (memory == old(memory) || fresh(memory))
      ensures Contents() == old(Contents()) + Encode(v)
      ensures memory[INT_BYTES..headerSize] == old(memory[INT_BYTES..headerSize])
    {
      match v
      case TruthValue(b) => WriteBool(b);
      case NumberValue(width, signed, n) => WriteNumber(width, signed, n);
      case TextValue(bytes) => WriteText(bytes);
      case WideTextValue(units) => WriteString16(units);
      case RawValue(bytes) => WriteBytes(bytes);
    }

    method WriteAll(vs: seq<Value>)
      requires Valid() && AllWritable(vs) && writeOffset + |EncodeAll(vs)| <= MAX32
      modifies this`capacity, this`memory, this`writeOffset, memory
      ensures Valid() && (memory == old(memory) || fresh(memory))
      ensures Contents() == old(Contents()) + EncodeAll(vs)
    {
      ghost var c := Contents();
      assert Chunks(vs[..0]) == [];
      for k := 0 to |vs|
        invariant Valid() && (memory == old(memory) || fresh(memory))
        invariant Contents() == c + EncodeAll(vs[..k])
      {
        Before(vs, k);
        Write(vs[k]);
        Rejoin(c, EncodeAll(vs[..k]), Encode(vs[k]));
      }
      assert vs[..|vs|] == vs;
    }

    /** data() and size(): the bytes of the Pickle */
    method Data() returns (data: Bytes)
      requires Valid()
      ensures data == Image(memory[INT_BYTES..headerSize], Contents())
    {
      data := memory[..headerSize + writeOffset];
      assert data == data[..INT_BYTES] + data[INT_BYTES..headerSize] + data[headerSize..];
    }
  }

  /** The first k values, the next one, and the room they take. */
  lemma Before(vs: seq<Value>, k: nat)
    requires k < |vs|
    ensures EncodeAll(vs[..k + 1]) == EncodeAll(vs[..k]) + Encode(vs[k])
    ensures |EncodeAll(vs[..k])| + |Encode(vs[k])| <= |EncodeAll(vs)|
  {
    EncodeSplit(vs[..k], [vs[k]]);
    EncodeOne(vs[k]);
    assert vs[..k + 1] == vs[..k] + [vs[k]];
    EncodeSplit(vs[..k + 1], vs[k + 1..]);
    assert vs == vs[..k + 1] + vs[k + 1..];
  }

  lemma Rejoin(a: Bytes, b: Bytes, c: Bytes)
    ensures a + b + c == a + (b + c)
  {
  }

  lemma IntIsPadded(n: int)
    ensures Padded(IntBytes(n)) == IntBytes(n)
  {
  }

  lemma Prefixed(c: Bytes, c': Bytes, n: nat)
    requires c' == c + IntBytes(n)
    ensures |c'| == |c| + INT_BYTES
  {
  }

  lemma SamePrefix(a: Bytes, b: Bytes, k: nat, lo: nat, hi: nat)
    requires |a| <= |b| && b[..|a|] == a && k <= |a| && lo <= hi <= |a|
    ensures b[..k] == a[..k] && b[lo..hi] == a[lo..hi]
  {
    forall i | 0 <= i < |a| ensures b[i] == a[i] { assert b[..|a|][i] == a[i]; }
    assert b[..k] == a[..k];
    assert b[lo..hi] == a[lo..hi];
  }

  /** `m` with `src` written at index `at`. */
  function Put(m: Bytes, at: nat, src: Bytes): (r: Bytes)
    requires at + |src| <= |m|
    ensures |r| == |m|
    ensures forall j {:trigger r[j]} :: 0 <= j < |m| ==> r[j] == if at <= j < at + |src| then src[j - at] else m[j]
  {
    m[..at] + src + m[at + |src|..]
  }

  /** What a claim leaves in memory: the new size in front, zeros behind the claimed bytes, the
      rest as it was. */
  ghost predicate Claimed(m0: Bytes, m: Bytes, write: nat, length: nat, size: nat) {
    && |m0| <= |m| && INT_BYTES <= write <= |m0| && write + Up(length) <= |m|
    && m[..INT_BYTES] == ToBytes(size, INT_BYTES)
    && m[INT_BYTES..write] == m0[INT_BYTES..write]
    && m[write + length..write + Up(length)] == Zeros(Up(length) - length)
  }

  lemma ClaimedAfterGrow(old0: Bytes, m0: Bytes, m: Bytes, write: nat, length: nat, size: nat)
    requires |old0| <= |m0| && m0[..|old0|] == old0
    requires INT_BYTES <= write <= |old0| && write + Up(length) <= |m0|
    requires m == Put(Put(m0, write + length, Zeros(Up(length) - length)), 0, ToBytes(size, INT_BYTES))
    ensures Claimed(old0, m, write, length, size)
  {
    assert m[..INT_BYTES] == ToBytes(size, INT_BYTES);
    forall j | INT_BYTES <= j < write ensures m[j] == old0[j] {
      assert m0[..|old0|][j] == old0[j];
    }
    assert m[INT_BYTES..write] == old0[INT_BYTES..write];
    assert m[write + length..write + Up(length)] == Zeros(Up(length) - length);
  }

  lemma Written(m0: Bytes, m1: Bytes, m: Bytes, header: nat, write: nat, data: Bytes, size: nat)
    requires Claimed(m0, m1, write, |data|, size) && m == Put(m1, write, data) && INT_BYTES <= header <= write
    ensures m[..INT_BYTES] == ToBytes(size, INT_BYTES)
    ensures m[INT_BYTES..header] == m0[INT_BYTES..header]
    ensures m[header..write + Up(|data|)] == m0[header..write] + Padded(data)
  {
    assert m[..INT_BYTES] == m1[..INT_BYTES];
    assert m[INT_BYTES..write] == m1[INT_BYTES..write];
    var k := header - INT_BYTES;
    assert m[INT_BYTES..header] == m[INT_BYTES..write][..k] && m0[INT_BYTES..header] == m0[INT_BYTES..write][..k];
    assert m[header..write] == m[INT_BYTES..write][k..] && m0[header..write] == m0[INT_BYTES..write][k..];
    assert m[write..write + |data|] == data;
    assert m[write + |data|..write + Up(|data|)] == m1[write + |data|..write + Up(|data|)];
    ThreeParts(m, header, write, write + |data|, write + Up(|data|));
  }

  lemma ThreeParts(m: Bytes, a: nat, b: nat, c: nat, d: nat)
    requires a <= b <= c <= d <= |m|
    ensures m[a..d] == m[a..b] + (m[b..c] + m[c..d])
  {
  }

  ghost predicate Sized(length: nat, headerSize: nat, capacity: nat, writeOffset: nat) {
    && length == headerSize + capacity
    && capacity % PAYLOAD_UNIT == 0 && 0 < capacity < 4 * (MAX32 + 1)
    && writeOffset % 4 == 0 && writeOffset <= capacity && writeOffset <= MAX32
  }

  /** A PickleIterator over a payload; `present` is false when the read-only Pickle was rejected. */
  class PickleIterator {
    const payload: Bytes
    const present: bool
    var readIndex: nat

    ghost predicate Valid()
      reads this
    {
      readIndex <= |payload| < BOUND
    }

    constructor (payload: Bytes, present: bool)
      requires |payload| < BOUND
      ensures Valid() && readIndex == 0 && this.payload == payload && this.present == present
    {
      this.payload, this.present, readIndex := payload, present, 0;
    }

    method Advance(size: nat)
      requires Valid() && size < BOUND
      modifies this`readIndex
      ensures readIndex == Advanced(|payload|, old(readIndex), size)
    {
      var alignedSize := AlignInt(size);
      if |payload| - readIndex < alignedSize {
        readIndex := |payload|;
      } else {
        readIndex := readIndex + alignedSize;
      }
    }

    /** GetReadPointerAndAdvance, over a type's size or a byte count */
    method TakeBytes(n: int) returns (bytes: Option<Bytes>)
      requires Valid()
      modifies this`readIndex
      ensures Valid() && (bytes, readIndex) == Take(payload, present, old(readIndex), n)
    {
      if n < 0 || |payload| - readIndex < n {
        readIndex := |payload|;
        return None;
      }
      var at := readIndex;
      Advance(n);
      bytes := if present then Some(payload[at..at + n]) else None;
    }

    method TakeElements(count: int) returns (bytes: Option<Bytes>)
      requires Valid()
      modifies this`readIndex
      ensures Valid() && (bytes, readIndex) == TakeUnits(payload, present, old(readIndex), count)
    {
      if count < 0 || UNIT_BYTES * count >= INT_LIMIT { return None; }
      bytes := TakeBytes(UNIT_BYTES * count);
    }

    method ReadBool() returns (v: Option<Value>)
      requires Valid()
      modifies this`readIndex
      ensures Valid() && (v, readIndex) == Read(Truth, payload, present, old(readIndex))
    {
      var bytes := TakeBytes(1);
      if bytes.None? { return None; }
      v := Some(TruthValue(bytes.value[0] != 0));
    }

    /** ReadBuiltinType, ReadFloat and ReadDouble */
    method ReadNumeric(width: nat, signed: bool) returns (n: Option<int>)
      requires Valid()
      modifies this`readIndex
      ensures Valid() && (n, readIndex) == ReadNumber(payload, present, old(readIndex), width, signed)
    {
      var bytes := TakeBytes(width);
      if bytes.None? { return None; }
      n := Some(Unwrap(FromBytes(bytes.value), width, signed));
    }

    /** ReadString, ReadStringPiece and ReadData */
    method ReadString() returns (v: Option<Value>)
      requires Valid()
      modifies this`readIndex
      ensures Valid() && (v, readIndex) == Read(Text, payload, present, old(readIndex))
    {
      var length := ReadNumeric(INT_BYTES, true);
      if length.None? { return None; }
      var bytes := TakeBytes(length.value);
      if bytes.None? { return None; }
      v := Some(TextValue(bytes.value));
    }

    method ReadString16() returns (v: Option<Value>)
      requires Valid()
      modifies this`readIndex
      ensures Valid() && (v, readIndex) == Read(WideText, payload, present, old(readIndex))
    {
      var length := ReadNumeric(INT_BYTES, true);
      if length.None? { return None; }
      var bytes := TakeElements(length.value);
      if bytes.None? { return None; }
      v := Some(WideTextValue(Units(bytes.value)));
    }

    /** Whichever read a kind calls for */
    method ReadValue(kind: Kind) returns (v: Option<Value>)
      requires Valid()
      modifies this`readIndex
      ensures Valid() && (v, readIndex) == Read(kind, payload, present, old(readIndex))
    {
      match kind
      case Truth => v := ReadBool();
      case Number(width, signed) =>
        var n := ReadNumeric(width, signed);
        v := if n.Some? then Some(NumberValue(width, signed, n.value)) else None;
      case Text => v := ReadString();
      case WideText => v := ReadString16();
      case Raw(length) =>
        var bytes := TakeBytes(length);
        v := if bytes.Some? then Some(RawValue(bytes.value)) else None;
    }

    /** One read after the other */
    method ReadValues(kinds: seq<Kind>) returns (vs: Option<seq<Value>>)
      requires Valid()
      modifies this`readIndex
      ensures Valid() && (vs, readIndex) == ReadList(Reader(payload, present), kinds, old(readIndex))
      decreases |kinds|
    {
      if kinds == [] { return Some([]); }
      var v := ReadValue(kinds[0]);
      var rest := ReadValues(kinds[1..]);
      vs := if v.Some? && rest.Some? then Some([v.value] + rest.value) else None;
    }
  }

  /** The read-only constructor: the header size it deduces, 0 for data it will not use. */
  method OpenReadOnly(data: Bytes) returns (header: nat)
    requires |data| < INT_LIMIT
    ensures header == HeaderSize(data)
    ensures header == 0 || (header % 4 == 0 && INT_BYTES <= header && header + FromBytes(data[..INT_BYTES]) == |data|)
  {
    header := 0;
    if |data| >= INT_BYTES {
      header := (|data| - FromBytes(data[..INT_BYTES])) % TWO32;
    }
    if header > |data| { header := 0; }
    var aligned := AlignInt(header);
    if header != aligned { header := 0; }
    HeaderIsSound(data);
  }

  /** Values written through a new Pickle, and its bytes. */
  method Save(header: nat, vs: seq<Value>) returns (data: Bytes, ghost front: Bytes)
    requires INT_BYTES <= header <= PAYLOAD_UNIT && AllWritable(vs) && |EncodeAll(vs)| <= MAX32
    ensures INT_BYTES + |front| == Up(header) && data == Image(front, EncodeAll(vs))
  {
    var pickle := new Pickle(header);
    pickle.WriteAll(vs);
    front := pickle.memory[INT_BYTES..pickle.headerSize];
    data := pickle.Data();
    assert [] + EncodeAll(vs) == EncodeAll(vs);
  }

  /** A read-only Pickle over bytes that a Pickle wrote, and an iterator over its payload. */
  method Open(data: Bytes, ghost front: Bytes, ghost payload: Bytes) returns (it: PickleIterator)
    requires data == Image(front, payload) && |front| % 4 == 0 && |data| < INT_LIMIT
    ensures fresh(it) && it.Valid() && it.payload == payload && it.present && it.readIndex == 0
  {
    OpensAgain(front, payload);
    var size := OpenReadOnly(data);
    it := new PickleIterator(data[size..], size > 0);
  }

  /** Values written through a Pickle, its bytes opened again and read through an iterator: the
      same values come back, and the iterator stands at the end. */
  method WritesReadBack(header: nat, vs: seq<Value>) returns (read: Option<seq<Value>>, atEnd: bool)
    requires INT_BYTES <= header <= PAYLOAD_UNIT && AllWritable(vs) && Up(header) + |EncodeAll(vs)| < INT_LIMIT
    ensures read == Some(vs) && atEnd
  {
    var data, front := Save(header, vs);
    var it := Open(data, front, EncodeAll(vs));
    AllReadBack(vs);
    read := it.ReadValues(Kinds(vs));
    atEnd := it.readIndex == |it.payload|;
  }
}
