/**
 The layout of a Pickle (libquic/base/pickle.h, pickle.cc): how typed values are laid out in the
 payload, how an iterator takes them out again, and how a read-only Pickle finds its header.
*/
module PickleFormat {
  import opened Basics

  // Little-endian integers

  function ToBytes(n: nat, k: nat): (b: Bytes)
    ensures |b| == k
  {
    if k == 0 then [] else [n % 256] + ToBytes(n / 256, k - 1)
  }

  function FromBytes(b: Bytes): (n: nat)
    ensures n < Pow256(|b|)
  {
    if b == [] then 0 else b[0] + 256 * FromBytes(b[1..])
  }

  lemma {:induction false} BytesRoundTrip(n: nat, k: nat)
    requires n < Pow256(k)
    ensures FromBytes(ToBytes(n, k)) == n
  {
    if k > 0 {
      BytesRoundTrip(n / 256, k - 1);
      assert ToBytes(n, k)[1..] == ToBytes(n / 256, k - 1);
    }
  }

  /** Two's complement in `k` bytes. */
  function Wrap(n: int, k: nat): (u: nat) {
    if n < 0 && -n <= Pow256(k) then n + Pow256(k) else if n < 0 then 0 else n
  }

  function Unwrap(u: nat, k: nat, signed: bool): int {
    if signed && 2 * u >= Pow256(k) then u - Pow256(k) else u
  }

  predicate Fits(n: int, k: nat, signed: bool) {
    if signed then 0 - Pow256(k) <= 2 * n < Pow256(k) else 0 <= n < Pow256(k)
  }

  lemma WrapRoundTrip(n: int, k: nat, signed: bool)
    requires k > 0 && Fits(n, k, signed)
    ensures Wrap(n, k) < Pow256(k) && Unwrap(Wrap(n, k), k, signed) == n
  {
    assert Pow256(k) == 256 * Pow256(k - 1);
  }

  // Values

  /** What a reader asks for.  Number covers the types WritePOD is used at; float and double are
      taken as their bit patterns.  Text is a string or a data blob, Raw a blob whose length the
      reader knows. */
  datatype Kind = Truth | Number(width: nat, signed: bool) | Text | WideText | Raw(length: int)

  datatype Value =
    | TruthValue(b: bool)
    | NumberValue(width: nat, signed: bool, n: int)
    | TextValue(bytes: Bytes)
    | WideTextValue(units: seq<nat>)
    | RawValue(bytes: Bytes)

  const INT_BYTES: nat := 4
  const UNIT_BYTES: nat := 2
  const INT_LIMIT: nat := 0x8000_0000

  const INT := Number(INT_BYTES, true)

  /** The size limits the writer states, and the ranges of the C++ types. */
  predicate Writable(v: Value) {
    match v
    case TruthValue(_) => true
    case NumberValue(width, signed, n) => 0 < width <= 8 && Fits(n, width, signed)
    case TextValue(bytes) => |bytes| < INT_LIMIT
    case WideTextValue(units) => UNIT_BYTES * |units| < INT_LIMIT && AllUnits(units)
    case RawValue(bytes) => |bytes| < INT_LIMIT
  }

  predicate AllUnits(units: seq<nat>) {
    forall i :: 0 <= i < |units| ==> units[i] < 0x1_0000
  }

  function KindOf(v: Value): Kind {
    match v
    case TruthValue(_) => Truth
    case NumberValue(width, signed, _) => Number(width, signed)
    case TextValue(_) => Text
    case WideTextValue(_) => WideText
    case RawValue(bytes) => Raw(|bytes|)
  }

  // Layout

  /** A size rounded up to 4 bytes. */
  function Up(n: nat): (r: nat)
    ensures r % 4 == 0 && n <= r < n + 4
  {
    (n + 3) / 4 * 4
  }

  function Zeros(n: nat): (z: Bytes)
    ensures |z| == n
  {
    seq(n, i => 0)
  }

  /** Every write is padded with zeros to 4 bytes. */
  function Padded(b: Bytes): (p: Bytes)
    ensures |p| == Up(|b|) && |p| % 4 == 0 && b <= p
  {
    b + Zeros(Up(|b|) - |b|)
  }

  function IntBytes(n: int): (b: Bytes)
    ensures |b| == INT_BYTES
  {
    ToBytes(Wrap(n, INT_BYTES), INT_BYTES)
  }

  function UnitBytes(units: seq<nat>): (b: Bytes)
    ensures |b| == UNIT_BYTES * |units|
  {
    if units == [] then [] else ToBytes(units[0], UNIT_BYTES) + UnitBytes(units[1..])
  }

  function Encode(v: Value): Bytes {
    match v
    case TruthValue(t) => IntBytes(if t then 1 else 0)
    case NumberValue(width, _, n) => Padded(ToBytes(Wrap(n, width), width))
    case TextValue(bytes) => IntBytes(|bytes|) + Padded(bytes)
    case WideTextValue(units) => IntBytes(|units|) + Padded(UnitBytes(units))
    case RawValue(bytes) => Padded(bytes)
  }

  function Chunks(vs: seq<Value>): (c: seq<Bytes>)
    ensures |c| == |vs|
  {
    seq(|vs|, i requires 0 <= i < |vs| => Encode(vs[i]))
  }

  function EncodeAll(vs: seq<Value>): Bytes { Flatten(Chunks(vs)) }

  lemma EncodeSplit(a: seq<Value>, b: seq<Value>)
    ensures EncodeAll(a + b) == EncodeAll(a) + EncodeAll(b)
  {
    assert Chunks(a + b) == Chunks(a) + Chunks(b);
    FlattenSplit(Chunks(a), Chunks(b));
  }

  lemma EncodeOne(v: Value)
    ensures EncodeAll([v]) == Encode(v)
  {
    assert Chunks([v]) == [Encode(v)];
    FlattenOne(Encode(v));
  }

  // Reading.  A payload pointer is absent when the read-only constructor rejected its data.

  /** PickleIterator::Advance: aligned, and never past the end. */
  function Advanced(end: nat, i: nat, n: nat): (r: nat)
    requires i <= end
    ensures i <= r <= end
  {
    if end - i < Up(n) then end else i + Up(n)
  }

  /** GetReadPointerAndAdvance(num_bytes): the bytes, and the new read index. */
  function Take(payload: Bytes, present: bool, i: nat, n: int): (r: (Option<Bytes>, nat))
    requires i <= |payload|
    ensures i <= r.1 <= |payload|
  {
    if n < 0 || |payload| - i < n then (None, |payload|)
    else (if present then Some(payload[i..i + n]) else None, Advanced(|payload|, i, n))
  }

  /** GetReadPointerAndAdvance(num_elements, size_element): a count whose byte size is no int
      fails without moving the read index. */
  function TakeUnits(payload: Bytes, present: bool, i: nat, count: int): (r: (Option<Bytes>, nat))
    requires i <= |payload|
    ensures i <= r.1 <= |payload|
  {
    if count < 0 || UNIT_BYTES * count >= INT_LIMIT then (None, i) else Take(payload, present, i, UNIT_BYTES * count)
  }

  function ReadNumber(payload: Bytes, present: bool, i: nat, width: nat, signed: bool): (r: (Option<int>, nat))
    requires i <= |payload|
    ensures i <= r.1 <= |payload|
  {
    var (b, j) := Take(payload, present, i, width);
    if b.Some? then (Some(Unwrap(FromBytes(b.value), width, signed)), j) else (None, j)
  }

  function Units(b: Bytes): seq<nat>
  {
    if |b| < UNIT_BYTES then [] else [FromBytes(b[..UNIT_BYTES])] + Units(b[UNIT_BYTES..])
  }

  function Read(kind: Kind, payload: Bytes, present: bool, i: nat): (r: (Option<Value>, nat))
    requires i <= |payload|
    ensures i <= r.1 <= |payload|
  {
    match kind
    case Truth =>
      var (b, j) := Take(payload, present, i, 1);
      if b.Some? then (Some(TruthValue(b.value[0] != 0)), j) else (None, j)
    case Number(width, signed) =>
      var (n, j) := ReadNumber(payload, present, i, width, signed);
      if n.Some? then (Some(NumberValue(width, signed, n.value)), j) else (None, j)
    case Text =>
      var (n, j) := ReadNumber(payload, present, i, INT_BYTES, true);
      if n.None? then (None, j)
      else
        var (b, k) := Take(payload, present, j, n.value);
        if b.Some? then (Some(TextValue(b.value)), k) else (None, k)
    case WideText =>
      var (n, j) := ReadNumber(payload, present, i, INT_BYTES, true);
      if n.None? then (None, j)
      else
        var (b, k) := TakeUnits(payload, present, j, n.value);
        if b.Some? then (Some(WideTextValue(Units(b.value))), k) else (None, k)
    case Raw(length) =>
      var (b, j) := Take(payload, present, i, length);
      if b.Some? then (Some(RawValue(b.value)), j) else (None, j)
  }

  /** One read after the other; the list succeeds if every read does. */
  function ReadList<K, V>(read: (K, nat) -> (Option<V>, nat), kinds: seq<K>, i: nat): (Option<seq<V>>, nat)
    decreases |kinds|
  {
    if kinds == [] then (Some([]), i)
    else
      var (v, j) := read(kinds[0], i);
      var (vs, k) := ReadList(read, kinds[1..], j);
      (if v.Some? && vs.Some? then Some([v.value] + vs.value) else None, k)
  }

  function ReadFrom(payload: Bytes, present: bool, kind: Kind, i: nat): (Option<Value>, nat) {
    if i <= |payload| then Read(kind, payload, present, i) else (None, i)
  }

  function Reader(payload: Bytes, present: bool): (Kind, nat) -> (Option<Value>, nat) {
    (k, i) => ReadFrom(payload, present, k, i)
  }

  function ReadAll(kinds: seq<Kind>, payload: Bytes, present: bool): (Option<seq<Value>>, nat) {
    ReadList(Reader(payload, present), kinds, 0)
  }

  // Round trip

  /** The bytes `b` stand at index i of the payload. */
  predicate At(payload: Bytes, i: nat, b: Bytes) {
    i + |b| <= |payload| && payload[i..i + |b|] == b
  }

  lemma AtParts(payload: Bytes, i: nat, a: Bytes, b: Bytes)
    requires At(payload, i, a + b)
    ensures At(payload, i, a) && At(payload, i + |a|, b)
  {
    var whole := payload[i..i + |a + b|];
    assert payload[i..i + |a|] == whole[..|a|] == a;
    assert payload[i + |a|..i + |a| + |b|] == whole[|a|..] == b;
  }

  lemma TakePadded(payload: Bytes, i: nat, b: Bytes)
    requires At(payload, i, Padded(b))
    ensures Take(payload, true, i, |b|) == (Some(b), i + |Padded(b)|)
  {
    AtParts(payload, i, b, Zeros(Up(|b|) - |b|));
  }

  lemma NumberReadsBack(payload: Bytes, i: nat, width: nat, signed: bool, n: int)
    requires width > 0 && Fits(n, width, signed)
    requires At(payload, i, Padded(ToBytes(Wrap(n, width), width)))
    ensures ReadNumber(payload, true, i, width, signed) == (Some(n), i + Up(width))
  {
    var b := ToBytes(Wrap(n, width), width);
    TakePadded(payload, i, b);
    WrapRoundTrip(n, width, signed);
    BytesRoundTrip(Wrap(n, width), width);
  }

  lemma IntReadsBack(payload: Bytes, i: nat, n: int)
    requires 0 - INT_LIMIT <= n < INT_LIMIT && At(payload, i, IntBytes(n))
    ensures ReadNumber(payload, true, i, INT_BYTES, true) == (Some(n), i + INT_BYTES)
  {
    FourBytes();
    assert Padded(IntBytes(n)) == IntBytes(n);
    NumberReadsBack(payload, i, INT_BYTES, true, n);
  }

  lemma FourBytes()
    ensures Pow256(INT_BYTES) == 2 * INT_LIMIT
  {
    assert Pow256(1) == 256 && Pow256(2) == 0x1_0000 && Pow256(3) == 0x100_0000;
  }

  lemma {:induction false} UnitsRoundTrip(units: seq<nat>)
    requires AllUnits(units)
    ensures Units(UnitBytes(units)) == units
  {
    if units != [] {
      var head := ToBytes(units[0], UNIT_BYTES);
      var b := UnitBytes(units);
      assert b[..UNIT_BYTES] == head && b[UNIT_BYTES..] == UnitBytes(units[1..]);
      assert Pow256(1) == 256 && Pow256(UNIT_BYTES) == 0x1_0000;
      BytesRoundTrip(units[0], UNIT_BYTES);
      UnitsRoundTrip(units[1..]);
    }
  }

  lemma TruthReadsBack(payload: Bytes, i: nat, t: bool)
    requires At(payload, i, Encode(TruthValue(t)))
    ensures Read(Truth, payload, true, i) == (Some(TruthValue(t)), i + INT_BYTES)
  {
    var n := if t then 1 else 0;
    var b := IntBytes(n);
    assert b[0] == n;
    assert payload[i] == payload[i..i + |b|][0] == b[0];
  }

  lemma TextReadsBack(payload: Bytes, i: nat, bytes: Bytes)
    requires |bytes| < INT_LIMIT && At(payload, i, Encode(TextValue(bytes)))
    ensures Read(Text, payload, true, i) == (Some(TextValue(bytes)), i + INT_BYTES + |Padded(bytes)|)
  {
    AtParts(payload, i, IntBytes(|bytes|), Padded(bytes));
    IntReadsBack(payload, i, |bytes|);
    TakePadded(payload, i + INT_BYTES, bytes);
  }

  lemma WideTextReadsBack(payload: Bytes, i: nat, units: seq<nat>)
    requires Writable(WideTextValue(units)) && At(payload, i, Encode(WideTextValue(units)))
    ensures Read(WideText, payload, true, i) == (Some(WideTextValue(units)), i + INT_BYTES + |Padded(UnitBytes(units))|)
  {
    var bytes := UnitBytes(units);
    AtParts(payload, i, IntBytes(|units|), Padded(bytes));
    IntReadsBack(payload, i, |units|);
    WideTextTaken(payload, i + INT_BYTES, |units|, bytes);
    UnitsRoundTrip(units);
  }

  lemma WideTextTaken(payload: Bytes, i: nat, count: nat, bytes: Bytes)
    requires UNIT_BYTES * count == |bytes| < INT_LIMIT && At(payload, i, Padded(bytes))
    ensures TakeUnits(payload, true, i, count) == (Some(bytes), i + |Padded(bytes)|)
  {
    TakePadded(payload, i, bytes);
  }

  /** A value laid out at the read index is read back, and the index moves just past it. */
  lemma ReadsBack(payload: Bytes, i: nat, v: Value)
    requires Writable(v) && At(payload, i, Encode(v))
    ensures Read(KindOf(v), payload, true, i) == (Some(v), i + |Encode(v)|)
  {
    match v
    case TruthValue(t) => TruthReadsBack(payload, i, t);
    case NumberValue(width, signed, n) => NumberReadsBack(payload, i, width, signed, n);
    case TextValue(bytes) => TextReadsBack(payload, i, bytes);
    case WideTextValue(units) => WideTextReadsBack(payload, i, units);
    case RawValue(bytes) => TakePadded(payload, i, bytes);
  }

  function Kinds(vs: seq<Value>): (ks: seq<Kind>)
    ensures |ks| == |vs|
  {
    seq(|vs|, i requires 0 <= i < |vs| => KindOf(vs[i]))
  }

  predicate AllWritable(vs: seq<Value>) {
    forall i :: 0 <= i < |vs| ==> Writable(vs[i])
  }

  function Offset(chunks: seq<Bytes>, t: nat): nat
    requires t <= |chunks|
  {
    if t == 0 then 0 else Offset(chunks, t - 1) + |chunks[t - 1]|
  }

  lemma {:induction false} OffsetIsLength(chunks: seq<Bytes>, t: nat)
    requires t <= |chunks|
    ensures Offset(chunks, t) == |Flatten(chunks[..t])|
  {
    if t > 0 {
      OffsetIsLength(chunks, t - 1);
      assert chunks[..t] == chunks[..t - 1] + [chunks[t - 1]];
      FlattenSplit(chunks[..t - 1], [chunks[t - 1]]);
    }
  }

  /** Each chunk stands at its offset. */
  lemma ChunkAt(chunks: seq<Bytes>, t: nat)
    requires t < |chunks|
    ensures At(Flatten(chunks), Offset(chunks, t), chunks[t])
  {
    var before, c, after := chunks[..t], chunks[t], chunks[t + 1..];
    Around(chunks, t);
    OffsetIsLength(chunks, t);
    ChunkBetween(before, c, after);
  }

  lemma Around(chunks: seq<Bytes>, t: nat)
    requires t < |chunks|
    ensures chunks == chunks[..t] + ([chunks[t]] + chunks[t + 1..])
  {
  }

  lemma ChunkBetween(before: seq<Bytes>, c: Bytes, after: seq<Bytes>)
    ensures At(Flatten(before + ([c] + after)), |Flatten(before)|, c)
  {
    FlattenSplit(before, [c] + after);
    FlattenSplit([c], after);
    FlattenOne(c);
    Middle(Flatten(before), c, Flatten(after));
  }

  lemma Middle(a: Bytes, b: Bytes, c: Bytes)
    ensures At(a + (b + c), |a|, b)
  {
    assert (a + (b + c))[|a|..|a| + |b|] == b;
  }

  /** If each read finds its value at its position, the list of reads finds them all. */
  lemma {:induction false} ListReadsBack<K, V>(read: (K, nat) -> (Option<V>, nat), kinds: seq<K>,
                                               vs: seq<V>, at: seq<nat>)
    requires |kinds| == |vs| && |at| == |vs| + 1
    requires forall t :: 0 <= t < |vs| ==> read(kinds[t], at[t]) == (Some(vs[t]), at[t + 1])
    ensures ReadList(read, kinds, at[0]) == (Some(vs), at[|vs|])
    decreases |vs|
  {
    if vs != [] {
      assert read(kinds[0], at[0]) == (Some(vs[0]), at[1]);
      forall t | 0 <= t < |vs| - 1
        ensures read(kinds[1..][t], at[1..][t]) == (Some(vs[1..][t]), at[1..][t + 1])
      {
        assert read(kinds[t + 1], at[t + 1]) == (Some(vs[t + 1]), at[t + 2]);
      }
      ListReadsBack(read, kinds[1..], vs[1..], at[1..]);
      assert [vs[0]] + vs[1..] == vs;
    }
  }

  lemma EachReadsBack(vs: seq<Value>, t: nat)
    requires AllWritable(vs) && t < |vs|
    ensures ReadFrom(EncodeAll(vs), true, Kinds(vs)[t], Offset(Chunks(vs), t)) ==
            (Some(vs[t]), Offset(Chunks(vs), t + 1))
  {
    ChunkAt(Chunks(vs), t);
    ReadsBack(EncodeAll(vs), Offset(Chunks(vs), t), vs[t]);
  }

  /** Reading the same kinds in order gives the same values and ends where the writes ended. */
  lemma AllReadBack(vs: seq<Value>)
    requires AllWritable(vs)
    ensures ReadAll(Kinds(vs), EncodeAll(vs), true) == (Some(vs), |EncodeAll(vs)|)
  {
    var chunks, payload := Chunks(vs), EncodeAll(vs);
    var at := seq(|vs| + 1, t requires 0 <= t <= |vs| => Offset(chunks, t));
    var read := Reader(payload, true);
    forall t | 0 <= t < |vs|
      ensures read(Kinds(vs)[t], at[t]) == (Some(vs[t]), at[t + 1])
    {
      EachReadsBack(vs, t);
    }
    ListReadsBack(read, Kinds(vs), vs, at);
    OffsetIsLength(chunks, |vs|);
    assert chunks[..|vs|] == chunks;
  }

  // The read-only constructor

  /** The header size the constructor settles on; 0 means the data is rejected.  The subtraction
      is on 32-bit unsigned numbers. */
  function HeaderSize(data: Bytes): nat {
    if |data| < INT_BYTES then 0
    else
      var size := (|data| - FromBytes(data[..INT_BYTES])) % TWO32;
      if size > |data| || size != Up(size) then 0 else size
  }

  function Payload(data: Bytes): Bytes {
    if 0 < HeaderSize(data) <= |data| then data[HeaderSize(data)..] else []
  }

  /** Every byte string an int can measure is rejected, or its header is aligned, holds at least
      the size field, and together with the stated payload size makes up the data. */
  lemma HeaderIsSound(data: Bytes)
    requires |data| < INT_LIMIT
    ensures var h := HeaderSize(data);
            h == 0 || (h % 4 == 0 && INT_BYTES <= h <= |data| && h + FromBytes(data[..INT_BYTES]) == |data|)
  {
    if |data| >= INT_BYTES {
      FourBytes();
      WrapsAbove(|data|, FromBytes(data[..INT_BYTES]));
    }
  }

  lemma WrapsAbove(n: nat, p: nat)
    requires n < INT_LIMIT && p < TWO32
    ensures (n - p) % TWO32 == if p <= n then n - p else n - p + TWO32
  {
  }

  /** Which data is accepted: the stated payload fits, and what is left is a nonzero multiple of 4. */
  lemma AcceptedExactly(data: Bytes)
    requires |data| < INT_LIMIT
    ensures HeaderSize(data) > 0
       <==> && |data| >= INT_BYTES && FromBytes(data[..INT_BYTES]) < |data|
            && (|data| - FromBytes(data[..INT_BYTES])) % 4 == 0
  {
    if |data| >= INT_BYTES {
      FourBytes();
      WrapsAbove(|data|, FromBytes(data[..INT_BYTES]));
    }
  }

  /** The bytes of a Pickle: the payload size, the rest of the header, the payload. */
  function Image(header: Bytes, payload: Bytes): Bytes {
    ToBytes(|payload|, INT_BYTES) + header + payload
  }

  /** A read-only Pickle over written bytes finds the header the writer used. */
  lemma OpensAgain(header: Bytes, payload: Bytes)
    requires |header| % 4 == 0 && |Image(header, payload)| < INT_LIMIT
    ensures HeaderSize(Image(header, payload)) == INT_BYTES + |header| && Payload(Image(header, payload)) == payload
  {
    var data := Image(header, payload);
    assert data[..INT_BYTES] == ToBytes(|payload|, INT_BYTES);
    FourBytes();
    BytesRoundTrip(|payload|, INT_BYTES);
    WrapsAbove(|data|, |payload|);
    assert data[INT_BYTES + |header|..] == payload;
  }

  /** Any typed writes, read back in order through a read-only Pickle, end at the payload end. */
  lemma RoundTrip(header: Bytes, vs: seq<Value>)
    requires |header| % 4 == 0 && AllWritable(vs) && |Image(header, EncodeAll(vs))| < INT_LIMIT
    ensures var payload := Payload(Image(header, EncodeAll(vs)));
            ReadAll(Kinds(vs), payload, true) == (Some(vs), |payload|)
  {
    OpensAgain(header, EncodeAll(vs));
    AllReadBack(vs);
  }

  /** Nothing is ever read from data that the read-only constructor rejected. */
  lemma RejectedReadsNothing(kind: Kind, payload: Bytes, i: nat)
    requires i <= |payload|
    ensures Read(kind, payload, false, i).0 == None
  {
  }

  /** The payload is the end of the data, as long as the header says; rejected data has none. */
  lemma PayloadExactly(data: Bytes)
    requires |data| < INT_LIMIT
    ensures HeaderSize(data) == 0 ==> Payload(data) == []
    ensures HeaderSize(data) > 0 ==>
              && |data| >= INT_BYTES && FromBytes(data[..INT_BYTES]) <= |data|
              && Payload(data) == data[|data| - FromBytes(data[..INT_BYTES])..]
  {
    HeaderIsSound(data);
  }

  /** Every bool, int and unsigned int, and every string a writer takes, can be written. */
  lemma Writables(t: bool, n: int, bytes: Bytes)
    ensures Writable(TruthValue(t))
    ensures 0 - INT_LIMIT <= n < INT_LIMIT ==> Writable(NumberValue(INT_BYTES, true, n))
    ensures 0 <= n < TWO32 ==> Writable(NumberValue(INT_BYTES, false, n))
    ensures |bytes| < INT_LIMIT ==> Writable(TextValue(bytes)) && Writable(RawValue(bytes))
  {
    FourBytes();
  }

  // What a failed read leaves behind

  /** A length-prefixed string of 16-bit units whose count cannot be turned into a byte size. */
  predicate BadCount(kind: Kind, payload: Bytes, present: bool, i: nat)
    requires i <= |payload|
  {
    && kind.WideText?
    && var (n, _) := ReadNumber(payload, present, i, INT_BYTES, true);
       n.Some? && (n.value < 0 || UNIT_BYTES * n.value >= INT_LIMIT)
  }

  /** After a failed read the iterator stands at the end, except after a bad unit count. */
  lemma FailureIsFinal(kind: Kind, payload: Bytes, i: nat)
    requires i <= |payload| && Read(kind, payload, true, i).0.None?
    ensures !BadCount(kind, payload, true, i) ==> Read(kind, payload, true, i).1 == |payload|
    ensures BadCount(kind, payload, true, i) ==> Read(kind, payload, true, i).1 == Advanced(|payload|, i, INT_BYTES)
  {
  }

  /** At the end of the payload no read of a byte or more succeeds. */
  lemma NothingAtTheEnd(kind: Kind, payload: Bytes, present: bool)
    requires !(kind.Number? && kind.width == 0) && !(kind.Raw? && kind.length == 0)
    ensures Read(kind, payload, present, |payload|) == (None, |payload|)
  {
  }

  /** The header promises that nothing can be read after a failure; a negative unit count is an
      exception. */
  lemma ReadAfterFailure()
    ensures var payload := IntBytes(-1) + IntBytes(7);
            var (s, i) := Read(WideText, payload, true, 0);
            s == None && Read(INT, payload, true, i) == (Some(NumberValue(INT_BYTES, true, 7)), |payload|)
  {
    var payload := IntBytes(-1) + IntBytes(7);
    AtParts(payload, 0, IntBytes(-1), IntBytes(7));
    IntReadsBack(payload, 0, -1);
    IntReadsBack(payload, INT_BYTES, 7);
  }

  // Finding the end of a Pickle in a stream of bytes

  /** PeekNext: the total size, from the header alone.  Neither part is large enough for the
      64-bit sum to be clamped. */
  function PeekNext(headerSize: nat, range: Bytes): Option<nat> {
    if |range| < INT_BYTES || |range| < headerSize then None else Some(headerSize + FromBytes(range[..INT_BYTES]))
  }

  function FindNext(headerSize: nat, range: Bytes): Option<nat> {
    var size := PeekNext(headerSize, range);
    if size.None? || size.value > |range| then None else size
  }

  /** In Pickles laid end to end, FindNext finds the seam; cut short, it finds none. */
  lemma FindsTheSeam(header: Bytes, payload: Bytes, more: Bytes)
    requires |Image(header, payload)| < INT_LIMIT
    ensures FindNext(INT_BYTES + |header|, Image(header, payload) + more) == Some(|Image(header, payload)|)
  {
    FourBytes();
    BytesRoundTrip(|payload|, INT_BYTES);
    assert (Image(header, payload) + more)[..INT_BYTES] == ToBytes(|payload|, INT_BYTES);
  }

  lemma FindsNoSeam(header: Bytes, payload: Bytes, n: nat)
    requires n < |Image(header, payload)| < INT_LIMIT
    ensures FindNext(INT_BYTES + |header|, Image(header, payload)[..n]) == None
  {
    if n >= INT_BYTES {
      FourBytes();
      BytesRoundTrip(|payload|, INT_BYTES);
      assert Image(header, payload)[..n][..INT_BYTES] == ToBytes(|payload|, INT_BYTES);
    }
  }
}
