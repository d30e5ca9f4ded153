/**
 Reading a stream: QuicStreamEntry::Readv, OnReceived and OnFinRead of src/stream_entry.cpp, the
 edge-triggered POLLIN of src/event.cpp and src/epoller_entry.cpp, and the drain loop of
 simple/connection.cpp.
*/
module StreamRead {
  import opened Basics

  // The scatter copy

  function Total(lens: seq<nat>): nat {
    if lens == [] then 0 else lens[0] + Total(lens[1..])
  }

  function Min(a: nat, b: nat): nat { if a < b then a else b }

  lemma {:induction false} TotalSnoc(lens: seq<nat>, n: nat)
    ensures Total(lens + [n]) == Total(lens) + n
  {
    if lens == [] {
      assert lens + [n] == [n] && [n][1..] == [];
    } else {
      assert (lens + [n])[1..] == lens[1..] + [n];
      TotalSnoc(lens[1..], n);
    }
  }

  lemma {:induction false} TotalPrefix(lens: seq<nat>, k: nat)
    requires k <= |lens|
    ensures Total(lens[..k]) <= Total(lens)
    decreases |lens| - k
  {
    if k == |lens| {
      assert lens[..k] == lens;
    } else {
      assert lens[..k + 1] == lens[..k] + [lens[k]];
      TotalSnoc(lens[..k], lens[k]);
      TotalPrefix(lens, k + 1);
    }
  }

  lemma SmallInt(n: nat)
    ensures n < 0x8000_0000 ==> Int(n) == n
  {
  }

  datatype Outcome = Count(n: int) | Again | Failed(errno: int)

  /** The copy so far: `pieces` filled the first buffers with the first `pos` bytes. */
  ghost predicate Copied(buffer: Bytes, lens: seq<nat>, pieces: seq<Bytes>, pos: nat) {
    && |pieces| == |lens| && (forall j :: 0 <= j < |lens| ==> |pieces[j]| <= lens[j])
    && pos == Min(|buffer|, Total(lens)) && Flatten(pieces) == buffer[..pos]
  }

  lemma CopyStep(buffer: Bytes, lens: seq<nat>, i: nat, pieces: seq<Bytes>, pos: nat, n: nat)
    requires i < |lens| && Copied(buffer, lens[..i], pieces, pos) && n == Min(|buffer| - pos, lens[i])
    ensures Copied(buffer, lens[..i + 1], pieces + [buffer[pos..pos + n]], pos + n)
  {
    assert lens[..i + 1] == lens[..i] + [lens[i]];
    TotalSnoc(lens[..i], lens[i]);
    FlattenSnoc(pieces, buffer[pos..pos + n]);
    assert buffer[..pos] + buffer[pos..pos + n] == buffer[..pos + n];
  }

  class StreamEntry {
    var recvBuffer: Bytes
    var finRead: bool
    var error: int

    /** Readv: the pieces copied into the buffers of the scatter list, front to back. */
    method Readv(lens: seq<nat>) returns (res: Outcome, pieces: seq<Bytes>)
      modifies this`recvBuffer
      ensures old(recvBuffer) == Flatten(pieces) + recvBuffer
      ensures |pieces| <= |lens| && forall i :: 0 <= i < |pieces| ==> |pieces[i]| <= lens[i]
      ensures error != 0 ==> res == Failed(error) && pieces == []
      ensures error == 0 && finRead ==> res == Count(0) && pieces == []
      ensures error == 0 && !finRead ==> |Flatten(pieces)| == Min(|old(recvBuffer)|, Total(lens))
      ensures error == 0 && !finRead && |old(recvBuffer)| < 0x8000_0000 ==>
                res == if pieces == [] || Flatten(pieces) == [] then Again else Count(|Flatten(pieces)|)
    {
      pieces := [];
      if error != 0 { return Failed(error), []; }
      if finRead { return Count(0), []; }
      var pos;
      pieces, pos := Scatter(lens);
      recvBuffer := if pos == |recvBuffer| then [] else recvBuffer[pos..];
      SmallInt(pos);
      res := if Int(pos) == 0 then Again else Count(Int(pos));
    }

    /** The copy loop of Readv */
    method Scatter(lens: seq<nat>) returns (pieces: seq<Bytes>, pos: nat)
      ensures pos == Min(|recvBuffer|, Total(lens)) && Flatten(pieces) == recvBuffer[..pos]
      ensures |pieces| <= |lens| && forall i :: 0 <= i < |pieces| ==> |pieces[i]| <= lens[i]
    {
      pieces, pos := [], 0;
      var i: nat := 0;
      while i < |lens| && pos < |recvBuffer|
        invariant i <= |lens| && Copied(recvBuffer, lens[..i], pieces, pos)
      {
        var copyBytes := Min(|recvBuffer| - pos, lens[i]);
        CopyStep(recvBuffer, lens, i, pieces, pos, copyBytes);
        pieces := pieces + [recvBuffer[pos..pos + copyBytes]];
        pos := pos + copyBytes;
        i := i + 1;
      }
      TotalPrefix(lens, i);
      assert i == |lens| ==> lens[..i] == lens;
    }

    method OnReceived(data: Bytes) returns (trigger: bool)
      modifies this`recvBuffer
      ensures recvBuffer == old(recvBuffer) + data && trigger == (old(recvBuffer) == [])
    {
      trigger := recvBuffer == [];
      recvBuffer := recvBuffer + data;
    }
  }

  // One stream, its transport and its reader, step by step

  /** How far OnReceived has come after it appended to an empty buffer. */
  datatype Raise = Quiet | ToSet | ToTrigger

  /** `reading` is a Readv that has passed its test of finRead_ and waits for the session mutex,
      under which it copies; OnReceived and OnFinRead run under that mutex from end to end.

      `readable`, and the registration's mask and POLLIN bit; the reader drains after an event
      until it is told EAGAIN.  The last two fields remember a read with no room at all and a
      mask that once lacked POLLIN. */
  datatype State = State(
    received: Bytes, returned: Bytes, buffer: Bytes, fin: bool, reading: Option<seq<nat>>,
    raise: Raise, readable: bool,
    registered: bool, wantsIn: bool, pollin: bool,
    draining: bool, roomless: bool, unmasked: bool)

  const INIT := State([], [], [], false, None, Quiet, false, false, false, false, false, false, false)

  datatype Action =
    | Receive(data: Bytes)
    | SetFlag
    | TriggerIn
    | Finish
    | Register(wants: bool)
    | Unregister
    | Modify(wants: bool)
    | Deliver
    | BeginRead(lens: seq<nat>)
    | FinishRead

  predicate Enabled(s: State, a: Action) {
    match a
    case Receive(_) => s.raise.Quiet? && !s.fin
    case SetFlag => s.raise.ToSet?
    case TriggerIn => s.raise.ToTrigger?
    case Finish => s.raise.Quiet?
    case Register(_) => !s.registered
    case Unregister => s.registered
    case Modify(_) => s.registered
    case Deliver => s.registered && s.wantsIn && s.pollin && !s.draining
    case BeginRead(_) => s.reading.None?
    case FinishRead => s.reading.Some? && s.raise.Quiet?
  }

  /** How many bytes the read in flight would copy now. */
  function InFlight(s: State): (n: nat)
    ensures n <= |s.buffer|
  {
    if s.reading.Some? then Min(|s.buffer|, Total(s.reading.value)) else 0
  }

  function AfterRead(s: State): State
    requires s.reading.Some?
  {
    var n := InFlight(s);
    s.(returned := s.returned + s.buffer[..n], buffer := s.buffer[n..], reading := None, draining := n > 0,
       roomless := s.roomless || Total(s.reading.value) == 0)
  }

  function After(s: State, a: Action): State
    requires Enabled(s, a)
  {
    match a
    case Receive(data) =>
      s.(received := s.received + data, buffer := s.buffer + data, raise := if s.buffer == [] then ToSet else Quiet)
    case SetFlag => s.(raise := ToTrigger, readable := true)
    case TriggerIn => s.(raise := Quiet, pollin := s.pollin || (s.registered && s.wantsIn))
    case Finish => s.(fin := true)
    case Register(wants) =>
      s.(registered := true, wantsIn := wants, pollin := wants && s.readable, unmasked := !wants)
    case Unregister => s.(registered := false, wantsIn := false, pollin := false, unmasked := false)
    case Modify(wants) => s.(wantsIn := wants, unmasked := s.unmasked || !wants)
    case Deliver => s.(pollin := false, draining := true)
    case BeginRead(lens) => if s.fin then s.(draining := false) else s.(reading := Some(lens))
    case FinishRead => AfterRead(s)
  }

  /** Nothing is lost, doubled or reordered; bytes waiting in the buffer are announced. */
  ghost predicate Inv(s: State) {
    && s.returned + s.buffer == s.received
    && (s.buffer != [] ==> s.readable || s.raise.ToSet?)
    && (s.raise.ToTrigger? ==> s.readable)
    && (s.registered ==> s.wantsIn || s.unmasked)
    && Announced(s)
  }

  /** A registered reader that is not draining, never read without room and never dropped POLLIN
      from its mask has an event or is about to get one, if there is anything to read. */
  ghost predicate Announced(s: State) {
    s.registered && !s.unmasked && !s.roomless && !s.draining && !s.fin && s.buffer != [] ==>
      s.pollin || !s.raise.Quiet?
  }

  lemma AfterKeepsInv(s: State, a: Action)
    requires Inv(s) && Enabled(s, a)
    ensures Inv(After(s, a))
  {
    match a
    case Receive(data) => assert s.returned + (s.buffer + data) == s.returned + s.buffer + data;
    case FinishRead => ReadKeepsInv(s);
    case _ =>
  }

  lemma ReadKeepsInv(s: State)
    requires Inv(s) && s.reading.Some?
    ensures Inv(AfterRead(s))
  {
    var n := InFlight(s);
    assert s.returned + s.buffer[..n] + s.buffer[n..] == s.returned + s.buffer;
  }

  ghost predicate Steps(s: State, s': State) {
    exists a :: Enabled(s, a) && s' == After(s, a)
  }

  ghost predicate StepTo(tr: seq<State>, i: nat) {
    0 < i < |tr| ==> Steps(tr[i - 1], tr[i])
  }

  ghost predicate IsTrace(tr: seq<State>) {
    |tr| > 0 && tr[0] == INIT && forall i: nat :: StepTo(tr, i)
  }

  lemma {:induction false} TraceInv(tr: seq<State>, i: nat)
    requires IsTrace(tr) && i < |tr|
    ensures Inv(tr[i])
  {
    if i > 0 {
      TraceInv(tr, i - 1);
      assert StepTo(tr, i);
      var a :| Enabled(tr[i - 1], a) && tr[i] == After(tr[i - 1], a);
      AfterKeepsInv(tr[i - 1], a);
    }
  }

  /** In every run, what the reader got followed by what is buffered is what arrived, in order. */
  lemma Conserved(tr: seq<State>, i: nat)
    requires IsTrace(tr) && i < |tr|
    ensures tr[i].returned + tr[i].buffer == tr[i].received
  {
    TraceInv(tr, i);
  }

  /** In every run before FIN, a reader that keeps POLLIN in its mask, offers room and drains to
      EAGAIN is never idle with bytes buffered and no POLLIN pending or on its way. */
  lemma NeverStranded(tr: seq<State>, i: nat)
    requires IsTrace(tr) && i < |tr|
    requires tr[i].registered && !tr[i].unmasked && !tr[i].roomless && !tr[i].draining && !tr[i].fin
    ensures tr[i].buffer != [] ==> tr[i].pollin || !tr[i].raise.Quiet?
  {
    TraceInv(tr, i);
  }

  // Why each condition is there

  /** A registered reader waits for POLLIN, bytes are buffered, and no event is pending or coming. */
  predicate Stranded(s: State) {
    && s.registered && s.wantsIn && !s.draining && s.reading.None?
    && s.raise.Quiet? && !s.pollin && s.buffer != []
  }

  /** The moves that strand a reader, all its own, with bytes buffered and no event left: a read
      that is refused for FIN, a read that had no room, and putting POLLIN back into the mask. */
  predicate StrandingMove(s: State, a: Action) {
    && s.registered && s.raise.Quiet? && !s.pollin && s.buffer != []
    && (|| (a.BeginRead? && s.wantsIn && s.fin)
        || (a.FinishRead? && s.wantsIn && s.reading.Some? && Total(s.reading.value) == 0)
        || (a.Modify? && a.wants && !s.wantsIn && !s.draining && s.reading.None?))
  }

  /** In every run, a reader that is not stranded becomes so by exactly these moves. */
  lemma StrandsExactly(tr: seq<State>, i: nat, a: Action)
    requires IsTrace(tr) && i < |tr| && Enabled(tr[i], a) && !Stranded(tr[i])
    ensures Stranded(After(tr[i], a)) <==> StrandingMove(tr[i], a)
  {
    TraceInv(tr, i);
  }

  /** Only the reader can end it, by asking again: nothing the transport or the epoller does. */
  lemma StrandedStays(s: State, a: Action)
    requires Stranded(s) && Enabled(s, a)
    requires a.Receive? || a.SetFlag? || a.TriggerIn? || a.Finish? || a.Deliver?
    ensures Stranded(After(s, a))
  {
    if a.Receive? {
      assert (s.buffer + a.data)[0] == s.buffer[0];
    }
  }

  function Last(tr: seq<State>): State
    requires tr != []
  {
    tr[|tr| - 1]
  }

  lemma Extend(tr: seq<State>, a: Action) returns (tr': seq<State>)
    requires IsTrace(tr) && Enabled(Last(tr), a)
    ensures IsTrace(tr') && tr' == tr + [After(Last(tr), a)]
  {
    tr' := tr + [After(Last(tr), a)];
    forall i: nat ensures StepTo(tr', i) {
      assert StepTo(tr, i);
    }
  }

  /** One byte has arrived and its event was taken by the reader. */
  lemma OneByteDelivered(b: Byte) returns (tr: seq<State>)
    ensures IsTrace(tr)
    ensures Last(tr) == State([b], [], [b], false, None, Quiet, true, true, true, false, true, false, false)
  {
    tr := [INIT];
    tr := Extend(tr, Register(true));
    tr := Extend(tr, Receive([b]));
    tr := Extend(tr, SetFlag);
    tr := Extend(tr, TriggerIn);
    tr := Extend(tr, Deliver);
    assert [] + [b] == [b];
  }

  /** A read with no room is answered with EAGAIN: the reader waits, and nothing will wake it. */
  lemma RoomlessReadStrands(b: Byte) returns (tr: seq<State>)
    ensures IsTrace(tr) && Stranded(Last(tr)) && !Last(tr).unmasked && !Last(tr).fin
  {
    tr := OneByteDelivered(b);
    tr := Extend(tr, BeginRead([]));
    tr := Extend(tr, FinishRead);
  }

  /** Bytes that arrive while POLLIN is out of the mask leave no event behind when it is back. */
  lemma MaskGapStrands(b: Byte) returns (tr: seq<State>)
    ensures IsTrace(tr) && Stranded(Last(tr)) && !Last(tr).roomless && !Last(tr).fin
  {
    tr := [INIT];
    tr := Extend(tr, Register(true));
    tr := Extend(tr, Modify(false));
    tr := Extend(tr, Receive([b]));
    tr := Extend(tr, SetFlag);
    tr := Extend(tr, TriggerIn);
    tr := Extend(tr, Modify(true));
    assert [] + [b] == [b];
  }

  /** The same stream, or the read that was in flight has copied what it had room for. */
  predicate AtMostInFlight(s: State, s': State) {
    && s'.received == s.received
    && (|| (s'.reading == s.reading && s'.returned == s.returned && s'.buffer == s.buffer)
        || (&& s.reading.Some? && s'.reading.None?
            && s'.returned == s.returned + s.buffer[..InFlight(s)] && s'.buffer == s.buffer[InFlight(s)..]))
  }

  /** After FIN no read is begun, and the one in flight, if any, copies once. */
  lemma FinStopsReads(s: State, a: Action)
    requires s.fin && Enabled(s, a)
    ensures After(s, a).fin && AtMostInFlight(s, After(s, a))
    ensures After(s, a).reading != s.reading <==> a.FinishRead?
  {
    if a.FinishRead? {
      var s' := AfterRead(s);
      assert s'.fin && s'.reading.None? && s'.received == s.received;
    } else {
      FinKeepsBytes(s, a);
    }
  }

  lemma FinKeepsBytes(s: State, a: Action)
    requires s.fin && Enabled(s, a) && !a.FinishRead?
    ensures var s' := After(s, a);
            && s'.fin && s'.received == s.received && s'.reading == s.reading
            && s'.returned == s.returned && s'.buffer == s.buffer
  {
    match a
    case BeginRead(_) => assert After(s, a) == s.(draining := false);
    case _ =>
  }

  lemma InFlightOnce(s: State, s': State, s'': State)
    requires AtMostInFlight(s, s') && AtMostInFlight(s', s'')
    ensures AtMostInFlight(s, s'')
  {
    if s'.reading == s.reading {
      assert InFlight(s') == InFlight(s);
    }
  }

  lemma FinStep(tr: seq<State>, j: nat)
    requires IsTrace(tr) && 0 < j < |tr| && tr[j - 1].fin
    ensures tr[j].fin && AtMostInFlight(tr[j - 1], tr[j])
  {
    assert StepTo(tr, j);
    var a :| Enabled(tr[j - 1], a) && tr[j] == After(tr[j - 1], a);
    FinStopsReads(tr[j - 1], a);
  }

  /** In every run, from FIN on nothing arrives, and only the read in flight at that time can still
      add to what the reader has got. */
  lemma {:induction false} FinIsFinal(tr: seq<State>, i: nat, j: nat)
    requires IsTrace(tr) && i <= j < |tr| && tr[i].fin
    ensures tr[j].fin && AtMostInFlight(tr[i], tr[j])
    decreases j
  {
    if i < j {
      FinIsFinal(tr, i, j - 1);
      FinStep(tr, j);
      InFlightOnce(tr[i], tr[j - 1], tr[j]);
    }
  }

  /** So a stream is read whole, however long the reader goes on, exactly if its buffer was empty at
      FIN, or a read was in flight that had room for the buffer and has since copied it. */
  lemma ReadWholeIffDrained(tr: seq<State>, i: nat, j: nat)
    requires IsTrace(tr) && i <= j < |tr| && tr[i].fin
    ensures tr[j].returned == tr[j].received <==>
            || tr[i].buffer == []
            || (&& tr[i].reading.Some? && tr[j].reading.None?
                && |tr[i].buffer| <= Total(tr[i].reading.value))
  {
    FinIsFinal(tr, i, j);
    Conserved(tr, j);
    assert |tr[j].received| == |tr[j].returned| + |tr[j].buffer|;
    assert tr[j].buffer == [] ==> tr[j].returned == tr[j].received;
  }

  /** Both happen: a byte and FIN arrive while a read waits for the session mutex, and it returns
      that byte after FIN. */
  lemma ReadInFlightOutlivesFin(b: Byte) returns (tr: seq<State>, i: nat)
    ensures IsTrace(tr) && i < |tr| && tr[i].fin && tr[i].buffer == [b] && tr[i].returned == []
    ensures Last(tr).returned == [b] == Last(tr).received
  {
    tr := [INIT];
    tr := Extend(tr, BeginRead([1]));
    tr := Extend(tr, Receive([b]));
    tr := Extend(tr, SetFlag);
    tr := Extend(tr, TriggerIn);
    tr := Extend(tr, Finish);
    i := |tr| - 1;
    assert [] + [b] == [b] && Total([1]) == 1;
    tr := Extend(tr, FinishRead);
  }

  /** FIN can find bytes that arrived before it and were announced but not yet read. */
  lemma FinDropsBytes(b: Byte) returns (tr: seq<State>)
    ensures IsTrace(tr) && Last(tr).fin && Last(tr).received == [b] && Last(tr).buffer == [b]
    ensures Last(tr).reading.None?
  {
    tr := OneByteDelivered(b);
    tr := Extend(tr, Finish);
  }

  /** After FIN an event for a reader without one can only come from registering anew. */
  lemma FinRaises(s: State, a: Action)
    requires s.fin && s.raise.Quiet? && !s.pollin && Enabled(s, a)
    ensures After(s, a).fin && After(s, a).raise.Quiet?
    ensures After(s, a).pollin <==> a.Register? && a.wants && s.readable
  {
    match a
    case FinishRead => assert AfterRead(s).pollin == s.pollin;
    case _ =>
  }

  /** In every run, a reader that is waiting without an event when FIN has come, and stays
      registered, is never told. */
  lemma {:induction false} FinIsNotTold(tr: seq<State>, i: nat, j: nat)
    requires IsTrace(tr) && i <= j < |tr| && tr[i].fin && tr[i].raise.Quiet? && !tr[i].pollin
    requires forall k :: i <= k <= j ==> tr[k].registered
    ensures tr[j].fin && tr[j].raise.Quiet? && !tr[j].pollin && !Enabled(tr[j], Deliver)
    decreases j
  {
    if i < j {
      FinIsNotTold(tr, i, j - 1);
      assert StepTo(tr, j);
      var a :| Enabled(tr[j - 1], a) && tr[j] == After(tr[j - 1], a);
      FinRaises(tr[j - 1], a);
    }
  }
}
