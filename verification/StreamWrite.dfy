/**
 Connection::Stream::Write and WriteBufferedData of simple/connection.cpp: bytes the transport
 does not take are queued and flushed later, in order, and the end of the stream after them.

 QuicWrite is an object of its own: an oracle says how many bytes of an offer it takes, or that it
 fails, and it keeps what it took.  It never takes none (src/stream_entry.cpp:33-40), so a write of
 no bytes fails.
*/
module StreamWrite {
  import opened Basics

  predicate Taken(res: int, length: nat) {
    res == -1 || 0 < res <= length
  }

  /** The answer of call number k to an offer of some bytes. */
  type Oracle = (nat, nat) -> int

  ghost predicate Transport(f: Oracle) {
    forall k, n :: Taken(f(k, n), n)
  }

  ghost predicate TakesAll(f: Oracle) {
    forall k, n :: n > 0 ==> f(k, n) == n
  }

  /** QuicWrite and QuicStreamShutdown of one stream: what has arrived there, in order. */
  class Quic {
    var answers: Oracle
    var calls: nat
    ghost var got: Bytes
    ghost var shutdowns: nat

    constructor (answers: Oracle)
      ensures this.answers == answers && calls == 0 && got == [] && shutdowns == 0
    {
      this.answers, calls, got, shutdowns := answers, 0, [], 0;
    }

    method Write(data: Bytes) returns (res: int)
      requires Transport(answers)
      modifies `calls, `got
      ensures res == answers(old(calls), |data|) && Taken(res, |data|) && calls == old(calls) + 1
      ensures got == old(got) + data[..if res < 0 then 0 else res]
    {
      res := answers(calls, |data|);
      assert Taken(res, |data|);
      calls := calls + 1;
      got := got + data[..if res < 0 then 0 else res];
    }

    method Shutdown()
      modifies `shutdowns
      ensures shutdowns == old(shutdowns) + 1
    {
      shutdowns := shutdowns + 1;
    }
  }

  /** What is left of a write, as a queue of its own. */
  function Queued(rest: Bytes): seq<Bytes> {
    if rest == [] then [] else [rest]
  }

  /** What is left of a queue that is offered slice by slice, from call number k on. */
  function Left(f: Oracle, k: nat, slices: seq<Bytes>): seq<Bytes>
    decreases |slices|
  {
    if slices == [] then []
    else
      var res := f(k, |slices[0]|);
      if res < 0 then slices
      else if res >= |slices[0]| then Left(f, k + 1, slices[1..])
      else [slices[0][res..]] + slices[1..]
  }

  /** The transport takes `n` slices whole, none of them empty, and of the next one, if there is one,
      `cut` bytes, or fails if that is 0. */
  ghost predicate TakesUpTo(f: Oracle, k: nat, slices: seq<Bytes>, n: nat, cut: nat) {
    && n <= |slices|
    && (forall i :: 0 <= i < n ==> slices[i] != [] && f(k + i, |slices[i]|) == |slices[i]|)
    && (n < |slices| ==> cut <= |slices[n]| && f(k + n, |slices[n]|) == if cut == 0 then -1 else cut)
    && (n < |slices| && cut > 0 ==> cut < |slices[n]|)
  }

  function Without(slices: seq<Bytes>, n: nat, cut: nat): seq<Bytes> {
    if n < |slices| && cut <= |slices[n]| then [slices[n][cut..]] + slices[n + 1..] else []
  }

  lemma TakesOneMore(f: Oracle, k: nat, slices: seq<Bytes>, n: nat, cut: nat)
    requires slices != [] && slices[0] != [] && f(k, |slices[0]|) == |slices[0]|
    requires TakesUpTo(f, k + 1, slices[1..], n, cut)
    ensures TakesUpTo(f, k, slices, n + 1, cut) && Without(slices, n + 1, cut) == Without(slices[1..], n, cut)
  {
    forall i | 0 <= i < n + 1 ensures slices[i] != [] && f(k + i, |slices[i]|) == |slices[i]| {
      if i > 0 { assert slices[i] == slices[1..][i - 1] && k + i == k + 1 + (i - 1); }
    }
    assert n < |slices[1..]| ==> slices[n + 1] == slices[1..][n] && k + (n + 1) == k + 1 + n;
    assert n < |slices[1..]| ==> slices[n + 2..] == slices[1..][n + 1..];
  }

  /** Only the front of the queue goes: whole slices, and at most one slice in part. */
  lemma {:induction false} LeftIsTheEnd(f: Oracle, k: nat, slices: seq<Bytes>) returns (n: nat, cut: nat)
    requires Transport(f)
    ensures TakesUpTo(f, k, slices, n, cut) && Left(f, k, slices) == Without(slices, n, cut)
    decreases |slices|
  {
    n, cut := 0, 0;
    if slices != [] {
      var res := f(k, |slices[0]|);
      assert Taken(res, |slices[0]|);
      if res < 0 {
        assert slices == [slices[0][0..]] + slices[1..];
      } else if res >= |slices[0]| {
        n, cut := LeftIsTheEnd(f, k + 1, slices[1..]);
        TakesOneMore(f, k, slices, n, cut);
        n := n + 1;
      } else {
        cut := res;
      }
    }
  }

  /** How many slices stand before the first empty one. */
  function Leading(slices: seq<Bytes>): (k: nat)
    ensures k <= |slices| && NoneEmpty(slices[..k]) && (k < |slices| ==> slices[k] == [])
  {
    if slices == [] || slices[0] == [] then 0 else 1 + Leading(slices[1..])
  }

  lemma {:induction false} LeadingIs(slices: seq<Bytes>, k: nat)
    requires k <= |slices| && NoneEmpty(slices[..k]) && (k < |slices| ==> slices[k] == [])
    ensures Leading(slices) == k
    ensures k == |slices| <==> NoneEmpty(slices)
  {
    if k > 0 {
      assert slices[..k][0] == slices[0];
      assert slices[1..][..k - 1] == slices[..k][1..];
      LeadingIs(slices[1..], k - 1);
    }
  }

  predicate NoneEmpty(slices: seq<Bytes>) {
    forall i :: 0 <= i < |slices| ==> slices[i] != []
  }

  lemma LeftOfNoneEmpty(f: Oracle, k: nat, slices: seq<Bytes>)
    requires Transport(f) && NoneEmpty(slices)
    ensures NoneEmpty(Left(f, k, slices))
  {
    var n, cut := LeftIsTheEnd(f, k, slices);
  }

  /** A transport that takes whatever it is offered empties the queue up to its first empty slice. */
  lemma LeftIfAllTaken(f: Oracle, k: nat, slices: seq<Bytes>)
    requires Transport(f) && TakesAll(f)
    ensures Left(f, k, slices) == slices[Leading(slices)..]
    ensures Left(f, k, slices) == [] <==> NoneEmpty(slices)
  {
    var n, cut := LeftIsTheEnd(f, k, slices);
    assert n < |slices| ==> |slices[n]| == 0;
    LeadingIs(slices, n);
    assert n < |slices| ==> slices[n..] == [slices[n][0..]] + slices[n + 1..];
  }

  class Stream {
    const quic: Quic
    var bufferedFin: bool
    var writeFin: bool
    var buffers: seq<Bytes>
    /** All bytes accepted by Write. */
    ghost var accepted: Bytes

    /** What the transport has got, followed by the queue, is what Write accepted; the end of the
        stream is sent once, after everything else. */
    ghost predicate Valid()
      reads this, quic
    {
      && Transport(quic.answers)
      && quic.got + Flatten(buffers) == accepted
      && quic.shutdowns == (if writeFin then 1 else 0)
      && (writeFin ==> bufferedFin && buffers == [])
    }

    constructor (quic: Quic)
      requires Transport(quic.answers) && quic.got == [] && quic.shutdowns == 0
      ensures Valid() && this.quic == quic && accepted == [] && buffers == [] && !bufferedFin && !writeFin
    {
      this.quic := quic;
      bufferedFin, writeFin, buffers, accepted := false, false, [], [];
    }

    method Write(data: Bytes, fin: bool) returns (ok: bool)
      requires Valid()
      modifies this, quic`calls, quic`got
      ensures Valid() && ok == !old(bufferedFin) && writeFin == old(writeFin)
      ensures ok ==> accepted == old(accepted) + data && bufferedFin == fin
      ensures !ok ==> accepted == old(accepted) && bufferedFin
      ensures !ok || old(buffers) != [] ==> quic.calls == old(quic.calls) && quic.got == old(quic.got)
      ensures !ok ==> buffers == old(buffers)
      ensures ok && old(buffers) != [] ==> buffers == old(buffers) + [data]
      ensures ok && old(buffers) == [] ==>
                var res := quic.answers(old(quic.calls), |data|);
                && quic.calls == old(quic.calls) + 1
                && buffers == if res < 0 then Queued(data) else Queued(data[res..])
      ensures data != [] && NoneEmpty(old(buffers)) ==> NoneEmpty(buffers)
    {
      if bufferedFin { return false; }
      if fin { bufferedFin := true; }
      accepted := accepted + data;
      if buffers != [] {
        FlattenSnoc(buffers, data);
        buffers := buffers + [data];
        return true;
      }
      var res := quic.Write(data);
      var n := if res < 0 then 0 else res;
      assert data[..n] + data[n..] == data && (res < 0 ==> data[n..] == data);
      if n < |data| {
        buffers := [data[n..]];
        FlattenOne(data[n..]);
      }
      ok := true;
    }

    method WriteBufferedData()
      requires Valid()
      modifies this, quic`calls, quic`got, quic`shutdowns
      ensures Valid() && accepted == old(accepted) && bufferedFin == old(bufferedFin)
      ensures buffers == Left(quic.answers, old(quic.calls), old(buffers))
      ensures writeFin == (old(writeFin) || (buffers == [] && bufferedFin))
    {
      Flush();
      if buffers == [] && bufferedFin && !writeFin {
        writeFin := true;
        quic.Shutdown();
      }
    }

    /** The loop of WriteBufferedData */
    method Flush()
      requires Valid()
      modifies this`buffers, quic`calls, quic`got
      ensures Valid() && buffers == Left(quic.answers, old(quic.calls), old(buffers))
    {
      while buffers != []
        invariant Valid()
        invariant Left(quic.answers, quic.calls, buffers) == Left(quic.answers, old(quic.calls), old(buffers))
        decreases |buffers|
      {
        ghost var got := quic.got;
        var res := quic.Write(buffers[0]);
        if res < 0 {
          assert got + [] == got;
          return;
        }
        PartHanded(got, buffers, res);
        if res >= |buffers[0]| {
          buffers := buffers[1..];
        } else {
          buffers := [buffers[0][res..]] + buffers[1..];
          return;
        }
      }
    }
  }

  /** The bytes taken go from the queue to the transport. */
  lemma PartHanded(got: Bytes, slices: seq<Bytes>, n: nat)
    requires slices != [] && n <= |slices[0]|
    ensures got + slices[0][..n] + Flatten([slices[0][n..]] + slices[1..]) == got + Flatten(slices)
    ensures n == |slices[0]| ==> got + slices[0][..n] + Flatten(slices[1..]) == got + Flatten(slices)
  {
    var head, rest := slices[0], slices[1..];
    assert ([head[n..]] + rest)[1..] == rest;
    assert head == head[..n] + head[n..];
    assert got + head[..n] + (head[n..] + Flatten(rest)) == got + (head + Flatten(rest));
  }

  /** Flushing with a transport that takes all sends the end of the stream exactly if the queue has
      no empty slice. */
  method FlushesToTheEnd(s: Stream) returns (finSent: bool)
    requires s.Valid() && TakesAll(s.quic.answers) && s.bufferedFin && !s.writeFin
    modifies s, s.quic`calls, s.quic`got, s.quic`shutdowns
    ensures s.Valid() && (finSent <==> NoneEmpty(old(s.buffers)))
    ensures finSent ==> s.quic.got == s.accepted && s.quic.shutdowns == 1
  {
    LeftIfAllTaken(s.quic.answers, s.quic.calls, s.buffers);
    s.WriteBufferedData();
    finSent := s.writeFin;
    assert finSent ==> s.quic.got + [] == s.accepted;
  }

  /** An empty last write queued behind other bytes is never popped, whatever the transport does:
      all bytes are handed over, and the end of the stream is not. */
  method EmptySliceBlocksFin(first: Oracle, later: Oracle) returns (queued: seq<Bytes>, finSent: bool)
    requires Transport(first) && TakesAll(first) && Transport(later)
    ensures queued == [[]] && !finSent
  {
    var quic := new Quic((k, n) => -1);
    var s := new Stream(quic);
    var ok := s.Write([1], false);
    ok := s.Write([], true);
    assert s.buffers == [[1], []];
    quic.answers := first;
    LeftIfAllTaken(first, quic.calls, s.buffers);
    LeadingIs(s.buffers, 1);
    s.WriteBufferedData();
    quic.answers := later;
    assert Taken(later(quic.calls, 0), 0);
    s.WriteBufferedData();
    queued, finSent := s.buffers, s.writeFin;
  }
}
