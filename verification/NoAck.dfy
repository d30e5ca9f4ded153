/**
 The ack timeout of src/connection_visitor.cpp, with SetOpt and Close of src/socket_entry.cpp and
 the alarm of libquic/net/quic/core/quic_alarm.cc.  Times are microseconds from a nondecreasing
 clock; the readings are parameters.
*/
module NoAck {
  import opened Basics

  const SECOND: nat := 1_000_000
  lemma IntIsNoMore(n: nat)
    ensures Int(n) <= n
  {
  }

  /** Fresh packets sent and acks received, in order. */
  datatype Event = Sent(time: nat) | Acked(time: nat)
  type Log = seq<Event>

  /** Event i is a fresh send that no ack has followed. */
  predicate Unanswered(log: Log, i: int) {
    0 <= i < |log| && log[i].Sent? && forall j :: i < j < |log| ==> log[j].Sent?
  }

  /** The time of the last ack, 0 before the first. */
  function LastAck(log: Log): nat {
    if log == [] then 0 else if log[|log| - 1].Acked? then log[|log| - 1].time else LastAck(log[..|log| - 1])
  }

  /** lastSendTime_ is the earliest unanswered send that is later than the last ack, if any is. */
  ghost predicate Tracks(log: Log, lastSend: nat, lastAck: nat) {
    && lastAck == LastAck(log)
    && (lastSend > lastAck ==> exists i :: Unanswered(log, i) && log[i].time == lastSend)
    && (forall i {:trigger Unanswered(log, i)} :: Unanswered(log, i) && log[i].time > lastAck ==>
          lastAck < lastSend <= log[i].time)
  }

  /** A send is watched exactly if some unanswered send is later than the last ack. */
  lemma WatchedExactly(log: Log, lastSend: nat, lastAck: nat)
    requires Tracks(log, lastSend, lastAck)
    ensures lastSend > lastAck <==> exists i :: Unanswered(log, i) && log[i].time > LastAck(log)
  {
    if lastSend > lastAck {
      var i :| Unanswered(log, i) && log[i].time == lastSend;
    }
  }

  /** What the time is counted from: the watched send, or now if there is none. */
  function Since(lastSend: nat, lastAck: nat, now: nat): nat {
    if lastSend > lastAck then lastSend else now
  }

  function Deadline(lastSend: nat, lastAck: nat, now: nat, secs: int): int {
    Since(lastSend, lastAck, now) + SECOND * secs
  }

  /** The alarm is set, no later than that. */
  predicate Armed(alarm: Option<int>, lastSend: nat, lastAck: nat, clock: nat, secs: int) {
    alarm.Some? && alarm.value <= Deadline(lastSend, lastAck, clock, secs)
  }

  /** QuicAlarm::Update takes time zero for no deadline. */
  function Updated(deadline: int): Option<int> { if deadline == 0 then None else Some(deadline) }

  /** The alarm SetNoAckAlarm leaves, which casts the limit to int. */
  function NextAlarm(alarm: Option<int>, lastSend: nat, lastAck: nat, now: nat, limit: int): Option<int> {
    if Int(limit) == 0 then alarm else Updated(Deadline(lastSend, lastAck, now, Int(limit)))
  }

  /** The alarm is set exactly if the cast limit is not zero and does not take the deadline to time
      zero, or is zero and the alarm was set before; then it is no later than the limit asks for. */
  lemma ArmedExactly(alarm: Option<int>, lastSend: nat, lastAck: nat, now: nat, limit: nat)
    ensures var next := NextAlarm(alarm, lastSend, lastAck, now, limit);
            && (next.Some? <==> if Int(limit) == 0 then alarm.Some?
                                else Deadline(lastSend, lastAck, now, Int(limit)) != 0)
            && (Int(limit) != 0 && next.Some? ==> Armed(next, lastSend, lastAck, now, limit))
  {
    IntIsNoMore(limit);
  }

  lemma LastAckOfSend(log: Log, t: nat)
    ensures LastAck(log + [Sent(t)]) == LastAck(log)
  {
    assert (log + [Sent(t)])[..|log|] == log;
  }

  lemma SendTracks(log: Log, lastSend: nat, lastAck: nat, now: nat)
    requires Tracks(log, lastSend, lastAck) && lastSend <= now && lastAck <= now
    ensures Tracks(log + [Sent(now)], if lastSend <= lastAck then now else lastSend, lastAck)
  {
    var log', send := log + [Sent(now)], if lastSend <= lastAck then now else lastSend;
    LastAckOfSend(log, now);
    assert Unanswered(log', |log|);
    if lastSend > lastAck {
      var i :| Unanswered(log, i) && log[i].time == lastSend;
      assert Unanswered(log', i);
    }
    forall i | Unanswered(log', i) && log'[i].time > lastAck ensures lastAck < send <= log'[i].time {
      if i < |log| { Shorter(log, Sent(now), i); }
    }
  }

  lemma Shorter(log: Log, e: Event, i: nat)
    requires Unanswered(log + [e], i) && i < |log|
    ensures Unanswered(log, i)
  {
    var log' := log + [e];
    forall j | i < j < |log| ensures log[j].Sent? { assert log'[j] == log[j]; }
  }

  lemma AckTracks(log: Log, lastSend: nat, now: nat)
    requires lastSend <= now
    ensures Tracks(log + [Acked(now)], lastSend, now)
  {
    var log' := log + [Acked(now)];
    forall i ensures !Unanswered(log', i) {
      if i < |log'| { assert log'[|log|].Acked?; }
    }
  }

  class Visitor {
    var lastSend: nat
    var lastAck: nat
    var alarm: Option<int>
    var limit: int
    var closed: bool
    ghost var log: Log
    ghost var clock: nat
    /** What the last deadline was counted from: the watched send or the clock, when the limit was
        last changed or the alarm last fired. */
    ghost var since: nat

    ghost predicate Valid()
      reads this
    {
      && lastSend <= clock && lastAck <= clock && Tracks(log, lastSend, lastAck)
      && since <= Since(lastSend, lastAck, clock)
      && (Int(limit) != 0 && !closed ==> alarm == Updated(since + SECOND * Int(limit)))
    }

    constructor ()
      ensures Valid() && limit == 0 && !closed && log == [] && clock == 0 && alarm == None
    {
      lastSend, lastAck, alarm, limit, closed := 0, 0, None, 0, false;
      log, clock, since := [], 0, 0;
    }

    /** A packet that is no retransmission was sent. */
    method OnPacketSent(now: nat)
      requires Valid() && clock <= now
      modifies this
      ensures Valid() && log == old(log) + [Sent(now)] && clock == now && lastAck == old(lastAck)
      ensures lastSend == if old(lastSend <= lastAck) then now else old(lastSend)
      ensures limit == old(limit) && closed == old(closed) && alarm == old(alarm) && since == old(since)
    {
      SendTracks(log, lastSend, lastAck, now);
      ghost var log' := log + [Sent(now)];
      if lastSend <= lastAck { lastSend := now; }
      log, clock := log', now;
      assert Tracks(log, lastSend, lastAck);
    }

    method OnAckFrame(now: nat)
      requires Valid() && clock <= now
      modifies this
      ensures Valid() && log == old(log) + [Acked(now)] && clock == now && lastAck == now && lastSend == old(lastSend)
      ensures limit == old(limit) && closed == old(closed) && alarm == old(alarm) && since == old(since)
    {
      AckTracks(log, lastSend, now);
      lastAck := now;
      log, clock := log + [Acked(now)], now;
    }

    method SetNoAckAlarm(now: nat)
      modifies this`alarm, this`since
      ensures alarm == NextAlarm(old(alarm), lastSend, lastAck, now, limit)
      ensures since == if Int(limit) == 0 then old(since) else Since(lastSend, lastAck, now)
    {
      var secs := Int(limit);
      if secs == 0 { return; }
      var timeOfLast := if lastSend > lastAck then lastSend else now;
      var deadline := timeOfLast + SECOND * secs;
      alarm := if deadline == 0 then None else Some(deadline);
      since := timeOfLast;
    }

    method SetOpt(value: int, now: nat)
      requires Valid() && clock <= now
      modifies this
      ensures Valid() && limit == value && log == old(log) && clock == now && closed == old(closed)
      ensures lastSend == old(lastSend) && lastAck == old(lastAck)
      ensures alarm == if value == old(limit) then old(alarm) else NextAlarm(old(alarm), lastSend, lastAck, now, value)
      ensures since == if value == old(limit) || Int(value) == 0 then old(since) else Since(lastSend, lastAck, now)
    {
      clock := now;
      if limit == value { return; }
      limit := value;
      SetNoAckAlarm(now);
    }

    /** The alarm fires and CheckForNoAckTimeout runs.  The connection is closed only for a fresh
        send that no ack has followed and that is longer ago than the limit. */
    method Fire(now: nat) returns (timedOut: bool)
      requires Valid() && clock <= now && alarm.Some? && !closed
      modifies this
      ensures Valid() && log == old(log) && limit == old(limit) && closed == timedOut
      ensures timedOut ==> limit != 0 && exists i :: Unanswered(log, i) && now - log[i].time > SECOND * limit
      ensures timedOut == (limit != 0 && old(lastSend > lastAck) && now - old(lastSend) > SECOND * limit)
      ensures lastSend == old(lastSend) && lastAck == old(lastAck)
      ensures alarm == if timedOut || limit == 0 then None else NextAlarm(None, lastSend, lastAck, now, limit)
      ensures since == if timedOut || Int(limit) == 0 then old(since) else Since(lastSend, lastAck, now)
    {
      clock := now;
      alarm := None;
      timedOut := false;
      if limit == 0 { return; }
      if lastSend > lastAck {
        if now - lastSend > SECOND * limit {
          closed, timedOut := true, true;
          return;
        }
      }
      SetNoAckAlarm(now);
    }

    /** A send or an ack, whichever comes. */
    method OnEvent(e: Event)
      requires Valid() && clock <= e.time
      modifies this
      ensures Valid() && log == old(log) + [e] && clock == e.time
      ensures limit == old(limit) && closed == old(closed) && alarm == old(alarm)
    {
      if e.Sent? { OnPacketSent(e.time); } else { OnAckFrame(e.time); }
    }

    /** QuicSocketEntry::Close */
    method Close()
      requires Valid()
      modifies this
      ensures Valid() && closed && alarm == None && log == old(log)
    {
      closed, alarm := true, None;
    }
  }

  /** Until Close, while the limit is not zero as an int and does not take the last deadline to time
      zero, a fresh send later than the last ack that is unanswered has the alarm set no later than
      that send plus the limit. */
  lemma Timely(v: Visitor, i: nat)
    requires v.Valid() && Int(v.limit) != 0 && v.since + SECOND * Int(v.limit) != 0 && !v.closed
    requires Unanswered(v.log, i) && v.log[i].time > LastAck(v.log)
    ensures v.alarm.Some? && v.alarm.value <= v.log[i].time + SECOND * Int(v.limit)
    ensures v.limit > 0 ==> v.alarm.value <= v.log[i].time + SECOND * v.limit
  {
    if v.limit > 0 { IntIsNoMore(v.limit); }
  }

  /** In every state the alarm is off exactly if the last deadline came to time zero: the limit is
      then so many seconds below zero as an int as what it was counted from is above zero. */
  lemma UnarmedExactly(v: Visitor)
    requires v.Valid() && Int(v.limit) != 0 && !v.closed
    ensures v.alarm == None <==> v.since == SECOND * -Int(v.limit)
    ensures v.alarm == None ==> v.limit < 0 || v.limit >= 0x8000_0000
  {
  }

  /** The check and the alarm agree: an unanswered send later than the last ack times out as soon
      as the alarm fires past the limit. */
  lemma WatchedTimesOut(v: Visitor, i: nat, now: nat)
    requires v.Valid() && Unanswered(v.log, i) && v.log[i].time > LastAck(v.log)
    requires now - v.log[i].time > SECOND * v.limit
    ensures v.lastSend > v.lastAck && now - v.lastSend > SECOND * v.limit
  {
  }

  predicate InOrder(clock: nat, events: Log) {
    && (forall i :: 0 <= i < |events| ==> clock <= events[i].time)
    && (forall i, j :: 0 <= i < j < |events| ==> events[i].time <= events[j].time)
  }

  /** Sends and acks never set the alarm: without one, nothing but a new limit brings it back. */
  method StaysUnarmed(v: Visitor, events: Log)
    requires v.Valid() && v.alarm == None && InOrder(v.clock, events)
    modifies v
    ensures v.Valid() && v.alarm == None && v.log == old(v.log) + events
    ensures v.limit == old(v.limit) && v.closed == old(v.closed)
  {
    for i := 0 to |events|
      invariant v.Valid() && v.alarm == None && v.log == old(v.log) + events[..i]
      invariant v.limit == old(v.limit) && v.closed == old(v.closed)
      invariant v.clock == if i == 0 then old(v.clock) else events[i - 1].time
    {
      v.OnEvent(events[i]);
      assert events[..i + 1] == events[..i] + [events[i]];
    }
    assert events[..|events|] == events;
  }

  /** A limit that is 0 as an int, such as 2^32 seconds: whatever is sent and acknowledged, the
      alarm is never set, though the check would count it as a limit. */
  method TruncatedLimitIsNeverArmed(limit: int, events: Log) returns (alarm: Option<int>, ghost log: Log)
    requires limit != 0 && Int(limit) == 0 && InOrder(0, events)
    ensures alarm == None && log == events
  {
    var v := new Visitor();
    v.SetOpt(limit, 0);
    StaysUnarmed(v, events);
    alarm, log := v.alarm, v.log;
  }

  /** A limit of 2^32 - 1 seconds is -1 as an int: one second after time zero it takes the deadline
      of a watched send to zero, and the alarm is cancelled for good. */
  method ZeroDeadlineIsNeverArmed(events: Log) returns (alarm: Option<int>, ghost log: Log)
    requires InOrder(SECOND, events)
    ensures alarm == None && log == [Sent(SECOND)] + events
  {
    var v := new Visitor();
    v.OnPacketSent(SECOND);
    v.SetOpt(TWO32 - 1, SECOND);
    StaysUnarmed(v, events);
    alarm, log := v.alarm, v.log;
  }

  /** A send in the same microsecond as the last ack is not watched: it can stay unanswered far
      beyond the limit. */
  method SameTickIsNotWatched() returns (timedOut: bool, now: nat, ghost log: Log)
    ensures !timedOut && log == [Acked(5), Sent(5)] && now - 5 > SECOND * 1
  {
    var v := new Visitor();
    v.SetOpt(1, 0);
    v.OnAckFrame(5);
    v.OnPacketSent(5);
    now := 10 * SECOND;
    assert v.alarm.Some?;
    timedOut := v.Fire(now);
    log := v.log;
  }
}
