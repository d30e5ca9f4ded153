/**
 How a thread inside QuicEpollerEntry::Wait is woken (src/epoller_entry.cpp, src/event.cpp).

 One thread calls Wait; any number of other threads trigger events, change registrations or
 run the heartbeat of the constructor.  They interleave at every atomic access to `revents`,
 to the flag `notifyProtect_` and to the socket pair's edge-triggered readiness, which
 EPOLL_CTL_MOD arms and epoll_wait consumes.  The mutex `mtx_` is a lock like any other.
 Events that the waiting thread itself triggers from RunOnce or from packet processing are
 steps of another thread here, which only adds interleavings.
*/
module EpollWakeup {
  type Fd = nat
  type ThreadId = nat

  datatype Ev = In | Out | Err

  datatype Holder = Nobody | Waiter | Other(t: ThreadId)

  /** One quic_epoll_event.  `silent` are the bits of `revents` that StartWait set when the
      fd was added and that no Trigger or Mod has set since. */
  datatype Reg = Reg(events: set<Ev>, revents: set<Ev>, silent: set<Ev>)

  /** Where the thread that calls Wait stands. */
  datatype WaitPc =
    | Away
    | ToPoll(first: bool, max: int)
    | Polling(first: bool, max: int, todo: set<Fd>, found: nat)
    | RunningTasks(max: int)
    | InEpollWait(max: int)
    | Woken(max: int)
    | Receiving(max: int)

  /** Where another thread stands. */
  datatype Pc =
    | Idle
    | Setting(fd: Fd, ev: Ev)
    | ModLocked(fd: Fd, events: set<Ev>)
    | ModWritten(fd: Fd, events: set<Ev>)
    | ToNotify
    | WonFlag

  /** `out` lists what Poll has handed to the caller, oldest first. */
  datatype State = State(
    regs: map<Fd, Reg>,
    flag: bool,
    armed: bool,
    mtx: Holder,
    waiter: WaitPc,
    threads: map<ThreadId, Pc>,
    out: seq<(Fd, set<Ev>)>)

  /** EPOLL_CTL_ADD in the constructor leaves the socket pair ready. */
  const INIT := State(map[], false, true, Nobody, Away, map[], [])

  function PcOf(s: State, t: ThreadId): Pc {
    if t in s.threads then s.threads[t] else Idle
  }

  function SetPc(s: State, t: ThreadId, pc: Pc): State {
    s.(threads := s.threads[t := pc])
  }

  /** What Poll returns for an fd: the bits asked for, and POLLERR. */
  function Deliverable(r: Reg): set<Ev> {
    r.revents * (r.events + {Err})
  }

  /** The deliverable bits that a Trigger or a Mod has set. */
  function Owed(r: Reg): set<Ev> {
    Deliverable(r) - r.silent
  }

  /** What StartWait may set: readable and writable if asked for, and error. */
  predicate StartBits(events: set<Ev>, bits: set<Ev>) {
    bits <= events + {Err}
  }

  datatype Action =
    // the thread in Wait
    | Wait(max: int) | LockPoll | PollOne(fd: Fd) | PollEnd | EnterEpollWait
    | WakeByPair | WakeByUdp | TimeoutAgain | TimeoutLast | WaitFails | ClearFlag | Received
    // the others
    | BeginTrigger(t: ThreadId, fd: Fd, ev: Ev) | SetBit(t: ThreadId)
    | Notify(t: ThreadId) | Arm(t: ThreadId) | Heartbeat(t: ThreadId)
    | LockMod(t: ThreadId, fd: Fd, events: set<Ev>) | WriteEvents(t: ThreadId) | OrWritable(t: ThreadId)
    | AddFd(fd: Fd, events: set<Ev>, bits: set<Ev>) | DelFd(fd: Fd)

  predicate Enabled(s: State, a: Action) {
    var w := s.waiter;
    match a
    case Wait(_) => w.Away?
    case LockPoll => w.ToPoll? && s.mtx.Nobody?
    case PollOne(fd) => w.Polling? && w.found < w.max && fd in w.todo && fd in s.regs
    case PollEnd => w.Polling? && (w.found >= w.max || w.todo == {})
    case EnterEpollWait => w.RunningTasks?
    case WakeByPair => w.InEpollWait? && s.armed
    case WakeByUdp => w.InEpollWait?
    case TimeoutAgain => w.InEpollWait? && !s.armed
    case TimeoutLast => w.InEpollWait? && !s.armed
    case WaitFails => w.InEpollWait?
    case ClearFlag => w.Woken?
    case Received => w.Receiving?
    case BeginTrigger(t, fd, ev) =>
      PcOf(s, t).Idle? && fd in s.regs && (ev == Err || ev in s.regs[fd].events)
    case SetBit(t) => PcOf(s, t).Setting?
    case Notify(t) => PcOf(s, t).ToNotify?
    case Arm(t) => PcOf(s, t).WonFlag?
    case Heartbeat(t) => PcOf(s, t).Idle?
    case LockMod(t, fd, _) => PcOf(s, t).Idle? && s.mtx.Nobody? && fd in s.regs
    case WriteEvents(t) => PcOf(s, t).ModLocked?
    case OrWritable(t) => PcOf(s, t).ModWritten?
    case AddFd(_, events, bits) => s.mtx.Nobody? && StartBits(events, bits)
    case DelFd(_) => s.mtx.Nobody?
  }

  /** Poll takes the deliverable bits out of `revents` in one fetch_and. */
  function Taken(s: State, fd: Fd): State
    requires fd in s.regs && s.waiter.Polling?
  {
    var r := s.regs[fd];
    var got := Deliverable(r);
    var w := s.waiter;
    s.(regs := s.regs[fd := r.(revents := r.revents - got, silent := r.silent - got)],
       waiter := w.(todo := w.todo - {fd}, found := if got == {} then w.found else w.found + 1),
       out := if got == {} then s.out else s.out + [(fd, got)])
  }

  function WithBit(s: State, fd: Fd, ev: Ev): State {
    if fd !in s.regs then s
    else
      var r := s.regs[fd];
      s.(regs := s.regs[fd := r.(revents := r.revents + {ev}, silent := r.silent - {ev})])
  }

  /** Leave Notify; a Mod gives its lock back on the way out. */
  function Leave(s: State, t: ThreadId): State {
    SetPc(s, t, Idle).(mtx := if s.mtx == Other(t) then Nobody else s.mtx)
  }

  function After(s: State, a: Action): State
    requires Enabled(s, a)
  {
    var w := s.waiter;
    match a
    case Wait(max) => s.(waiter := ToPoll(true, max))
    case LockPoll => s.(mtx := Waiter, waiter := Polling(w.first, w.max, s.regs.Keys, 0))
    case PollOne(fd) => Taken(s, fd)
    case PollEnd =>
      s.(mtx := Nobody, waiter := if w.first && w.found == 0 then RunningTasks(w.max) else Away)
    case EnterEpollWait => s.(waiter := InEpollWait(w.max))
    case WakeByPair => s.(armed := false, waiter := Woken(w.max))
    case WakeByUdp => s.(waiter := Woken(w.max))
    case TimeoutAgain => s.(waiter := RunningTasks(w.max))
    case TimeoutLast => s.(waiter := Woken(w.max))
    case WaitFails => s.(waiter := Away)
    case ClearFlag => s.(flag := false, waiter := Receiving(w.max))
    case Received => s.(waiter := ToPoll(false, w.max))
    case BeginTrigger(t, fd, ev) => SetPc(s, t, Setting(fd, ev))
    case SetBit(t) => SetPc(WithBit(s, PcOf(s, t).fd, PcOf(s, t).ev), t, ToNotify)
    case Notify(t) => if s.flag then Leave(s, t) else SetPc(s, t, WonFlag).(flag := true)
    case Arm(t) => Leave(s, t).(armed := true)
    case Heartbeat(t) => SetPc(s, t, ToNotify)
    case LockMod(t, fd, events) => SetPc(s, t, ModLocked(fd, events)).(mtx := Other(t))
    case WriteEvents(t) =>
      var pc := PcOf(s, t);
      SetPc(if pc.fd in s.regs then s.(regs := s.regs[pc.fd := s.regs[pc.fd].(events := pc.events)]) else s,
            t, ModWritten(pc.fd, pc.events))
    case OrWritable(t) =>
      var pc := PcOf(s, t);
      SetPc(if Out in pc.events then WithBit(s, pc.fd, Out) else s, t, ToNotify)
    case AddFd(fd, events, bits) => s.(regs := s.regs[fd := Reg(events, bits, bits)])
    case DelFd(fd) => s.(regs := s.regs - {fd})
  }

  // Runs

  ghost predicate Steps(s: State, s': State) {
    exists a {:trigger Enabled(s, a)} :: Enabled(s, a) && s' == After(s, a)
  }

  ghost predicate StepTo(tr: seq<State>, i: nat) {
    0 < i < |tr| ==> Steps(tr[i - 1], tr[i])
  }

  ghost predicate IsTrace(tr: seq<State>) {
    |tr| > 0 && tr[0] == INIT && forall i: nat :: StepTo(tr, i)
  }

  // The invariant

  /** The thread has set a bit or changed a mask and has yet to see to the socket pair. */
  predicate Pending(pc: Pc) {
    pc.ModWritten? || pc.ToNotify? || pc.WonFlag?
  }

  ghost predicate SomeonePending(s: State) {
    exists t: ThreadId :: Pending(PcOf(s, t))
  }

  ghost predicate SomeoneWon(s: State) {
    exists t: ThreadId :: PcOf(s, t).WonFlag?
  }

  /** The fds that Poll will not look at again before the waiter sleeps. */
  function PassedBy(s: State): set<Fd> {
    match s.waiter
    case Polling(first, max, todo, found) => if first && found == 0 && max > 0 then s.regs.Keys - todo else {}
    case RunningTasks(max) => if max > 0 then s.regs.Keys else {}
    case InEpollWait(max) => if max > 0 then s.regs.Keys else {}
    case _ => {}
  }

  ghost predicate Inv(s: State) {
    && (s.flag ==> s.armed || s.waiter.Woken? || SomeoneWon(s))
    && (forall fd :: fd in PassedBy(s) && Owed(s.regs[fd]) != {} ==> s.armed || SomeonePending(s))
    && LocksOk(s)
  }

  ghost predicate LocksOk(s: State) {
    && (s.waiter.Polling? <==> s.mtx == Waiter)
    && (s.waiter.Polling? ==> s.waiter.todo <= s.regs.Keys)
    && (forall t: ThreadId :: (PcOf(s, t).ModLocked? || PcOf(s, t).ModWritten?) ==> s.mtx == Other(t))
  }

  lemma FlagIsBacked(s: State, a: Action)
    requires Inv(s) && Enabled(s, a)
    ensures var s' := After(s, a); s'.flag ==> s'.armed || s'.waiter.Woken? || SomeoneWon(s')
  {
    var s' := After(s, a);
    if s'.flag && !s'.armed && !s'.waiter.Woken? {
      if a.Notify? && !s.flag {
        assert PcOf(s', a.t).WonFlag?;
      } else {
        var t: ThreadId :| PcOf(s, t).WonFlag?;
        assert PcOf(s', t).WonFlag?;
      }
    }
  }

  /** A pending thread stays pending until the socket pair is armed, unless the waiter is on
      its way to Poll anyway. */
  lemma PendingIsKept(s: State, a: Action)
    requires Inv(s) && Enabled(s, a) && (s.armed || SomeonePending(s))
    requires !s.waiter.Woken? && !a.WakeByPair?
    ensures After(s, a).armed || SomeonePending(After(s, a))
  {
    var s' := After(s, a);
    if !s'.armed {
      var t: ThreadId :| Pending(PcOf(s, t));
      if a == Notify(t) && s.flag {
        var u: ThreadId :| PcOf(s, u).WonFlag?;
        assert Pending(PcOf(s', u));
      } else {
        assert Pending(PcOf(s', t));
      }
    }
  }

  lemma OwedIsCovered(s: State, a: Action, fd: Fd)
    requires Inv(s) && Enabled(s, a)
    requires var s' := After(s, a); fd in PassedBy(s') && Owed(s'.regs[fd]) != {}
    ensures After(s, a).armed || SomeonePending(After(s, a))
  {
    var s' := After(s, a);
    if fd in PassedBy(s) && Owed(s.regs[fd]) != {} {
      PendingIsKept(s, a);
    } else if a.SetBit? || a.OrWritable? || a.WriteEvents? {
      assert Pending(PcOf(s', a.t));
    }
  }

  lemma LocksAreKept(s: State, a: Action)
    requires Inv(s) && Enabled(s, a)
    ensures LocksOk(After(s, a))
  {
  }

  lemma AfterKeepsInv(s: State, a: Action)
    requires Inv(s) && Enabled(s, a)
    ensures Inv(After(s, a))
  {
    FlagIsBacked(s, a);
    LocksAreKept(s, a);
    var s' := After(s, a);
    forall fd | fd in PassedBy(s') && Owed(s'.regs[fd]) != {} ensures s'.armed || SomeonePending(s') {
      OwedIsCovered(s, a, fd);
    }
  }

  lemma {:induction false} TraceInv(tr: seq<State>, i: nat)
    requires IsTrace(tr) && i < |tr|
    ensures Inv(tr[i])
  {
    if i > 0 {
      TraceInv(tr, i - 1);
      assert StepTo(tr, i);
      var a :| Enabled(tr[i - 1], a) && tr[i] == After(tr[i - 1], a);
      AfterKeepsInv(tr[i - 1], a);
    }
  }

  // The guarantee

  /** The next thing a pending thread does; nothing can hold it up. */
  function NextOf(t: ThreadId, pc: Pc): Action
    requires Pending(pc)
  {
    match pc
    case ModWritten(_, _) => OrWritable(t)
    case ToNotify => Notify(t)
    case WonFlag => Arm(t)
  }

  /** No wake-up is lost: in every run, whenever the waiter sleeps in epoll_wait and some fd
      has a deliverable bit set by a Trigger or a Mod, epoll_wait can return at once, or a
      thread that can move is still on its way to arm the socket pair. */
  lemma NoLostWakeup(tr: seq<State>, i: nat, fd: Fd) returns (a: Action)
    requires IsTrace(tr) && i < |tr| && fd in tr[i].regs && Owed(tr[i].regs[fd]) != {}
    requires tr[i].waiter.InEpollWait? && tr[i].waiter.max > 0
    ensures Enabled(tr[i], a)
    ensures a.WakeByPair? || exists t: ThreadId :: Pending(PcOf(tr[i], t)) && a == NextOf(t, PcOf(tr[i], t))
  {
    TraceInv(tr, i);
    if tr[i].armed {
      a := WakeByPair;
    } else {
      var t: ThreadId :| Pending(PcOf(tr[i], t));
      a := NextOf(t, PcOf(tr[i], t));
    }
  }

  /** A bit leaves `revents` only by being handed to the caller, or with its registration. */
  lemma BitsLeaveThroughPoll(s: State, a: Action, fd: Fd, ev: Ev)
    requires Enabled(s, a) && fd in s.regs && ev in s.regs[fd].revents
    requires var s' := After(s, a); fd !in s'.regs || ev !in s'.regs[fd].revents
    ensures ((a.AddFd? || a.DelFd?) && a.fd == fd) || After(s, a).out == s.out + [(fd, Deliverable(s.regs[fd]))]
    ensures a.PollOne? ==> ev in Deliverable(s.regs[fd])
  {
  }

  // What a completed call leaves behind

  /** Registrations come with AddFd and go with DelFd of the same fd, and with nothing else. */
  lemma RegisteredExactly(s: State, a: Action, fd: Fd)
    requires Enabled(s, a)
    ensures fd in After(s, a).regs <==> a != DelFd(fd) && (fd in s.regs || (a.AddFd? && a.fd == fd))
  {
  }

  /** A mask changes only when its fd is added, or when a Mod of that fd writes it. */
  lemma MaskExactly(s: State, a: Action, fd: Fd)
    requires Enabled(s, a) && fd in After(s, a).regs
    ensures var mask := After(s, a).regs[fd].events;
            if a.AddFd? && a.fd == fd then mask == a.events
            else if a.WriteEvents? && PcOf(s, a.t).fd == fd then mask == PcOf(s, a.t).events
            else fd in s.regs && mask == s.regs[fd].events
  {
  }

  /** A bit that was not there is the one a trigger set, the POLLOUT of a Mod that asks for it, or one
      StartWait found; and these three do set it. */
  lemma BitsArriveExactly(s: State, a: Action, fd: Fd, ev: Ev)
    requires Enabled(s, a) && fd in After(s, a).regs && (fd in s.regs ==> ev !in s.regs[fd].revents)
    ensures ev in After(s, a).regs[fd].revents <==>
            || (a.SetBit? && PcOf(s, a.t) == Setting(fd, ev))
            || (a.OrWritable? && PcOf(s, a.t).fd == fd && ev == Out && Out in PcOf(s, a.t).events)
            || (a.AddFd? && a.fd == fd && ev in a.bits)
  {
  }

  /** Poll hands over everything deliverable of an fd at once, and leaves none of it. */
  lemma PollEmpties(s: State, fd: Fd)
    requires Enabled(s, PollOne(fd))
    ensures var s', got := After(s, PollOne(fd)), Deliverable(s.regs[fd]);
            && Deliverable(s'.regs[fd]) == {} && s'.regs[fd].revents == s.regs[fd].revents - got
            && s'.out == (if got == {} then s.out else s.out + [(fd, got)])
            && s'.waiter.found - s.waiter.found == |s'.out| - |s.out|
            && fd !in s'.waiter.todo
  {
  }

  /** Thread `t` is in a Mod of `fd` to `events`, and past its first step the mask is written. */
  predicate InMod(s: State, t: ThreadId, fd: Fd, events: set<Ev>) {
    var pc := PcOf(s, t);
    && s.mtx == Other(t) && fd in s.regs
    && (|| pc == ModLocked(fd, events)
        || ((pc == ModWritten(fd, events) || pc.ToNotify? || pc.WonFlag?) && s.regs[fd].events == events))
  }

  lemma ModStep(s: State, a: Action, t: ThreadId, fd: Fd, events: set<Ev>)
    requires Inv(s) && Enabled(s, a) && InMod(s, t, fd, events)
    ensures var s' := After(s, a);
            && fd in s'.regs && (s'.mtx == Other(t) ==> InMod(s', t, fd, events))
            && (s'.mtx != Other(t) ==> s'.regs[fd].events == events)
  {
  }

  /** In every run, from LockMod(t, fd, events) until the thread gives up the lock, and then still,
      the fd is registered; and when the lock is given up its mask is `events`. */
  lemma {:induction false} ModIsStored(tr: seq<State>, i: nat, j: nat, t: ThreadId, fd: Fd, events: set<Ev>)
    requires IsTrace(tr) && i < j < |tr| && Enabled(tr[i], LockMod(t, fd, events))
    requires tr[i + 1] == After(tr[i], LockMod(t, fd, events))
    requires forall k :: i < k < j ==> tr[k].mtx == Other(t)
    ensures fd in tr[j].regs
    ensures if tr[j].mtx == Other(t) then InMod(tr[j], t, fd, events) else tr[j].regs[fd].events == events
    decreases j
  {
    if i + 1 < j {
      ModIsStored(tr, i, j - 1, t, fd, events);
      TraceInv(tr, j - 1);
      assert StepTo(tr, j);
      var a :| Enabled(tr[j - 1], a) && tr[j] == After(tr[j - 1], a);
      ModStep(tr[j - 1], a, t, fd, events);
    }
  }

  /** One round of Poll: it has been at every fd that was registered, save those still to come. */
  ghost predicate PolledAt(tr: seq<State>, k: nat, fd: Fd) {
    k + 1 < |tr| && Enabled(tr[k], PollOne(fd)) && tr[k + 1] == After(tr[k], PollOne(fd))
  }

  lemma TodoShrinks(s: State, a: Action, fd: Fd)
    requires Enabled(s, a) && s.waiter.Polling? && After(s, a).waiter.Polling?
    requires fd in s.waiter.todo && fd !in After(s, a).waiter.todo
    ensures a == PollOne(fd)
  {
  }

  /** In every run, between LockPoll and any later time of the same Poll, each fd that was registered
      has been polled or is still to come; so with room left at the end all have been. */
  lemma {:induction false} PollsAll(tr: seq<State>, i: nat, j: nat, fd: Fd)
    requires IsTrace(tr) && i < j < |tr| && Enabled(tr[i], LockPoll) && tr[i + 1] == After(tr[i], LockPoll)
    requires forall k :: i < k <= j ==> tr[k].waiter.Polling?
    requires fd in tr[i].regs && fd !in tr[j].waiter.todo
    ensures exists k :: i < k < j && PolledAt(tr, k, fd)
    decreases j
  {
    if fd in tr[j - 1].waiter.todo {
      assert StepTo(tr, j);
      var a :| Enabled(tr[j - 1], a) && tr[j] == After(tr[j - 1], a);
      TodoShrinks(tr[j - 1], a, fd);
      assert PolledAt(tr, j - 1, fd);
    } else {
      PollsAll(tr, i, j - 1, fd);
    }
  }

  // How Wait goes on

  /** The stages of a call of Wait, in order. */
  function Stage(w: WaitPc): nat {
    match w
    case Away => 0
    case ToPoll(first, _) => if first then 1 else 7
    case Polling(first, _, _, _) => if first then 2 else 8
    case RunningTasks(_) => 3
    case InEpollWait(_) => 4
    case Woken(_) => 5
    case Receiving(_) => 6
  }

  predicate OfWaiter(a: Action) {
    || a.Wait? || a.LockPoll? || a.PollOne? || a.PollEnd? || a.EnterEpollWait? || a.WakeByPair? || a.WakeByUdp?
    || a.TimeoutAgain? || a.TimeoutLast? || a.WaitFails? || a.ClearFlag? || a.Received?
  }

  /** Where a step leads the waiter: one stage on; out of the first Poll that found something, out of
      the second Poll and out of an epoll_wait that failed to the caller; from a timeout with time
      left back to RunOnce.  Nobody else moves it, and maxevents stays what the caller gave. */
  lemma StagesInOrder(s: State, a: Action)
    requires Enabled(s, a)
    ensures var w, w' := s.waiter, After(s, a).waiter;
            && Stage(w') ==
               (if !OfWaiter(a) || a.PollOne? then Stage(w)
                else if a.WaitFails? then 0
                else if a.TimeoutAgain? then 3
                else if a.PollEnd? && (Stage(w) == 8 || w.found > 0) then 0
                else Stage(w) + 1)
            && (Stage(w) > 0 && Stage(w') > 0 ==> w'.max == w.max)
            && (a.Wait? ==> w'.max == a.max)
  {
  }

  /** Poll stops at maxevents. */
  predicate WithinRoom(s: State) {
    s.waiter.Polling? ==> s.waiter.found == 0 || s.waiter.found <= s.waiter.max
  }

  /** In every run, a Poll hands over no more events than the caller has room for. */
  lemma {:induction false} RoomIsKept(tr: seq<State>, i: nat)
    requires IsTrace(tr) && i < |tr|
    ensures WithinRoom(tr[i])
  {
    if i > 0 {
      RoomIsKept(tr, i - 1);
      assert StepTo(tr, i);
      var a :| Enabled(tr[i - 1], a) && tr[i] == After(tr[i - 1], a);
      RoomStep(tr[i - 1], a);
    }
  }

  lemma RoomStep(s: State, a: Action)
    requires WithinRoom(s) && Enabled(s, a)
    ensures WithinRoom(After(s, a))
  {
  }

  /** An idle thread can trigger exactly the events asked for, and an error always. */
  lemma TriggersExactly(s: State, t: ThreadId, fd: Fd, ev: Ev)
    requires PcOf(s, t).Idle? && fd in s.regs
    ensures Enabled(s, BeginTrigger(t, fd, ev)) <==> ev in s.regs[fd].events + {Err}
  {
  }

  /** A raised flag spares the socket pair: whoever finds it raised is done, the other arms. */
  lemma FlagSparesThePair(s: State, t: ThreadId)
    requires Enabled(s, Notify(t))
    ensures var s' := After(s, Notify(t));
            && s'.armed == s.armed && s'.flag
            && (if s.flag then PcOf(s', t).Idle? else Enabled(s', Arm(t)) && After(s', Arm(t)).armed)
  {
  }

  /** epoll_wait reports an armed pair and does not time out over it. */
  lemma ArmedPairIsReported(s: State)
    requires s.waiter.InEpollWait?
    ensures Enabled(s, WakeByPair) <==> s.armed
    ensures Enabled(s, TimeoutAgain) || Enabled(s, TimeoutLast) <==> !s.armed
  {
  }

  // Where the guarantee stops

  function Last(tr: seq<State>): State
    requires |tr| > 0
  {
    tr[|tr| - 1]
  }

  lemma Extend(tr: seq<State>, a: Action) returns (tr': seq<State>)
    requires IsTrace(tr) && Enabled(Last(tr), a)
    ensures tr' == tr + [After(Last(tr), a)] && IsTrace(tr')
  {
    tr' := tr + [After(Last(tr), a)];
    forall i: nat ensures StepTo(tr', i) {
      assert StepTo(tr, i);
      assert i == |tr| ==> Steps(tr'[i - 1], tr'[i]);
    }
  }

  /** Wait that finds nothing, up to epoll_wait. */
  lemma FallsAsleep(tr: seq<State>, max: int) returns (tr': seq<State>)
    requires IsTrace(tr) && Last(tr).waiter.Away? && Last(tr).mtx.Nobody?
    requires Last(tr).regs == map[] || max <= 0
    ensures IsTrace(tr') && Last(tr') == Last(tr).(waiter := InEpollWait(max))
  {
    tr' := Extend(tr, Wait(max));
    tr' := Extend(tr', LockPoll);
    tr' := Extend(tr', PollEnd);
    tr' := Extend(tr', EnterEpollWait);
  }

  /** It wakes up once, returns nothing, and comes back to sleep with the pair not armed. */
  lemma SleepsAgain(tr: seq<State>, max: int) returns (tr': seq<State>)
    requires IsTrace(tr) && Last(tr).waiter.Away? && Last(tr).mtx.Nobody? && Last(tr).armed
    requires Last(tr).regs == map[] || max <= 0
    ensures IsTrace(tr') && Last(tr') == Last(tr).(armed := false, flag := false, waiter := InEpollWait(max))
  {
    tr' := FallsAsleep(tr, max);
    tr' := Extend(tr', WakeByPair);
    tr' := Extend(tr', ClearFlag);
    tr' := Extend(tr', Received);
    tr' := Extend(tr', LockPoll);
    tr' := Extend(tr', PollEnd);
    tr' := FallsAsleep(tr', max);
  }

  /** The waiter sleeps over a deliverable bit, and nothing is under way to wake it. */
  ghost predicate Overslept(s: State, fd: Fd) {
    && s.waiter.InEpollWait? && fd in s.regs && Deliverable(s.regs[fd]) != {}
    && !s.armed && !SomeonePending(s)
  }

  /** For Poll that has room, only bits that StartWait set can be slept over, in any run. */
  lemma OnlySilentOversleeps(tr: seq<State>, i: nat, fd: Fd)
    requires IsTrace(tr) && i < |tr| && Overslept(tr[i], fd) && tr[i].waiter.max > 0
    ensures Deliverable(tr[i].regs[fd]) <= tr[i].regs[fd].silent
  {
    TraceInv(tr, i);
    var r := tr[i].regs[fd];
    assert Owed(r) == {};
    forall ev | ev in Deliverable(r) ensures ev in r.silent { assert ev !in Owed(r); }
  }

  /** And they are, whatever else is registered: an Add during epoll_wait, with nobody on the way
      to wake the waiter, is slept over exactly if the socket was ready when it was added. */
  lemma AddOversleepsExactly(s: State, fd: Fd, events: set<Ev>, bits: set<Ev>)
    requires Enabled(s, AddFd(fd, events, bits))
    requires s.waiter.InEpollWait? && !s.armed && !SomeonePending(s)
    ensures Overslept(After(s, AddFd(fd, events, bits)), fd) <==> bits != {}
  {
    var s' := After(s, AddFd(fd, events, bits));
    assert Deliverable(s'.regs[fd]) == bits;
    assert forall t: ThreadId :: PcOf(s', t) == PcOf(s, t);
  }

  /** Add does not notify: a socket that is readable when it is added during epoll_wait is
      not reported until something else wakes the waiter. */
  lemma AddIsSilent() returns (tr: seq<State>)
    ensures IsTrace(tr) && Overslept(Last(tr), 7) && Last(tr).waiter.max > 0
  {
    tr := [INIT];
    assert forall i: nat :: StepTo(tr, i);
    tr := SleepsAgain(tr, 1);
    tr := Extend(tr, AddFd(7, {In}, {In}));
    assert In in Deliverable(Last(tr).regs[7]);
  }

  /** A trigger that has set its bit. */
  lemma BitSet() returns (tr: seq<State>)
    ensures IsTrace(tr)
    ensures Last(tr) == State(map[7 := Reg({In}, {In}, {})], false, true, Nobody, Away, map[0 := ToNotify], [])
  {
    tr := [INIT];
    var none: set<Ev> := {};
    assert none + {In} == {In} && none - {In} == none;
    assert forall i: nat :: StepTo(tr, i);
    tr := Extend(tr, AddFd(7, {In}, none));
    tr := Extend(tr, BeginTrigger(0, 7, In));
    tr := Extend(tr, SetBit(0));
  }

  /** And is seen through to the socket pair. */
  lemma TriggeredOnce() returns (tr: seq<State>)
    ensures IsTrace(tr)
    ensures Last(tr) == State(map[7 := Reg({In}, {In}, {})], true, true, Nobody, Away, map[0 := Idle], [])
  {
    tr := BitSet();
    tr := Extend(tr, Notify(0));
    tr := Extend(tr, Arm(0));
  }

  /** With maxevents not positive, Poll looks at nothing, and a triggered bit is slept over. */
  lemma NoRoomOversleeps() returns (tr: seq<State>)
    ensures IsTrace(tr) && Overslept(Last(tr), 7) && Owed(Last(tr).regs[7]) != {}
  {
    tr := TriggeredOnce();
    tr := SleepsAgain(tr, 0);
    assert In in Owed(Last(tr).regs[7]);
  }
}
