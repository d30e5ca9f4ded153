/**
 Registrations and UDP reference counts of src/epoller_entry.cpp: AddInner, DelInner and the
 close path of src/event.cpp that reaches Del.

 Entries are numbered; an entry whose descriptor is -1 has been deleted.
*/
module EpollRefs {
  import opened Basics

  /** A socket or stream: its descriptor, its UDP socket, whether it is the server's side of a
      connection, whether its timers are linked to a runner, whether it was closed for waiting, and
      whether this epoller waits on it. */
  datatype Entry = Entry(fd: int, udp: Option<nat>, socket: bool, server: bool,
                         linked: bool, closing: bool, waiting: bool)

  /** A server's socket deletes itself when its session reports the close that Close has begun:
      Close takes it out of the connected state first. */
  predicate SelfDeletes(x: Entry, callback: bool) { x.socket && x.server && !x.closing && callback }

  type Fds = map<int, nat>

  /** The registered descriptors whose entry uses UDP socket u. */
  function Users(fds: Fds, entries: seq<Entry>, u: nat): set<int> {
    set fd | fd in fds && fds[fd] < |entries| && entries[fds[fd]].udp == Some(u)
  }

  /** What a registered entry is: it has a UDP socket, is waited on and is not closed. */
  predicate Usable(x: Entry) { x.udp.Some? && x.waiting && !x.closing }

  /** A registration is live: its entry still has that descriptor, and is usable. */
  ghost predicate Live(fds: Fds, entries: seq<Entry>) {
    forall fd :: fd in fds ==>
      fd >= 0 && fds[fd] < |entries| && entries[fds[fd]].fd == fd && Usable(entries[fds[fd]])
  }

  ghost predicate Registered(fds: Fds, e: nat) {
    exists fd :: fd in fds && fds[fd] == e
  }

  /** Each count is the number of registrations that use the UDP socket, and the kernel watches
      exactly the UDP sockets in use. */
  ghost predicate Counted(fds: Fds, udps: map<nat, int>, kernel: set<nat>, entries: seq<Entry>) {
    && (forall u {:trigger Users(fds, entries, u)} :: |Users(fds, entries, u)| == if u in udps then udps[u] else 0)
    && (forall u {:trigger udps[u]} :: u in udps ==> udps[u] > 0)
    && kernel == udps.Keys
  }

  ghost predicate Inv(fds: Fds, udps: map<nat, int>, kernel: set<nat>, entries: seq<Entry>) {
    Live(fds, entries) && Counted(fds, udps, kernel, entries)
  }

  lemma UsersWith(fds: Fds, entries: seq<Entry>, fd: int, e: nat, u: nat)
    requires fd !in fds && e < |entries|
    ensures Users(fds[fd := e], entries, u) == Users(fds, entries, u) + (if entries[e].udp == Some(u) then {fd} else {})
    ensures |Users(fds[fd := e], entries, u)| == |Users(fds, entries, u)| + (if entries[e].udp == Some(u) then 1 else 0)
  {
    assert fd !in Users(fds, entries, u);
    var more := Users(fds, entries, u) + (if entries[e].udp == Some(u) then {fd} else {});
    assert Users(fds[fd := e], entries, u) == more;
  }

  lemma UsersWithout(fds: Fds, entries: seq<Entry>, fd: int, u: nat)
    requires fd in fds && fds[fd] < |entries|
    ensures Users(fds - {fd}, entries, u) == Users(fds, entries, u) - {fd}
    ensures |Users(fds - {fd}, entries, u)| ==
            |Users(fds, entries, u)| - (if entries[fds[fd]].udp == Some(u) then 1 else 0)
  {
    var less := Users(fds, entries, u) - {fd};
    assert Users(fds - {fd}, entries, u) == less;
    if entries[fds[fd]].udp == Some(u) { assert fd in Users(fds, entries, u); }
    else { assert less == Users(fds, entries, u); }
  }

  /** Who uses which UDP socket depends on nothing else about the entries. */
  lemma UsersFrame(fds: Fds, entries: seq<Entry>, entries': seq<Entry>, u: nat)
    requires |entries| <= |entries'|
    requires forall fd :: fd in fds ==> fds[fd] < |entries| && entries[fds[fd]].udp == entries'[fds[fd]].udp
    ensures Users(fds, entries, u) == Users(fds, entries', u)
  {
    forall fd ensures fd in Users(fds, entries, u) <==> fd in Users(fds, entries', u) { }
  }

  lemma InvFrame(fds: Fds, udps: map<nat, int>, kernel: set<nat>, entries: seq<Entry>, entries': seq<Entry>)
    requires Inv(fds, udps, kernel, entries) && |entries| <= |entries'| && Live(fds, entries')
    requires forall fd :: fd in fds ==> entries[fds[fd]].udp == entries'[fds[fd]].udp
    ensures Inv(fds, udps, kernel, entries')
  {
    forall u ensures |Users(fds, entries', u)| == if u in udps then udps[u] else 0 {
      UsersFrame(fds, entries, entries', u);
    }
  }

  /** An entry changes in what registration does not look at, or is not registered. */
  lemma InvSet(fds: Fds, udps: map<nat, int>, kernel: set<nat>, entries: seq<Entry>, e: nat, x: Entry)
    requires Inv(fds, udps, kernel, entries) && e < |entries| && x.fd == entries[e].fd && x.udp == entries[e].udp
    requires Usable(x) || !Registered(fds, e)
    ensures Inv(fds, udps, kernel, entries[e := x])
  {
    InvFrame(fds, udps, kernel, entries, entries[e := x]);
  }

  function More(udps: map<nat, int>, u: nat): map<nat, int> {
    udps[u := if u in udps then udps[u] + 1 else 1]
  }

  lemma CountedWith(fds: Fds, udps: map<nat, int>, kernel: set<nat>, entries: seq<Entry>, fd: int, e: nat)
    requires Counted(fds, udps, kernel, entries) && fd !in fds && e < |entries| && entries[e].udp.Some?
    ensures Counted(fds[fd := e], More(udps, entries[e].udp.value), kernel + {entries[e].udp.value}, entries)
  {
    var udps' := More(udps, entries[e].udp.value);
    forall u ensures |Users(fds[fd := e], entries, u)| == if u in udps' then udps'[u] else 0 {
      UsersWith(fds, entries, fd, e, u);
    }
  }

  /** A registration that was not counted, or that has no UDP socket, breaks the counts. */
  lemma UncountedIsWrong(fds: Fds, udps: map<nat, int>, kernel: set<nat>, entries: seq<Entry>, fd: int, e: nat)
    requires Counted(fds, udps, kernel, entries) && fd !in fds && e < |entries|
    ensures !Inv(fds[fd := e], udps, kernel, entries)
  {
    if entries[e].udp.Some? {
      UsersWith(fds, entries, fd, e, entries[e].udp.value);
    } else {
      assert fd in fds[fd := e];
    }
  }

  function Fewer(udps: map<nat, int>, u: nat): map<nat, int>
    requires u in udps
  {
    if udps[u] == 1 then udps - {u} else udps[u := udps[u] - 1]
  }

  lemma CountedWithout(fds: Fds, udps: map<nat, int>, kernel: set<nat>, entries: seq<Entry>, fd: int)
    requires Inv(fds, udps, kernel, entries) && fd in fds
    ensures entries[fds[fd]].udp.value in udps
    ensures var u := entries[fds[fd]].udp.value;
            Counted(fds - {fd}, Fewer(udps, u), if udps[u] == 1 then kernel - {u} else kernel, entries)
  {
    var v := entries[fds[fd]].udp.value;
    assert fd in Users(fds, entries, v);
    var udps' := Fewer(udps, v);
    forall u ensures |Users(fds - {fd}, entries, u)| == if u in udps' then udps'[u] else 0 {
      UsersWithout(fds, entries, fd, u);
    }
  }

  lemma CountedFrame(fds: Fds, udps: map<nat, int>, kernel: set<nat>, entries: seq<Entry>, e: nat, x: Entry)
    requires Counted(fds, udps, kernel, entries) && e < |entries| && x.udp == entries[e].udp
    requires forall fd :: fd in fds ==> fds[fd] < |entries|
    ensures Counted(fds, udps, kernel, entries[e := x])
  {
    forall u ensures |Users(fds, entries[e := x], u)| == if u in udps then udps[u] else 0 {
      UsersFrame(fds, entries, entries[e := x], u);
    }
  }

  /** A registration stored and counted keeps the counts right. */
  lemma AddCounts(fds: Fds, udps: map<nat, int>, kernel: set<nat>, entries: seq<Entry>, fd: int, e: nat, x: Entry)
    requires Inv(fds, udps, kernel, entries) && 0 <= fd && fd !in fds && e < |entries|
    requires x.fd == entries[e].fd == fd && x.udp == entries[e].udp && Usable(x)
    ensures Inv(fds[fd := e], More(udps, x.udp.value), kernel + {x.udp.value}, entries[e := x])
  {
    CountedFrame(fds, udps, kernel, entries, e, x);
    CountedWith(fds, udps, kernel, entries[e := x], fd, e);
  }

  /** One stored and not counted makes them wrong. */
  lemma AddLoses(fds: Fds, udps: map<nat, int>, kernel: set<nat>, entries: seq<Entry>, fd: int, e: nat, x: Entry)
    requires Inv(fds, udps, kernel, entries) && fd !in fds && e < |entries| && x.udp == entries[e].udp
    ensures !Inv(fds[fd := e], udps, kernel, entries[e := x])
  {
    CountedFrame(fds, udps, kernel, entries, e, x);
    UncountedIsWrong(fds, udps, kernel, entries[e := x], fd, e);
  }

  /** A registration removed, and its entry no longer waited on. */
  lemma DelCounts(fds: Fds, udps: map<nat, int>, kernel: set<nat>, entries: seq<Entry>, fd: int, x: Entry)
    requires Inv(fds, udps, kernel, entries) && fd in fds
    requires x.fd == entries[fds[fd]].fd && x.udp == entries[fds[fd]].udp
    ensures x.udp.Some? && x.udp.value in udps && !Registered(fds - {fd}, fds[fd])
    ensures Inv(fds - {fd}, Fewer(udps, x.udp.value), if udps[x.udp.value] == 1 then kernel - {x.udp.value} else kernel,
                entries[fds[fd] := x])
  {
    CountedWithout(fds, udps, kernel, entries, fd);
    var u := x.udp.value;
    CountedFrame(fds - {fd}, Fewer(udps, u), if udps[u] == 1 then kernel - {u} else kernel, entries, fds[fd], x);
  }

  // The epoller

  datatype Result = Done | Exists | BadFd | Invalid | Busy | KernelError | NotFound

  /** A registered entry is waited on, and a socket's timers run with this epoller. */
  predicate Added(x: Entry, x': Entry) { x' == x.(waiting := true, linked := x.linked || x.socket) }

  predicate Removed(x: Entry, x': Entry) { x' == x.(waiting := false, linked := x.linked && !x.socket) }

  /** Failures after the registration was stored. */
  predicate Late(r: Result) { r.Invalid? || r.Busy? || r.KernelError? }

  class Epoller {
    var fds: Fds
    var udps: map<nat, int>
    var kernel: set<nat>
    var entries: seq<Entry>
    /** FdManager */
    var manager: map<int, nat>

    ghost predicate Valid()
      reads this
    {
      Inv(fds, udps, kernel, entries)
    }

    ghost predicate Managed()
      reads this
    {
      forall fd :: fd in manager ==> fd >= 0 && manager[fd] < |entries|
    }

    ghost predicate InBounds()
      reads this
    {
      forall fd :: fd in fds ==> fds[fd] < |entries|
    }

    constructor ()
      ensures Valid() && Managed() && InBounds() && fds == map[] && udps == map[] && entries == [] && manager == map[]
    {
      fds, udps, kernel, entries, manager := map[], map[], {}, [], map[];
    }

    /** A socket or stream is made and put into FdManager; a stream has its socket's UDP socket. */
    method NewEntry(fd: nat, udp: Option<nat>, socket: bool, server: bool) returns (e: nat)
      requires Managed() && InBounds() && fd !in manager
      modifies this`entries, this`manager
      ensures Managed() && InBounds() && e == |old(entries)| && manager == old(manager)[fd := e]
      ensures entries == old(entries) + [Entry(fd, udp, socket, server, false, false, false)]
      ensures old(Valid()) ==> Valid()
    {
      ghost var before, right := entries, Valid();
      e := |entries|;
      entries := entries + [Entry(fd, udp, socket, server, false, false, false)];
      manager := manager[fd := e];
      if right { InvFrame(fds, udps, kernel, before, entries); }
    }

    /** Bind or SetUdpSocket on a socket that has no UDP socket yet. */
    method GiveUdp(e: nat, udp: nat)
      requires InBounds() && e < |entries| && entries[e].udp.None?
      modifies this`entries
      ensures InBounds() && entries == old(entries)[e := old(entries)[e].(udp := Some(udp))]
      ensures old(Valid()) ==> Valid()
    {
      ghost var before, right := entries, Valid();
      entries := entries[e := entries[e].(udp := Some(udp))];
      if right { InvFrame(fds, udps, kernel, before, entries); }
    }

    /** FdManager knows an open entry under the descriptor. */
    predicate Known(fd: int)
      reads this
    {
      fd in manager && manager[fd] < |entries| && entries[manager[fd]].fd == fd && !entries[manager[fd]].closing
    }

    /** The entry has a UDP socket, its timers are free, and the kernel takes the UDP socket. */
    predicate CanCount(x: Entry, ctlOk: bool)
      reads this
    {
      x.udp.Some? && !(x.socket && x.linked) && (x.udp.value in udps || ctlOk)
    }

    /** AddInner; `ctlOk` is the answer of epoll_ctl.  Right counts stay right exactly when the
        call finds the entry countable or stops before it stores the registration. */
    method Add(fd: int, ctlOk: bool) returns (r: Result)
      requires Managed() && InBounds()
      modifies this`fds, this`udps, this`kernel, this`entries
      ensures Managed() && InBounds() && |entries| == |old(entries)|
      ensures old(Valid()) ==>
                (Valid() <==> old(fd in fds || !Known(fd) || CanCount(entries[manager[fd]], ctlOk)))
      ensures old(Valid()) ==> (r.Exists? <==> old(fd in fds)) && (r.BadFd? <==> old(fd !in fds && !Known(fd)))
      ensures old(Valid()) ==> (r.Done? <==> old(fd !in fds && Known(fd) && CanCount(entries[manager[fd]], ctlOk)))
      ensures r.Done? ==> old(Known(fd)) && fds == old(fds)[fd := manager[fd]]
      ensures r.Done? ==> Added(old(entries)[manager[fd]], entries[manager[fd]])
      ensures r.Done? ==> entries[manager[fd]].udp.Some? && udps == More(old(udps), entries[manager[fd]].udp.value)
      ensures !r.Done? ==> udps == old(udps) && kernel == old(kernel)
      ensures r.Exists? || (r.BadFd? && old(Valid())) ==> fds == old(fds) && entries == old(entries)
      ensures r.Exists? <==> old(fd in fds && entries[fds[fd]].fd == fd)
      ensures Late(r) ==> fd in manager && fds == old(fds)[fd := manager[fd]]
      ensures old(fd !in fds && Known(fd) && entries[manager[fd]].udp.None?) ==> r.Invalid?
      ensures old(fd !in fds && Known(fd)) ==>
                var x := old(entries)[manager[fd]];
                && (r.Busy? <==> x.udp.Some? && x.socket && x.linked)
                && (r.KernelError? <==> x.udp.Some? && !(x.socket && x.linked) && x.udp.value !in old(udps) && !ctlOk)
      ensures r.Invalid? ==> fd in manager && entries[manager[fd]] == old(entries)[manager[fd]].(waiting := false)
    {
      if fd in fds {
        if entries[fds[fd]].fd == fd { return Exists; }
        fds := fds - {fd};
      }
      if fd !in manager || entries[manager[fd]].fd != fd { return BadFd; }
      var e := manager[fd];
      if entries[e].closing { return BadFd; }
      ghost var fds1 := fds;
      r := AddEntry(fd, e, ctlOk);
      assert fds1[fd := e] == old(fds)[fd := e];
    }

    /** AddInner from StartWait on */
    method AddEntry(fd: int, e: nat, ctlOk: bool) returns (r: Result)
      requires fd !in fds && fd >= 0 && e < |entries| && entries[e].fd == fd && !entries[e].closing
      modifies this`fds, this`udps, this`kernel, this`entries
      ensures if old(CanCount(entries[e], ctlOk)) then r.Done? else Late(r)
      ensures old(Valid()) ==> (Valid() <==> r.Done?)
      ensures fds == old(fds)[fd := e] && |entries| == |old(entries)|
      ensures forall i :: 0 <= i < |entries| && i != e ==> entries[i] == old(entries)[i]
      ensures r.Done? ==> Added(old(entries)[e], entries[e])
      ensures r.Done? ==> entries[e].udp.Some? && udps == More(old(udps), entries[e].udp.value)
      ensures r.Invalid? <==> old(entries)[e].udp.None?
      ensures r.Busy? <==> old(entries)[e].udp.Some? && old(entries)[e].socket && old(entries)[e].linked
      ensures r.Busy? ==> entries[e] == old(entries)[e].(waiting := false)
      ensures r.KernelError? ==> Added(old(entries)[e], entries[e])
      ensures r.Invalid? ==> entries[e] == old(entries)[e].(waiting := false)
      ensures !r.Done? ==> udps == old(udps) && kernel == old(kernel)
    {
      ghost var right, fds0, entries0 := Valid(), fds, entries;
      entries := entries[e := entries[e].(waiting := true)];
      fds := fds[fd := e];
      if entries[e].udp.None? {
        entries := entries[e := entries[e].(waiting := false)];
        assert entries == entries0[e := entries[e]];
        if right { AddLoses(fds0, udps, kernel, entries0, fd, e, entries[e]); }
        return Invalid;
      }
      var u := entries[e].udp.value;
      if entries[e].socket {
        if entries[e].linked {
          entries := entries[e := entries[e].(waiting := false)];
          assert entries == entries0[e := entries[e]];
          if right { AddLoses(fds0, udps, kernel, entries0, fd, e, entries[e]); }
          return Busy;
        }
        entries := entries[e := entries[e].(linked := true)];
      }
      assert entries == entries0[e := entries[e]];
      if u !in udps && !ctlOk {
        if right { AddLoses(fds0, udps, kernel, entries0, fd, e, entries[e]); }
        return KernelError;
      }
      if right { AddCounts(fds0, udps, kernel, entries0, fd, e, entries[e]); }
      if u !in udps {
        udps, kernel := udps[u := 1], kernel + {u};
      } else {
        udps := udps[u := udps[u] + 1];
        assert right ==> kernel + {u} == kernel;
      }
      r := Done;
    }

    /** The two assertions of DelInner. */
    predicate Deletable(fd: int)
      reads this
    {
      fd in fds && fds[fd] < |entries| && entries[fds[fd]].fd == fd ==>
        entries[fds[fd]].udp.Some? && entries[fds[fd]].udp.value in udps
    }

    /** DelInner: under right counts its assertions hold, and the counts stay right. */
    method Del(fd: int) returns (r: Result)
      requires InBounds() && Deletable(fd)
      modifies this`fds, this`udps, this`kernel, this`entries
      ensures old(Valid()) ==> Valid() && (r.Done? <==> fd in old(fds))
      ensures fds == old(fds) - {fd} && |entries| == |old(entries)|
      ensures r.Done? || (r.NotFound? && udps == old(udps) && kernel == old(kernel) && entries == old(entries))
      ensures forall i :: 0 <= i < |entries| ==>
                entries[i].fd == old(entries)[i].fd && entries[i].closing == old(entries)[i].closing
      ensures r.Done? ==> fd in old(fds) && Removed(old(entries)[old(fds)[fd]], entries[old(fds)[fd]])
    {
      if fd !in fds { return NotFound; }
      var e := fds[fd];
      if entries[e].fd != fd {
        fds := fds - {fd};
        return NotFound;
      }
      var x := entries[e].(waiting := false, linked := entries[e].linked && !entries[e].socket);
      if Valid() { DelCounts(fds, udps, kernel, entries, fd, x); }
      var u := entries[e].udp.value;
      if udps[u] == 1 {
        kernel, udps := kernel - {u}, udps - {u};
      } else {
        udps := udps[u := udps[u] - 1];
      }
      entries := entries[e := x];
      fds := fds - {fd};
      r := Done;
    }

    /** DeleteQuicSocketEntry or DeleteQuicStream: the entry gives up its descriptor.  Right counts
        stay right exactly when it is not registered under it. */
    method LoseFd(e: nat)
      requires e < |entries|
      modifies this`entries, this`manager
      ensures entries == old(entries)[e := old(entries)[e].(fd := -1)]
      ensures manager == old(manager) - {old(entries)[e].fd}
      ensures old(Valid()) ==> (Valid() <==> !Registered(fds, e))
    {
      ghost var before, right := entries, Valid();
      manager := manager - {entries[e].fd};
      entries := entries[e := entries[e].(fd := -1)];
      if right {
        if !Registered(fds, e) {
          InvFrame(fds, udps, kernel, before, entries);
        } else {
          var fd :| fd in fds && fds[fd] == e;
          assert entries[fds[fd]].fd == -1 < fd;
        }
      }
    }

    /** ClearWaitingsByClose: an epoller that waits on the entry is told, once, and calls Del with
        the descriptor the entry has by then. */
    method ClearWaitings(e: nat)
      requires InBounds() && e < |entries| && Deletable(entries[e].fd)
      modifies this`fds, this`udps, this`kernel, this`entries
      ensures |entries| == |old(entries)| && entries[e].fd == old(entries)[e].fd && entries[e].closing
      ensures old(Valid()) ==> Valid() && !Registered(fds, e)
      ensures old(entries)[e].fd !in old(fds) ==> fds == old(fds) && udps == old(udps) && kernel == old(kernel)
    {
      if entries[e].closing { return; }
      ghost var right := Valid();
      assert right ==> forall f :: f in fds && fds[f] == e ==> f == entries[e].fd;
      if entries[e].waiting {
        var r := Del(entries[e].fd);
      }
      assert right ==> Valid() && !Registered(fds, e);
      ghost var x := entries[e].(closing := true, waiting := false);
      if right { InvSet(fds, udps, kernel, entries, e, x); }
      entries := entries[e := entries[e].(closing := true, waiting := false)];
    }

    /** Closing and deleting an entry; `callback` says whether the session reports the close back.
        A socket that deletes itself then does so before its waitings are cleared, and Del finds
        nothing: the registration and its count stay. */
    method CloseEntry(e: nat, callback: bool)
      requires Valid() && Managed() && e < |entries|
      modifies this
      ensures Managed() && InBounds() && |entries| == |old(entries)| && entries[e].fd == -1 && entries[e].closing
      ensures Valid() <==> !old(SelfDeletes(entries[e], callback) && Registered(fds, e))
      ensures Valid() ==> !Registered(fds, e)
      ensures old(SelfDeletes(entries[e], callback)) ==>
                fds == old(fds) && udps == old(udps) && kernel == old(kernel)
    {
      if entries[e].fd in fds { DelIsSafe(fds, udps, kernel, entries, entries[e].fd); }
      if SelfDeletes(entries[e], callback) {
        LoseFd(e);
        ghost var registered := Registered(fds, e);
        ClearWaitings(e);
        if registered {
          var fd :| fd in fds && fds[fd] == e;
          assert entries[fds[fd]].fd == -1 < fd;
        }
      } else {
        ClearWaitings(e);
        LoseFd(e);
      }
    }
  }

  /** A socket added before Bind: the call fails, its registration stays, and from Bind on the
      assertion that DelInner makes about the counts is false. */
  method AddBeforeBind() returns (first: Result, second: Result, deletable: bool)
    ensures first.Invalid? && second.Exists? && !deletable
  {
    var ep := new Epoller();
    var e := ep.NewEntry(3, None, true, false);
    first := ep.Add(3, true);
    ep.GiveUdp(e, 7);
    second := ep.Add(3, true);
    deletable := ep.Deletable(3);
  }

  /** A registered server socket that deletes itself leaves its count behind, and the kernel goes
      on watching the UDP socket. */
  method SelfDeleteKeepsCount() returns (fds: Fds, udps: map<nat, int>, entries: seq<Entry>)
    ensures fds.Keys == {3} && udps == map[7 := 1]
    ensures forall e :: 0 <= e < |entries| ==> entries[e].fd == -1
  {
    var ep := new Epoller();
    var e := ep.NewEntry(3, Some(7), true, true);
    var r := ep.Add(3, true);
    assert ep.fds == map[3 := 0] && ep.udps == map[7 := 1];
    ep.CloseEntry(e, true);
    fds, udps, entries := ep.fds, ep.udps, ep.entries;
  }

  lemma DelIsSafe(fds: Fds, udps: map<nat, int>, kernel: set<nat>, entries: seq<Entry>, fd: int)
    requires Inv(fds, udps, kernel, entries) && fd in fds
    ensures entries[fds[fd]].udp.Some? && entries[fds[fd]].udp.value in udps
  {
    CountedWithout(fds, udps, kernel, entries, fd);
  }
}
