/**
 The descriptor allocator (src/fd_factory.h), the descriptor table (src/fd_manager.h), the packet
 routing index (src/connection_manager.h) and the parts of src/socket_entry.cpp and
 src/stream_entry.cpp that keep them in step.

 Entries are numbered in the order they are made; the number stands for the shared pointer.
*/
module FdTables {
  import opened Basics

  /** A socket or a stream: its descriptor or -1, whether it acts as a server, whether it is still
      open, its UDP socket, its connection id, whether it was bound, and its accept queue. */
  datatype Entry = Entry(fd: int, stream: bool, server: bool, open: bool, udp: Option<nat>, cid: nat,
                         bound: bool, accept: seq<nat>)

  datatype Tables = Tables(
    acq: nat, free: seq<nat>,
    table: map<nat, nat>,
    entries: seq<Entry>,
    connections: map<nat, map<nat, nat>>,
    owners: map<nat, nat>)

  const EMPTY := Tables(0, [], map[], [], map[], map[])

  // Invariants

  /** Live and free descriptors split 1..acq, and no descriptor is free twice. */
  ghost predicate FdsOk(acq: nat, free: seq<nat>, table: map<nat, nat>) {
    && (forall fd :: fd in table ==> 1 <= fd <= acq && fd !in free)
    && (forall i :: 0 <= i < |free| ==> 1 <= free[i] <= acq)
    && (forall i, j :: 0 <= i < j < |free| ==> free[i] != free[j])
    && (forall fd: nat :: 1 <= fd <= acq ==> fd in table || fd in free)
  }

  /** The table and the entries agree on who has which descriptor. */
  ghost predicate NamesOk(table: map<nat, nat>, entries: seq<Entry>) {
    && (forall fd :: fd in table ==> table[fd] < |entries| && entries[table[fd]].fd == fd)
    && (forall e {:trigger entries[e]} :: 0 <= e < |entries| ==> Named(table, entries, e))
  }

  ghost predicate Named(table: map<nat, nat>, entries: seq<Entry>, e: nat)
    requires e < |entries|
  {
    var x := entries[e];
    && (x.fd == -1 || (0 < x.fd && x.fd in table && table[x.fd] == e))
    && (x.open ==> x.fd != -1)
  }

  /** The open socket registered under (udp, cid) is the one with that descriptor. */
  ghost predicate Routes(t: Tables, udp: nat, fd: nat) {
    && fd in t.table && t.table[fd] < |t.entries|
    && var x := t.entries[t.table[fd]];
       x.open && !x.stream && x.udp == Some(udp)
  }

  ghost predicate ConnectionsOk(t: Tables) {
    forall u {:trigger t.connections[u]} :: u in t.connections ==> ConnectionOk(t, u)
  }

  ghost predicate ConnectionOk(t: Tables, u: nat)
    requires u in t.connections
  {
    && t.connections[u] != map[]
    && forall c {:trigger t.connections[u][c]} :: c in t.connections[u] ==>
         Routes(t, u, t.connections[u][c]) && t.entries[t.table[t.connections[u][c]]].cid == c
  }

  ghost predicate OwnersOk(t: Tables) {
    forall u {:trigger t.owners[u]} :: u in t.owners ==>
      Routes(t, u, t.owners[u]) && t.entries[t.table[t.owners[u]]].bound
  }

  /** Every open socket with a UDP socket is in the index under its own descriptor. */
  ghost predicate Indexed(t: Tables, e: nat)
    requires e < |t.entries|
  {
    var x := t.entries[e];
    x.open && x.udp.Some? ==>
      && !x.stream
      && x.udp.value in t.connections && x.cid in t.connections[x.udp.value]
      && t.connections[x.udp.value][x.cid] == x.fd
  }

  predicate Waiting(x: Entry) { !x.bound && x.udp.Some? && !x.stream }

  /** Only bound sockets have an accept queue, and it holds incoming sockets, which are not. */
  ghost predicate QueueOk(t: Tables, e: nat)
    requires e < |t.entries|
  {
    var x := t.entries[e];
    && (x.accept != [] ==> x.bound)
    && (forall i :: 0 <= i < |x.accept| ==> x.accept[i] < |t.entries| && Waiting(t.entries[x.accept[i]]))
  }

  ghost predicate Inv(t: Tables) {
    && FdsOk(t.acq, t.free, t.table)
    && NamesOk(t.table, t.entries)
    && ConnectionsOk(t)
    && OwnersOk(t)
    && (forall e {:trigger t.entries[e]} :: 0 <= e < |t.entries| ==> Indexed(t, e) && QueueOk(t, e))
  }

  /** The socket behind a descriptor, as far as routing looks at it, is the same. */
  ghost predicate Keeps(t: Tables, t': Tables, fd: nat)
    requires fd in t.table
  {
    && fd in t'.table && t'.table[fd] == t.table[fd] && t.table[fd] < |t.entries| <= |t'.entries|
    && var x, x' := t.entries[t.table[fd]], t'.entries[t.table[fd]];
       x.open == x'.open && x.stream == x'.stream && x.udp == x'.udp && x.cid == x'.cid && (x.bound ==> x'.bound)
  }

  lemma KeepsConnection(t: Tables, t': Tables, u: nat)
    requires u in t.connections && ConnectionOk(t, u)
    requires u in t'.connections && t'.connections[u] == t.connections[u]
    requires forall c :: c in t.connections[u] && t.connections[u][c] in t.table ==> Keeps(t, t', t.connections[u][c])
    ensures ConnectionOk(t', u)
  {
    forall c | c in t'.connections[u]
      ensures Routes(t', u, t'.connections[u][c]) && t'.entries[t'.table[t'.connections[u][c]]].cid == c
    {
      assert Routes(t, u, t.connections[u][c]) && Keeps(t, t', t.connections[u][c]);
    }
  }

  lemma IndexFrame(t: Tables, t': Tables)
    requires ConnectionsOk(t) && OwnersOk(t) && t'.connections == t.connections && t'.owners == t.owners
    requires forall fd :: fd in t.table ==> Keeps(t, t', fd)
    ensures ConnectionsOk(t') && OwnersOk(t')
  {
    forall u | u in t'.connections ensures ConnectionOk(t', u) {
      assert ConnectionOk(t, u);
      KeepsConnection(t, t', u);
    }
    forall u | u in t'.owners
      ensures Routes(t', u, t'.owners[u]) && t'.entries[t'.table[t'.owners[u]]].bound
    {
      assert Routes(t, u, t.owners[u]) && Keeps(t, t', t.owners[u]);
    }
  }

  // FdFactory::Alloc and FdManager::Put

  function NextFd(t: Tables): (fd: nat) {
    if t.free == [] then t.acq + 1 else t.free[0]
  }

  function Created(t: Tables, stream: bool, server: bool, cid: nat): Tables {
    var fd := NextFd(t);
    t.(acq := if t.free == [] then t.acq + 1 else t.acq,
       free := if t.free == [] then [] else t.free[1..],
       table := t.table[fd := |t.entries|],
       entries := t.entries + [Entry(fd, stream, server, true, None, cid, false, [])])
  }

  lemma CreatedFds(t: Tables, stream: bool, server: bool, cid: nat)
    requires Inv(t)
    ensures var t' := Created(t, stream, server, cid); FdsOk(t'.acq, t'.free, t'.table) && NextFd(t) !in t.table
  {
    var t' := Created(t, stream, server, cid);
    if t.free != [] {
      assert t.free[0] in t.free;
      assert forall fd :: fd in t.free <==> fd == t.free[0] || fd in t'.free;
      assert t.free[0] !in t'.free;
    }
  }

  lemma CreatedNames(t: Tables, stream: bool, server: bool, cid: nat)
    requires Inv(t)
    ensures var t' := Created(t, stream, server, cid); NamesOk(t'.table, t'.entries)
  {
    CreatedFds(t, stream, server, cid);
    var t' := Created(t, stream, server, cid);
    forall e | 0 <= e < |t'.entries| ensures Named(t'.table, t'.entries, e) {
      if e < |t.entries| { assert t'.entries[e] == t.entries[e] && Named(t.table, t.entries, e); }
    }
  }

  lemma CreatedRoutes(t: Tables, stream: bool, server: bool, cid: nat)
    requires Inv(t)
    ensures var t' := Created(t, stream, server, cid); ConnectionsOk(t') && OwnersOk(t')
  {
    CreatedFds(t, stream, server, cid);
    var t' := Created(t, stream, server, cid);
    forall fd | fd in t.table ensures Keeps(t, t', fd) {
      assert t'.entries[t.table[fd]] == t.entries[t.table[fd]];
    }
    IndexFrame(t, t');
  }

  lemma CreatedKeepsInv(t: Tables, stream: bool, server: bool, cid: nat)
    requires Inv(t)
    ensures Inv(Created(t, stream, server, cid))
  {
    var t' := Created(t, stream, server, cid);
    CreatedFds(t, stream, server, cid);
    CreatedNames(t, stream, server, cid);
    CreatedRoutes(t, stream, server, cid);
    forall e | 0 <= e < |t'.entries| ensures Indexed(t', e) && QueueOk(t', e) {
      if e < |t.entries| { assert t'.entries[e] == t.entries[e] && Indexed(t, e) && QueueOk(t, e); }
    }
  }

  // ConnectionManager::Put, from SetUdpSocket (owner) and OnSyn (not owner)

  function Connections(t: Tables, udp: nat): map<nat, nat> {
    if udp in t.connections then t.connections[udp] else map[]
  }

  predicate CanRegister(t: Tables, e: nat, udp: nat) {
    e < |t.entries| && t.entries[e].open && !t.entries[e].stream && t.entries[e].udp.None? && t.entries[e].fd >= 0
  }

  /** No other socket of this UDP socket has the connection id. */
  predicate IdIsNew(t: Tables, e: nat, udp: nat)
    requires e < |t.entries|
  {
    t.entries[e].cid !in Connections(t, udp)
  }

  function Registered(t: Tables, e: nat, udp: nat, owner: bool): Tables
    requires CanRegister(t, e, udp)
  {
    var x := t.entries[e];
    t.(entries := t.entries[e := x.(udp := Some(udp), bound := x.bound || owner)],
       connections := t.connections[udp := Connections(t, udp)[x.cid := x.fd]],
       owners := if owner then t.owners[udp := x.fd] else t.owners)
  }

  lemma RegisteredNames(t: Tables, e: nat, udp: nat, owner: bool)
    requires Inv(t) && CanRegister(t, e, udp)
    ensures var t' := Registered(t, e, udp, owner); NamesOk(t'.table, t'.entries)
  {
    var t' := Registered(t, e, udp, owner);
    forall i | 0 <= i < |t'.entries| ensures Named(t'.table, t'.entries, i) {
      assert Named(t.table, t.entries, i);
    }
  }

  lemma RegisteredConnection(t: Tables, e: nat, udp: nat, owner: bool, u: nat)
    requires Inv(t) && CanRegister(t, e, udp) && IdIsNew(t, e, udp)
    requires u in Registered(t, e, udp, owner).connections
    ensures ConnectionOk(Registered(t, e, udp, owner), u)
  {
    var t' := Registered(t, e, udp, owner);
    assert Named(t.table, t.entries, e);
    if u in t.connections { assert ConnectionOk(t, u); }
    forall c | c in t'.connections[u]
      ensures Routes(t', u, t'.connections[u][c]) && t'.entries[t'.table[t'.connections[u][c]]].cid == c
    {
      if u in t.connections && c in t.connections[u] { assert Routes(t, u, t.connections[u][c]); }
    }
    if u == udp { assert t.entries[e].cid in t'.connections[u]; }
  }

  lemma RegisteredOwners(t: Tables, e: nat, udp: nat, owner: bool)
    requires Inv(t) && CanRegister(t, e, udp)
    ensures OwnersOk(Registered(t, e, udp, owner))
  {
    var t' := Registered(t, e, udp, owner);
    assert Named(t.table, t.entries, e);
    forall u | u in t'.owners
      ensures Routes(t', u, t'.owners[u]) && t'.entries[t'.table[t'.owners[u]]].bound
    {
      if u in t.owners { assert Routes(t, u, t.owners[u]); }
    }
  }

  lemma RegisteredIndexed(t: Tables, e: nat, udp: nat, owner: bool, i: nat)
    requires Inv(t) && CanRegister(t, e, udp) && IdIsNew(t, e, udp) && i < |t.entries|
    ensures Indexed(Registered(t, e, udp, owner), i) && QueueOk(Registered(t, e, udp, owner), i)
  {
    var t' := Registered(t, e, udp, owner);
    assert Indexed(t, i) && QueueOk(t, i);
  }

  lemma RegisteredKeepsInv(t: Tables, e: nat, udp: nat, owner: bool)
    requires Inv(t) && CanRegister(t, e, udp) && IdIsNew(t, e, udp)
    ensures Inv(Registered(t, e, udp, owner))
  {
    var t' := Registered(t, e, udp, owner);
    RegisteredNames(t, e, udp, owner);
    RegisteredOwners(t, e, udp, owner);
    forall u | u in t'.connections ensures ConnectionOk(t', u) { RegisteredConnection(t, e, udp, owner, u); }
    forall i | 0 <= i < |t'.entries| ensures Indexed(t', i) && QueueOk(t', i) {
      RegisteredIndexed(t, e, udp, owner, i);
    }
  }

  // ConnectionManager::Delete and the part of Close before CloseConnection

  /** The index without (udp, cid), and without an inner map that became empty. */
  function Without(conns: map<nat, map<nat, nat>>, udp: nat, cid: nat): map<nat, map<nat, nat>>
    requires udp in conns
  {
    var rest := conns[udp] - {cid};
    if rest == map[] then conns - {udp} else conns[udp := rest]
  }

  lemma WithoutKeeps(conns: map<nat, map<nat, nat>>, udp: nat, cid: nat, u: nat, c: nat)
    requires udp in conns && u in conns && c in conns[u] && (u != udp || c != cid)
    ensures var conns' := Without(conns, udp, cid); u in conns' && c in conns'[u] && conns'[u][c] == conns[u][c]
  {
    if u == udp { assert c in conns[udp] - {cid}; }
  }

  lemma WithoutOnly(conns: map<nat, map<nat, nat>>, udp: nat, cid: nat, u: nat)
    requires udp in conns && u in Without(conns, udp, cid)
    ensures u in conns && (u != udp ==> Without(conns, udp, cid)[u] == conns[u])
    ensures u == udp ==> Without(conns, udp, cid)[u] == conns[u] - {cid} && conns[u] - {cid} != map[]
  {
  }

  function Unrouted(t: Tables, udp: nat, cid: nat, fd: int): Tables {
    if udp !in t.connections || cid !in t.connections[udp] then t
    else
      t.(connections := Without(t.connections, udp, cid),
         owners := if udp in t.owners && t.owners[udp] == fd then t.owners - {udp} else t.owners)
  }

  function Closed(t: Tables, e: nat): Tables
    requires e < |t.entries|
  {
    var x := t.entries[e];
    var t1 := t.(entries := t.entries[e := x.(open := false)]);
    if x.udp.Some? then Unrouted(t1, x.udp.value, x.cid, x.fd) else t1
  }

  lemma ClosedNames(table: map<nat, nat>, entries: seq<Entry>, e: nat)
    requires NamesOk(table, entries) && e < |entries|
    ensures NamesOk(table, entries[e := entries[e].(open := false)])
  {
    var entries' := entries[e := entries[e].(open := false)];
    forall i | 0 <= i < |entries'| ensures Named(table, entries', i) {
      assert Named(table, entries, i);
    }
  }

  /** No other entry is routed to by the descriptor of `e`, or under its UDP socket and id. */
  lemma OthersStayRouted(t: Tables, e: nat, u: nat, fd: nat)
    requires NamesOk(t.table, t.entries) && e < |t.entries| && Routes(t, u, fd) && fd != t.entries[e].fd
    requires Closed(t, e).table == t.table && Closed(t, e).entries == t.entries[e := t.entries[e].(open := false)]
    ensures t.table[fd] != e && Routes(Closed(t, e), u, fd)
    ensures Closed(t, e).entries[t.table[fd]] == t.entries[t.table[fd]]
  {
    assert t.entries[t.table[fd]].fd == fd;
  }

  lemma ClosedConnection(t: Tables, e: nat, u: nat)
    requires NamesOk(t.table, t.entries) && ConnectionsOk(t) && e < |t.entries| && t.entries[e].open && Indexed(t, e)
    requires u in Closed(t, e).connections
    ensures ConnectionOk(Closed(t, e), u)
  {
    var t', x := Closed(t, e), t.entries[e];
    if x.udp.Some? { WithoutOnly(t.connections, x.udp.value, x.cid, u); }
    assert ConnectionOk(t, u);
    forall c | c in t'.connections[u]
      ensures Routes(t', u, t'.connections[u][c]) && t'.entries[t'.table[t'.connections[u][c]]].cid == c
    {
      var fd := t.connections[u][c];
      assert Routes(t, u, fd) && t.entries[t.table[fd]].cid == c;
      assert Named(t.table, t.entries, e);
      OthersStayRouted(t, e, u, fd);
    }
  }

  lemma ClosedOwners(t: Tables, e: nat)
    requires NamesOk(t.table, t.entries) && OwnersOk(t) && e < |t.entries| && t.entries[e].open && Indexed(t, e)
    ensures OwnersOk(Closed(t, e))
  {
    var t', x := Closed(t, e), t.entries[e];
    forall u | u in t'.owners
      ensures Routes(t', u, t'.owners[u]) && t'.entries[t'.table[t'.owners[u]]].bound
    {
      assert Routes(t, u, t.owners[u]);
      assert Named(t.table, t.entries, e);
      OthersStayRouted(t, e, u, t.owners[u]);
    }
  }

  lemma ClosedIndexed(t: Tables, e: nat, i: nat)
    requires NamesOk(t.table, t.entries) && e < |t.entries| && t.entries[e].open && i < |t.entries|
    requires Indexed(t, i) && QueueOk(t, i) && Indexed(t, e)
    ensures Indexed(Closed(t, e), i)
  {
    var x, y := t.entries[e], t.entries[i];
    assert Named(t.table, t.entries, i) && Named(t.table, t.entries, e);
    if i != e && y.open && x.udp.Some? && y.udp.Some? {
      WithoutKeeps(t.connections, x.udp.value, x.cid, y.udp.value, y.cid);
    }
  }

  lemma ClosedQueue(t: Tables, e: nat, i: nat)
    requires e < |t.entries| && i < |t.entries| && QueueOk(t, i)
    ensures QueueOk(Closed(t, e), i)
  {
  }

  lemma ClosedKeepsInv(t: Tables, e: nat)
    requires Inv(t) && e < |t.entries| && t.entries[e].open
    ensures Inv(Closed(t, e))
  {
    var t' := Closed(t, e);
    assert Indexed(t, e);
    ClosedNames(t.table, t.entries, e);
    ClosedOwners(t, e);
    forall u | u in t'.connections ensures ConnectionOk(t', u) { ClosedConnection(t, e, u); }
    forall i | 0 <= i < |t'.entries| ensures Indexed(t', i) && QueueOk(t', i) {
      assert Indexed(t, i) && QueueOk(t, i);
      ClosedIndexed(t, e, i);
      ClosedQueue(t, e, i);
    }
  }

  // DeleteQuicSocketEntry and DeleteQuicStream: FdManager::Delete, FdFactory::Free

  function Deleted(t: Tables, e: nat): Tables
    requires e < |t.entries|
  {
    var fd := t.entries[e].fd;
    if fd < 0 then t
    else t.(table := t.table - {fd}, free := t.free + [fd], entries := t.entries[e := t.entries[e].(fd := -1)])
  }

  lemma DeletedFds(t: Tables, e: nat)
    requires Inv(t) && e < |t.entries| && t.entries[e].fd >= 0
    ensures var t' := Deleted(t, e); FdsOk(t'.acq, t'.free, t'.table)
  {
    assert Named(t.table, t.entries, e);
  }

  lemma DeletedNames(t: Tables, e: nat)
    requires Inv(t) && e < |t.entries| && t.entries[e].fd >= 0 && !t.entries[e].open
    ensures var t' := Deleted(t, e); NamesOk(t'.table, t'.entries)
  {
    var t' := Deleted(t, e);
    forall i | 0 <= i < |t'.entries| ensures Named(t'.table, t'.entries, i) {
      assert Named(t.table, t.entries, i) && Named(t.table, t.entries, e);
    }
  }

  lemma DeletedKeeps(t: Tables, e: nat, u: nat, fd: nat)
    requires NamesOk(t.table, t.entries) && Routes(t, u, fd)
    requires e < |t.entries| && t.entries[e].fd >= 0 && !t.entries[e].open
    ensures Keeps(t, Deleted(t, e), fd)
  {
    assert Named(t.table, t.entries, e);
  }

  lemma DeletedRoutes(t: Tables, e: nat)
    requires NamesOk(t.table, t.entries) && ConnectionsOk(t) && OwnersOk(t)
    requires e < |t.entries| && t.entries[e].fd >= 0 && !t.entries[e].open
    ensures ConnectionsOk(Deleted(t, e)) && OwnersOk(Deleted(t, e))
  {
    var t' := Deleted(t, e);
    forall u | u in t'.connections ensures ConnectionOk(t', u) {
      assert ConnectionOk(t, u);
      forall c | c in t.connections[u] && t.connections[u][c] in t.table ensures Keeps(t, t', t.connections[u][c]) {
        DeletedKeeps(t, e, u, t.connections[u][c]);
      }
      KeepsConnection(t, t', u);
    }
    forall u | u in t'.owners
      ensures Routes(t', u, t'.owners[u]) && t'.entries[t'.table[t'.owners[u]]].bound
    {
      DeletedKeeps(t, e, u, t.owners[u]);
    }
  }

  lemma DeletedKeepsInv(t: Tables, e: nat)
    requires Inv(t) && e < |t.entries| && !t.entries[e].open
    ensures Inv(Deleted(t, e))
  {
    if t.entries[e].fd >= 0 {
      var t' := Deleted(t, e);
      DeletedFds(t, e);
      DeletedNames(t, e);
      DeletedRoutes(t, e);
      forall i | 0 <= i < |t'.entries| ensures Indexed(t', i) && QueueOk(t', i) {
        assert Indexed(t, i) && QueueOk(t, i);
      }
    }
  }

  // The accept queue

  function Queued(t: Tables, l: nat, queue: seq<nat>): Tables
    requires l < |t.entries|
  {
    t.(entries := t.entries[l := t.entries[l].(accept := queue)])
  }

  lemma QueuedKeepsInv(t: Tables, l: nat, queue: seq<nat>)
    requires Inv(t) && l < |t.entries| && (queue != [] ==> t.entries[l].bound)
    requires forall i :: 0 <= i < |queue| ==> queue[i] < |t.entries| && Waiting(t.entries[queue[i]])
    ensures Inv(Queued(t, l, queue))
  {
    var t' := Queued(t, l, queue);
    forall fd | fd in t.table ensures Keeps(t, t', fd) { assert t.table[fd] < |t.entries|; }
    IndexFrame(t, t');
    forall i | 0 <= i < |t'.entries| ensures Named(t'.table, t'.entries, i) && Indexed(t', i) && QueueOk(t', i) {
      assert Named(t.table, t.entries, i) && Indexed(t, i) && QueueOk(t, i);
    }
  }

  // The library, one call at a time

  class Library {
    var t: Tables

    constructor ()
      ensures Inv(t) && t == EMPTY
    {
      t := EMPTY;
    }

    /** NewQuicSocketEntry and NewQuicStream */
    method NewEntry(stream: bool, server: bool, cid: nat) returns (e: nat)
      requires Inv(t)
      modifies this
      ensures Inv(t) && e == |old(t).entries| && t == Created(old(t), stream, server, cid)
      ensures t.entries[e].fd !in old(t).table && t.entries[e].fd in t.table
      ensures old(t).free != [] ==>
                t.entries[e].fd == old(t).free[0] && t.free == old(t).free[1..] && t.acq == old(t).acq
      ensures old(t).free == [] ==> t.entries[e].fd == t.acq == old(t).acq + 1 && t.free == []
    {
      CreatedKeepsInv(t, stream, server, cid);
      CreatedFds(t, stream, server, cid);
      e := |t.entries|;
      var fd;
      if t.free == [] {
        fd := t.acq + 1;
        t := t.(acq := fd);
      } else {
        fd := t.free[0];
        t := t.(free := t.free[1..]);
      }
      t := t.(entries := t.entries + [Entry(fd, stream, server, true, None, cid, false, [])]);
      t := t.(table := t.table[fd := e]);
    }

    /** SetUdpSocket: a socket that owns its UDP socket, from Bind or Connect */
    method SetUdpSocket(e: nat, udp: nat) returns (ok: bool)
      requires Inv(t) && e < |t.entries| && t.entries[e].open && !t.entries[e].stream && IdIsNew(t, e, udp)
      modifies this
      ensures Inv(t) && |t.entries| == |old(t).entries| && ok == old(t).entries[e].udp.None?
      ensures ok ==> t == Registered(old(t), e, udp, true)
      ensures ok ==> Owner(t, udp) == t.entries[e].fd && Route(t, udp, t.entries[e].cid) == t.entries[e].fd
      ensures !ok ==> t == old(t)
    {
      if t.entries[e].udp.Some? { return false; }
      assert Named(t.table, t.entries, e);
      RegisteredKeepsInv(t, e, udp, true);
      t := Registered(t, e, udp, true);
      ok := true;
    }

    /** OnSyn: an incoming connection on the owner's UDP socket */
    method OnSyn(e: nat, owner: nat)
      requires Inv(t) && e < |t.entries| && t.entries[e].open && !t.entries[e].stream && t.entries[e].udp.None?
      requires owner < |t.entries| && t.entries[owner].udp.Some? && IdIsNew(t, e, t.entries[owner].udp.value)
      modifies this
      ensures Inv(t) && |t.entries| == |old(t).entries| && t.owners == old(t).owners
      ensures t.entries[e].udp == old(t).entries[owner].udp && OnlyAt(old(t).entries, t.entries, e)
      ensures Route(t, t.entries[e].udp.value, t.entries[e].cid) == t.entries[e].fd
    {
      var udp := t.entries[owner].udp.value;
      assert Named(t.table, t.entries, e);
      RegisteredKeepsInv(t, e, udp, false);
      t := Registered(t, e, udp, false);
    }

    /** OnCryptoHandshakeComplete at a server: into the owner's accept queue.  The source asserts
        that there is an owner. */
    method PushAccept(e: nat) returns (l: nat)
      requires Inv(t) && e < |t.entries| && Waiting(t.entries[e]) && t.entries[e].udp.value in t.owners
      modifies this
      ensures Inv(t) && |t.entries| == |old(t).entries| && l < |t.entries|
      ensures t.entries[l].fd == Owner(t, old(t).entries[e].udp.value) && t.entries[l].open
      ensures t.entries[l].accept == old(t).entries[l].accept + [e]
      ensures OnlyAt(old(t).entries, t.entries, l) && SameIndex(old(t), t) && t.table == old(t).table
    {
      OwnersAreLive(t, t.entries[e].udp.value);
      l := t.table[t.owners[t.entries[e].udp.value]];
      assert QueueOk(t, l);
      QueuedKeepsInv(t, l, t.entries[l].accept + [e]);
      t := Queued(t, l, t.entries[l].accept + [e]);
    }

    method Accept(l: nat) returns (e: Option<nat>)
      requires Inv(t) && l < |t.entries|
      modifies this
      ensures Inv(t) && OnlyAt(old(t).entries, t.entries, l) && SameIndex(old(t), t) && t.table == old(t).table
      ensures t.entries[l] == old(t).entries[l].(accept := t.entries[l].accept)
      ensures e.None? <==> old(t).entries[l].accept == []
      ensures e.Some? ==> e.value < |t.entries| && old(t).entries[l].accept == [e.value] + t.entries[l].accept
    {
      var queue := t.entries[l].accept;
      if queue == [] { return None; }
      assert QueueOk(t, l);
      QueuedKeepsInv(t, l, queue[1..]);
      t := Queued(t, l, queue[1..]);
      e := Some(queue[0]);
    }

    /** Close up to the accept queue.  `callback` says whether the session reports the close back,
        in which case a server socket deletes itself. */
    method CloseOne(e: nat, callback: bool)
      requires Inv(t) && e < |t.entries|
      modifies this
      ensures Inv(t) && OnlyAt(old(t).entries, t.entries, e) && t.entries[e].accept == old(t).entries[e].accept
      ensures !t.entries[e].open
      ensures t.entries[e].fd ==
              if old(t).entries[e].open && callback && old(t).entries[e].server then -1 else old(t).entries[e].fd
    {
      if !t.entries[e].open { return; }
      ClosedKeepsInv(t, e);
      t := Closed(t, e);
      assert t.entries == old(t).entries[e := old(t).entries[e].(open := false)];
      if callback && t.entries[e].server {
        DeletedKeepsInv(t, e);
        t := Deleted(t, e);
      }
    }

    /** DeleteQuicSocketEntry and DeleteQuicStream; a second call finds no descriptor. */
    method Delete(e: nat)
      requires Inv(t) && e < |t.entries| && !t.entries[e].open
      modifies this
      ensures Inv(t) && OnlyAt(old(t).entries, t.entries, e) && SameIndex(old(t), t)
      ensures t.entries[e] == old(t).entries[e].(fd := -1)
      ensures old(t).entries[e].fd == -1 ==> t == old(t)
      ensures old(t).entries[e].fd != -1 ==>
                t.free == old(t).free + [old(t).entries[e].fd] && old(t).entries[e].fd !in t.table
    {
      DeletedKeepsInv(t, e);
      assert Named(t.table, t.entries, e);
      t := Deleted(t, e);
    }

    /** Close: the socket, then every socket still in its accept queue. */
    method Close(e: nat, callback: nat -> bool)
      requires Inv(t) && e < |t.entries|
      modifies this
      ensures Inv(t) && |t.entries| == |old(t).entries| && !t.entries[e].open
      ensures old(t).entries[e].open ==> t.entries[e].accept == [] && AllGone(t.entries, old(t).entries[e].accept)
      ensures forall i :: 0 <= i < |t.entries| && i != e && i !in old(t).entries[e].accept ==>
                t.entries[i] == old(t).entries[i]
      ensures !old(t).entries[e].open ==> t == old(t)
    {
      if !t.entries[e].open { return; }
      CloseOne(e, callback(e));
      CloseQueue(e, callback);
    }

    /** ClearAcceptSocketByClose */
    method CloseQueue(e: nat, callback: nat -> bool)
      requires Inv(t) && e < |t.entries| && !t.entries[e].open
      modifies this
      ensures Inv(t) && |t.entries| == |old(t).entries| && !t.entries[e].open && t.entries[e].accept == []
      ensures AllGone(t.entries, old(t).entries[e].accept)
      ensures forall i :: 0 <= i < |t.entries| && i != e && i !in old(t).entries[e].accept ==>
                t.entries[i] == old(t).entries[i]
    {
      ghost var entries0, gone := t.entries, [];
      NotInOwnQueue(t, e);
      assert gone + t.entries[e].accept == t.entries[e].accept;
      while t.entries[e].accept != []
        invariant Inv(t) && e < |t.entries| && !t.entries[e].open && Drained(entries0, t.entries, e, gone)
        decreases |t.entries[e].accept|
      {
        ghost var before := t.entries;
        var q := CloseNext(e, callback);
        DrainedOneMore(entries0, before, t.entries, e, gone, q);
        gone := gone + [q];
      }
      assert gone + [] == gone;
    }

    /** One turn of ClearAcceptSocketByClose */
    method CloseNext(e: nat, callback: nat -> bool) returns (q: nat)
      requires Inv(t) && e < |t.entries| && t.entries[e].accept != [] && !t.entries[e].open
      modifies this
      ensures Inv(t) && |t.entries| == |old(t).entries| && !t.entries[e].open
      ensures q < |t.entries| && q != e && Gone(t.entries[q]) && old(t).entries[e].accept == [q] + t.entries[e].accept
      ensures forall i :: 0 <= i < |t.entries| && i != e && i != q ==> t.entries[i] == old(t).entries[i]
    {
      NotInOwnQueue(t, e);
      var first := Accept(e);
      q := first.value;
      CloseOne(q, callback(q));
      Delete(q);
    }
  }

  predicate Gone(x: Entry) { !x.open && x.fd == -1 }

  predicate AllGone(entries: seq<Entry>, queue: seq<nat>) {
    forall i :: 0 <= i < |queue| ==> queue[i] < |entries| && Gone(entries[queue[i]])
  }

  /** The sockets `gone` have left the accept queue of `e` and are closed and deleted; nothing else
      has changed besides `e`. */
  ghost predicate Drained(before: seq<Entry>, after: seq<Entry>, e: nat, gone: seq<nat>)
    requires e < |before|
  {
    && |before| == |after| && before[e].accept == gone + after[e].accept && e !in before[e].accept
    && AllGone(after, gone)
    && forall i :: 0 <= i < |before| && i != e && i !in before[e].accept ==> after[i] == before[i]
  }

  lemma DrainedOneMore(a: seq<Entry>, b: seq<Entry>, c: seq<Entry>, e: nat, gone: seq<nat>, q: nat)
    requires e < |a| && Drained(a, b, e, gone) && |b| == |c|
    requires q < |c| && q != e && Gone(c[q]) && b[e].accept == [q] + c[e].accept
    requires forall i :: 0 <= i < |c| && i != e && i != q ==> c[i] == b[i]
    ensures Drained(a, c, e, gone + [q])
  {
    assert gone + ([q] + c[e].accept) == gone + [q] + c[e].accept;
    assert q in a[e].accept;
    forall i | 0 <= i < |gone| ensures Gone(c[gone[i]]) {
      assert gone[i] in a[e].accept;
    }
  }

  lemma NotInOwnQueue(t: Tables, e: nat)
    requires Inv(t) && e < |t.entries|
    ensures e !in t.entries[e].accept
  {
    assert QueueOk(t, e);
  }

  /** No entry but `e` changes. */
  ghost predicate OnlyAt(before: seq<Entry>, after: seq<Entry>, e: nat) {
    |before| == |after| && forall i :: 0 <= i < |before| && i != e ==> before[i] == after[i]
  }

  ghost predicate SameIndex(t: Tables, t': Tables) {
    t.connections == t'.connections && t.owners == t'.owners
  }

  function Owner(t: Tables, udp: nat): int {
    if udp in t.owners then t.owners[udp] else -1
  }

  function Route(t: Tables, udp: nat, cid: nat): int {
    if udp in t.connections && cid in t.connections[udp] then t.connections[udp][cid] else -1
  }

  /** Registering keeps the tables right exactly when no other socket of the UDP socket has the
      connection id. */
  lemma DistinctIdsAreNeeded(t: Tables, e: nat, udp: nat, owner: bool)
    requires Inv(t) && CanRegister(t, e, udp)
    ensures Inv(Registered(t, e, udp, owner)) <==> IdIsNew(t, e, udp)
  {
    if IdIsNew(t, e, udp) {
      RegisteredKeepsInv(t, e, udp, owner);
    } else {
      var t', c := Registered(t, e, udp, owner), t.entries[e].cid;
      assert ConnectionOk(t, udp) && Routes(t, udp, t.connections[udp][c]);
      var other := t.table[t.connections[udp][c]];
      assert t'.entries[other] == t.entries[other] && t.entries[other].fd == t.connections[udp][c];
      assert Named(t.table, t.entries, e) && Named(t.table, t.entries, other);
      assert !Indexed(t', other);
    }
  }

  /** What is in the index names a live, open socket that registered itself there. */
  lemma RoutesAreLive(t: Tables, udp: nat, cid: nat)
    requires Inv(t) && Route(t, udp, cid) != -1
    ensures Route(t, udp, cid) in t.table
    ensures var x := t.entries[t.table[Route(t, udp, cid)]];
            x.fd == Route(t, udp, cid) && x.open && x.udp == Some(udp) && x.cid == cid
  {
    assert ConnectionOk(t, udp) && Routes(t, udp, t.connections[udp][cid]);
  }

  lemma OwnersAreLive(t: Tables, udp: nat)
    requires Inv(t) && Owner(t, udp) != -1
    ensures Owner(t, udp) in t.table
    ensures var x := t.entries[t.table[Owner(t, udp)]]; x.fd == Owner(t, udp) && x.open && x.bound && x.udp == Some(udp)
  {
    assert Routes(t, udp, t.owners[udp]);
  }

  // Reuse of descriptors

  datatype Call = Make(stream: bool, server: bool, cid: nat) | Drop(e: nat)

  function Called(t: Tables, c: Call): Tables {
    match c
    case Make(stream, server, cid) => Created(t, stream, server, cid)
    case Drop(e) => if e < |t.entries| then Deleted(t, e) else t
  }

  function CalledAll(t: Tables, calls: seq<Call>): Tables
    decreases |calls|
  {
    if calls == [] then t else CalledAll(Called(t, calls[0]), calls[1..])
  }

  /** The descriptors that the calls free, in order. */
  function Freed(t: Tables, calls: seq<Call>): seq<int>
    decreases |calls|
  {
    if calls == [] then []
    else
      var c := calls[0];
      (if c.Drop? && c.e < |t.entries| && t.entries[c.e].fd >= 0 then [t.entries[c.e].fd] else [])
      + Freed(Called(t, c), calls[1..])
  }

  /** The descriptors that the calls hand out while some are free, in order. */
  function Reused(t: Tables, calls: seq<Call>): seq<int>
    decreases |calls|
  {
    if calls == [] then []
    else
      var t' := Called(t, calls[0]);
      (if calls[0].Make? && t.free != [] then [t'.entries[|t'.entries| - 1].fd] else [])
      + Reused(t', calls[1..])
  }

  /** Whatever is made and deleted in between, descriptors come back in the order they were freed. */
  lemma {:induction false} FirstFreedFirstReused(t: Tables, calls: seq<Call>)
    ensures t.free + Freed(t, calls) == Reused(t, calls) + CalledAll(t, calls).free
    decreases |calls|
  {
    if calls != [] {
      var t' := Called(t, calls[0]);
      FirstFreedFirstReused(t', calls[1..]);
      var freed, reused := OneCall(t, calls[0]);
      QueueOf(t.free, freed, reused, t'.free, Freed(t', calls[1..]), Reused(t', calls[1..]),
              CalledAll(t', calls[1..]).free);
    }
  }

  /** What comes in behind a queue goes out behind what was in it. */
  lemma QueueOf(q: seq<int>, into: seq<int>, out: seq<int>, q': seq<int>,
                into': seq<int>, out': seq<int>, q'': seq<int>)
    requires q + into == out + q' && q' + into' == out' + q''
    ensures q + (into + into') == (out + out') + q''
  {
    assert q + (into + into') == (q + into) + into';
    assert (out + q') + into' == out + (q' + into');
    assert out + (out' + q'') == (out + out') + q'';
  }

  lemma OneCall(t: Tables, c: Call) returns (freed: seq<int>, reused: seq<int>)
    ensures freed == if c.Drop? && c.e < |t.entries| && t.entries[c.e].fd >= 0 then [t.entries[c.e].fd] else []
    ensures var t' := Called(t, c);
            reused == if c.Make? && t.free != [] then [t'.entries[|t'.entries| - 1].fd] else []
    ensures t.free + freed == reused + Called(t, c).free
  {
    var t' := Called(t, c);
    freed := if c.Drop? && c.e < |t.entries| && t.entries[c.e].fd >= 0 then [t.entries[c.e].fd] else [];
    reused := if c.Make? && t.free != [] then [t'.entries[|t'.entries| - 1].fd] else [];
    assert t.free != [] ==> t.free == [t.free[0]] + t.free[1..];
  }

  /** Every UDP socket's owner is a descriptor in use. */
  ghost predicate OwnersLive(t: Tables) {
    forall u :: u in t.owners ==> t.owners[u] in t.table
  }

  /** One socket is closed, then another is closed and deleted. */
  function BothClosed(t: Tables, other: nat, e: nat): Tables
    requires other < |t.entries| && e < |t.entries|
  {
    Deleted(Closed(Closed(t, other), e), e)
  }

  lemma RouteTakenAlong(t: Tables, other: nat, e: nat, udp: nat)
    requires other < |t.entries| && e < |t.entries| && other != e && 0 <= t.entries[e].fd != t.entries[other].fd
    requires t.entries[other].udp == Some(udp) == t.entries[e].udp && t.entries[other].cid == t.entries[e].cid
    requires Route(t, udp, t.entries[e].cid) != -1 && Owner(t, udp) == t.entries[e].fd
    ensures var t', fd := BothClosed(t, other, e), t.entries[e].fd;
            Owner(t', udp) == fd && fd in t'.free && fd !in t'.table
  {
    var t2 := Closed(t, other);
    assert Route(t2, udp, t.entries[e].cid) == -1 && t2.owners == t.owners;
  }

  /** With an id that is taken, the socket that had it closes first and takes the route of the new
      one with it: when that closes too, the owner is a descriptor that is free again. */
  lemma SameIdLeavesDeadOwner(t: Tables, e: nat, udp: nat)
    requires Inv(t) && CanRegister(t, e, udp) && !IdIsNew(t, e, udp)
    ensures Route(t, udp, t.entries[e].cid) in t.table
    ensures var other := t.table[Route(t, udp, t.entries[e].cid)];
            && other < |t.entries| && other != e && t.entries[other].open
            && var t', fd := BothClosed(Registered(t, e, udp, true), other, e), t.entries[e].fd;
               Owner(t', udp) == fd && fd in t'.free && fd !in t'.table
  {
    var cid := t.entries[e].cid;
    RoutesAreLive(t, udp, cid);
    var other := t.table[Route(t, udp, cid)];
    assert Named(t.table, t.entries, e);
    RouteTakenAlong(Registered(t, e, udp, true), other, e, udp);
  }

  /** Registering an owner is safe exactly when its id is new: then, and only then, no other open
      socket can be closed first so that the new one leaves a dead owner behind. */
  lemma DeadOwnerExactly(t: Tables, e: nat, udp: nat)
    requires Inv(t) && CanRegister(t, e, udp)
    ensures IdIsNew(t, e, udp) <==>
            forall other :: 0 <= other < |t.entries| && other != e && t.entries[other].open ==>
              OwnersLive(BothClosed(Registered(t, e, udp, true), other, e))
  {
    if IdIsNew(t, e, udp) {
      forall other | 0 <= other < |t.entries| && other != e && t.entries[other].open
        ensures OwnersLive(BothClosed(Registered(t, e, udp, true), other, e))
      {
        NewIdIsSafe(t, e, udp, other);
      }
    } else {
      SameIdLeavesDeadOwner(t, e, udp);
    }
  }

  lemma NewIdIsSafe(t: Tables, e: nat, udp: nat, other: nat)
    requires Inv(t) && CanRegister(t, e, udp) && IdIsNew(t, e, udp)
    requires other < |t.entries| && other != e && t.entries[other].open
    ensures Inv(BothClosed(Registered(t, e, udp, true), other, e))
    ensures OwnersLive(BothClosed(Registered(t, e, udp, true), other, e))
  {
    var t1 := Registered(t, e, udp, true);
    RegisteredKeepsInv(t, e, udp, true);
    ClosedKeepsInv(t1, other);
    var t2 := Closed(t1, other);
    ClosedKeepsInv(t2, e);
    DeletedKeepsInv(Closed(t2, e), e);
    var t3 := Deleted(Closed(t2, e), e);
    forall u | u in t3.owners ensures t3.owners[u] in t3.table { assert Routes(t3, u, t3.owners[u]); }
  }

  /** It takes two owners of one UDP socket with one id. */
  lemma TwoOwnersRun() returns (t: Tables)
    ensures Owner(t, 9) == 2 && 2 !in t.table && 2 in t.free
  {
    CreatedKeepsInv(EMPTY, false, false, 5);
    t := Created(EMPTY, false, false, 5);
    CreatedKeepsInv(t, false, false, 5);
    t := Created(t, false, false, 5);
    assert t.entries[0] == Entry(1, false, false, true, None, 5, false, []);
    assert t.entries[1] == Entry(2, false, false, true, None, 5, false, []);
    RegisteredKeepsInv(t, 0, 9, true);
    t := Registered(t, 0, 9, true);
    assert t.entries[1] == Entry(2, false, false, true, None, 5, false, []) && !IdIsNew(t, 1, 9);
    SameIdLeavesDeadOwner(t, 1, 9);
    t := BothClosed(Registered(t, 1, 9, true), t.table[Route(t, 9, 5)], 1);
  }
}
