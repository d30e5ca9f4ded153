/**
 QuicTaskRunnerProxy of src/task_runner.{h,cpp}: the timers of one connection, which are put
 into a runner while the proxy is linked to one and taken out when it is not.

 Clock readings are parameters, in milliseconds.  The 64-bit sums are written out.
*/
module TimerProxy {
  import opened Basics

  const TWO63: nat := 0x8000_0000_0000_0000
  const TWO64: nat := 0x1_0000_0000_0000_0000

  /** A 64-bit word read as a signed number. */
  function Signed(w: int): (r: int)
    ensures -0x8000_0000_0000_0000 <= r < TWO63
  {
    var u := w % TWO64;
    if u < TWO63 then u else u - TWO64
  }

  /** Storage, with the deadline as the caller meant it beside the 64-bit one. */
  datatype Storage = Storage(deadline: nat, link: Option<nat>, meant: nat)

  /** A runner entry the proxy asked for: its due time, the storage it was made for, how often it
      was cancelled and run, what deadline was meant, and whether every sum on the way stayed
      below 2^63. */
  datatype Entry = Entry(due: int, storage: nat, cancels: nat, runs: nat, meant: nat, fits: bool)

  /** QuicTaskRunner::Schedule's key, and whether it is a true one. */
  function NewEntry(id: nat, now: nat, delay: nat, meant: nat): Entry {
    Entry(Signed(now + delay), id, 0, 0, meant, now + delay < TWO63 && meant < TWO63)
  }

  /** Link's remaining delay, from an unsigned comparison and subtraction. */
  function Remaining(now: nat, deadline: nat): nat {
    if now > deadline then 0 else deadline - now
  }

  /** An entry is due no earlier than was meant exactly when nothing overflowed. */
  predicate Timely(e: Entry) {
    e.fits <==> e.due >= e.meant
  }

  lemma ScheduleIsTimely(id: nat, now1: nat, now2: nat, delay: nat)
    requires now1 <= now2 < TWO63 && delay < TWO64
    ensures Timely(NewEntry(id, now2, delay, now1 + delay))
  {
  }

  lemma LinkIsTimely(id: nat, now1: nat, now2: nat, meant: nat)
    requires now1 <= now2 < TWO63 && meant < TWO63 + TWO64
    ensures Timely(NewEntry(id, now2, Remaining(now1, meant % TWO64), meant))
  {
  }

  type Storages = map<nat, Storage>
  type Entries = seq<Entry>

  /** Each storage outside `pending` holds the one uncancelled entry made for it; each in
      `pending` holds none, and nothing else is uncancelled. */
  ghost predicate Inv(pending: set<nat>, storages: Storages, entries: Entries, nextId: nat) {
    && (forall id {:trigger storages[id]} :: id in storages ==> StorageOk(pending, storages, entries, nextId, id))
    && (forall e {:trigger entries[e]} :: 0 <= e < |entries| ==> EntryOk(storages, entries, nextId, e))
  }

  ghost predicate StorageOk(pending: set<nat>, storages: Storages, entries: Entries, nextId: nat, id: nat)
    requires id in storages
  {
    var s := storages[id];
    && id < nextId && s.deadline == s.meant % TWO64 && s.meant < TWO63 + TWO64
    && (s.link.None? <==> id in pending)
    && (s.link.Some? ==>
          s.link.value < |entries| && entries[s.link.value].storage == id && entries[s.link.value].cancels == 0)
  }

  ghost predicate EntryOk(storages: Storages, entries: Entries, nextId: nat, e: nat)
    requires e < |entries|
  {
    var x := entries[e];
    && x.storage < nextId && x.cancels <= 1 && x.runs <= 1 && x.due < TWO63 && Timely(x)
    && (x.cancels == 0 ==>
          x.storage in storages && storages[x.storage].link == Some(e) && storages[x.storage].meant == x.meant)
  }

  /** runner_->Schedule and the assignment to link_ */
  function Linked(storages: Storages, entries: Entries, id: nat): Storages
    requires id in storages
  {
    storages[id := storages[id].(link := Some(|entries|))]
  }

  lemma LinkedKeepsInv(pending: set<nat>, storages: Storages, entries: Entries, nextId: nat, id: nat, x: Entry)
    requires Inv(pending, storages, entries, nextId) && id in storages && id in pending
    requires x.storage == id && x.cancels == 0 && x.runs == 0
    requires x.due < TWO63 && Timely(x) && x.meant == storages[id].meant
    ensures Inv(pending - {id}, Linked(storages, entries, id), entries + [x], nextId)
  {
    var storages', entries' := Linked(storages, entries, id), entries + [x];
    forall i | i in storages' ensures StorageOk(pending - {id}, storages', entries', nextId, i) {
      assert StorageOk(pending, storages, entries, nextId, i);
    }
    forall e | 0 <= e < |entries'| ensures EntryOk(storages', entries', nextId, e) {
      assert StorageOk(pending, storages, entries, nextId, id);
      if e < |entries| { assert EntryOk(storages, entries, nextId, e); }
    }
  }

  /** link_->Cancel() and link_.reset() */
  function Cancelled(entries: Entries, e: nat): Entries
    requires e < |entries|
  {
    entries[e := entries[e].(cancels := entries[e].cancels + 1)]
  }

  lemma UnlinkedKeepsInv(pending: set<nat>, storages: Storages, entries: Entries, nextId: nat, id: nat)
    requires Inv(pending, storages, entries, nextId) && id in storages && storages[id].link.Some?
    ensures storages[id].link.value < |entries| && entries[storages[id].link.value].cancels == 0
    ensures Inv(pending + {id}, storages[id := storages[id].(link := None)],
                Cancelled(entries, storages[id].link.value), nextId)
  {
    assert StorageOk(pending, storages, entries, nextId, id);
    var k := storages[id].link.value;
    var storages', entries' := storages[id := storages[id].(link := None)], Cancelled(entries, k);
    forall i | i in storages' ensures StorageOk(pending + {id}, storages', entries', nextId, i) {
      assert StorageOk(pending, storages, entries, nextId, i);
    }
    forall e | 0 <= e < |entries'| ensures EntryOk(storages', entries', nextId, e) {
      assert EntryOk(storages, entries, nextId, e);
    }
  }

  lemma ErasedKeepsInv(pending: set<nat>, storages: Storages, entries: Entries, nextId: nat, id: nat)
    requires Inv(pending, storages, entries, nextId) && id in storages && storages[id].link.None?
    ensures Inv(pending - {id}, storages - {id}, entries, nextId)
  {
    var storages' := storages - {id};
    forall i | i in storages' ensures StorageOk(pending - {id}, storages', entries, nextId, i) {
      assert StorageOk(pending, storages, entries, nextId, i);
    }
    forall e | 0 <= e < |entries| ensures EntryOk(storages', entries, nextId, e) {
      assert EntryOk(storages, entries, nextId, e);
    }
  }

  lemma AddedKeepsInv(pending: set<nat>, storages: Storages, entries: Entries, nextId: nat, s: Storage)
    requires Inv(pending, storages, entries, nextId) && nextId !in pending
    requires s.deadline == s.meant % TWO64 && s.meant < TWO63 + TWO64 && s.link.None?
    ensures Inv(pending + {nextId}, storages[nextId := s], entries, nextId + 1)
  {
    var storages', pending', next := storages[nextId := s], pending + {nextId}, nextId + 1;
    forall i | i in storages' ensures StorageOk(pending', storages', entries, next, i) {
      if i != nextId { assert StorageOk(pending, storages, entries, nextId, i); }
    }
    forall e | 0 <= e < |entries| ensures EntryOk(storages', entries, next, e) {
      assert EntryOk(storages, entries, nextId, e);
    }
  }

  /** The same entries, apart from being cancelled. */
  ghost predicate SameEntries(before: Entries, after: Entries) {
    |before| == |after| && forall e :: 0 <= e < |before| ==> SameButCancels(before[e], after[e])
  }

  predicate SameButCancels(x: Entry, y: Entry) {
    x.due == y.due && x.storage == y.storage && x.runs == y.runs && x.meant == y.meant && x.fits == y.fits
  }

  lemma Moved(a: set<nat>, b: set<nat>, x: nat)
    requires x in b
    ensures a + {x} + (b - {x}) == a + b
  {
  }

  lemma SameEntriesChain(a: Entries, b: Entries, c: Entries)
    requires SameEntries(a, b) && SameEntries(b, c)
    ensures SameEntries(a, c)
  {
  }

  /** New entries were made by Link, one after the other, each from the next two clock readings. */
  ghost predicate Extends(before: Entries, after: Entries, storages: Storages, reading: nat -> nat) {
    before <= after && forall e :: |before| <= e < |after| ==> MadeByLink(after[e], storages, reading, e - |before|)
  }

  predicate MadeByLink(x: Entry, storages: Storages, reading: nat -> nat, turn: nat) {
    && x.storage in storages
    && var s := storages[x.storage];
       x == NewEntry(x.storage, reading(2 * turn + 1), Remaining(reading(2 * turn), s.deadline), s.meant)
  }

  /** Link keeps the deadline, up to the time between its two clock readings; a timer that is
      overdue is due at once. */
  lemma LinkIsPrompt(id: nat, now1: nat, now2: nat, meant: nat)
    requires now1 <= now2 && NewEntry(id, now2, Remaining(now1, meant), meant).fits
    ensures NewEntry(id, now2, Remaining(now1, meant), meant).due ==
            if now1 > meant then now2 else meant + (now2 - now1)
  {
  }

  /** A nondecreasing clock, read again and again. */
  ghost predicate Clock(reading: nat -> nat) {
    forall i, j :: i <= j ==> reading(i) <= reading(j) < TWO63
  }

  /** The same timers, apart from their links. */
  ghost predicate SameStorages(before: Storages, after: Storages) {
    before.Keys == after.Keys && forall id :: id in before ==> SameTimer(before[id], after[id])
  }

  predicate SameTimer(s: Storage, s': Storage) { s.deadline == s'.deadline && s.meant == s'.meant }

  lemma SameStoragesChain(a: Storages, b: Storages, c: Storages)
    requires SameStorages(a, b) && SameStorages(b, c)
    ensures SameStorages(a, c)
  {
  }

  lemma NewHaveNotRun(before: Entries, after: Entries, storages: Storages, reading: nat -> nat)
    requires Extends(before, after, storages, reading)
    ensures forall e :: |before| <= e < |after| ==> after[e].runs == 0
  {
    forall e | |before| <= e < |after| ensures after[e].runs == 0 {
      assert MadeByLink(after[e], storages, reading, e - |before|);
    }
  }

  lemma ExtendsOneMore(a: Entries, b: Entries, c: Entries, storages: Storages, reading: nat -> nat, id: nat)
    requires Extends(a, b, storages, reading) && id in storages
    requires var turn := |b| - |a|; var s := storages[id];
             c == b + [NewEntry(id, reading(2 * turn + 1), Remaining(reading(2 * turn), s.deadline), s.meant)]
    ensures Extends(a, c, storages, reading)
  {
    forall e | |a| <= e < |c| ensures MadeByLink(c[e], storages, reading, e - |a|) {
      if e < |b| { assert MadeByLink(b[e], storages, reading, e - |a|); }
    }
  }

  class Proxy {
    var linked: bool
    var storages: Storages
    var entries: Entries
    var nextId: nat

    ghost predicate Valid()
      reads this
    {
      Inv(if linked then {} else storages.Keys, storages, entries, nextId)
    }

    constructor ()
      ensures Valid() && !linked && storages == map[] && entries == []
    {
      linked, storages, entries, nextId := false, map[], [], 0;
    }

    /** Schedule: the deadline from one clock reading, the runner's key from the next. */
    method Schedule(now1: nat, now2: nat, delay: nat) returns (id: nat)
      requires Valid() && now1 <= now2 < TWO63 && delay < TWO64
      modifies this
      ensures Valid() && linked == old(linked) && id == old(nextId) && id !in old(storages)
      ensures storages.Keys == old(storages).Keys + {id} && storages[id].meant == now1 + delay
      ensures storages - {id} == old(storages)
      ensures entries == if linked then old(entries) + [NewEntry(id, now2, delay, now1 + delay)] else old(entries)
    {
      id := nextId;
      ghost var pending := if linked then {} else storages.Keys;
      NextIsNew(pending, storages, entries, nextId);
      var s := Storage((now1 + delay) % TWO64, None, now1 + delay);
      AddedKeepsInv(pending, storages, entries, nextId, s);
      storages, nextId := storages[id := s], nextId + 1;
      if linked {
        var x := NewEntry(id, now2, delay, now1 + delay);
        ScheduleIsTimely(id, now1, now2, delay);
        LinkedKeepsInv(pending + {id}, storages, entries, nextId, id, x);
        storages := Linked(storages, entries, id);
        entries := entries + [x];
        assert pending + {id} - {id} == {};
      } else {
        assert pending + {id} == storages.Keys;
      }
    }

    /** Link: every storage gets an entry with what is left of its delay. */
    method Link(reading: nat -> nat) returns (ok: bool)
      requires Valid() && Clock(reading)
      modifies this
      ensures Valid() && linked && ok == !old(linked)
      ensures SameStorages(old(storages), storages) && Extends(old(entries), entries, old(storages), reading)
      ensures old(linked) ==> storages == old(storages) && entries == old(entries)
    {
      if linked { return false; }
      linked := true;
      var todo, turn: nat := storages.Keys, 0;
      while todo != {}
        invariant todo <= storages.Keys && linked && SameStorages(old(storages), storages)
        invariant Inv(todo, storages, entries, nextId) && Extends(old(entries), entries, old(storages), reading)
        invariant |entries| == |old(entries)| + turn
        decreases |todo|
      {
        var id :| id in todo;
        LinkTurn(todo, id, turn, reading, old(storages), old(entries));
        todo, turn := todo - {id}, turn + 1;
      }
      ok := true;
    }

    /** One turn of the loop of Link, after so many others */
    method LinkTurn(ghost todo: set<nat>, id: nat, turn: nat, reading: nat -> nat,
                    ghost storages0: Storages, ghost entries0: Entries)
      requires Inv(todo, storages, entries, nextId) && id in todo && id in storages && Clock(reading)
      requires SameStorages(storages0, storages) && Extends(entries0, entries, storages0, reading)
      requires |entries| == |entries0| + turn
      modifies this`storages, this`entries
      ensures Inv(todo - {id}, storages, entries, nextId) && storages.Keys == old(storages).Keys
      ensures SameStorages(storages0, storages) && Extends(entries0, entries, storages0, reading)
      ensures |entries| == |entries0| + turn + 1
    {
      LinkOne(todo, id, reading(2 * turn), reading(2 * turn + 1));
      SameStoragesChain(storages0, old(storages), storages);
      ExtendsOneMore(entries0, old(entries), entries, storages0, reading, id);
    }

    method LinkOne(ghost todo: set<nat>, id: nat, now1: nat, now2: nat)
      requires Inv(todo, storages, entries, nextId) && id in todo && id in storages && now1 <= now2 < TWO63
      modifies this`storages, this`entries
      ensures Inv(todo - {id}, storages, entries, nextId) && SameStorages(old(storages), storages)
      ensures entries == old(entries) +
                [NewEntry(id, now2, Remaining(now1, old(storages)[id].deadline), old(storages)[id].meant)]
    {
      assert StorageOk(todo, storages, entries, nextId, id);
      var s := storages[id];
      var x := NewEntry(id, now2, Remaining(now1, s.deadline), s.meant);
      LinkIsTimely(id, now1, now2, s.meant);
      LinkedKeepsInv(todo, storages, entries, nextId, id, x);
      storages := Linked(storages, entries, id);
      entries := entries + [x];
    }

    /** Unlink: every link is cancelled once and dropped. */
    method Unlink()
      requires Valid()
      modifies this
      ensures Valid() && !linked && SameStorages(old(storages), storages)
      ensures forall e :: 0 <= e < |entries| ==> entries[e].cancels == 1
      ensures SameEntries(old(entries), entries)
    {
      if linked { DropLinks(); }
      linked := false;
      AllCancelled(storages, entries, nextId);
    }

    method DropLinks()
      requires Inv({}, storages, entries, nextId)
      modifies this`storages, this`entries
      ensures Inv(storages.Keys, storages, entries, nextId)
      ensures SameStorages(old(storages), storages) && SameEntries(old(entries), entries)
    {
      var todo := storages.Keys;
      ghost var dropped: set<nat>, storages0, entries0 := {}, storages, entries;
      while todo != {}
        invariant storages.Keys == dropped + todo && Inv(dropped, storages, entries, nextId)
        invariant SameStorages(storages0, storages) && SameEntries(entries0, entries)
        decreases |todo|
      {
        var id :| id in todo;
        DropOne(dropped, id, storages0, entries0);
        Moved(dropped, todo, id);
        dropped, todo := dropped + {id}, todo - {id};
      }
      assert dropped + todo == dropped;
    }

    /** One turn of the loop of Unlink */
    method DropOne(ghost dropped: set<nat>, id: nat, ghost storages0: Storages, ghost entries0: Entries)
      requires id in storages && Inv(dropped, storages, entries, nextId)
      requires SameStorages(storages0, storages) && SameEntries(entries0, entries)
      modifies this`storages, this`entries
      ensures storages.Keys == old(storages).Keys && Inv(dropped + {id}, storages, entries, nextId)
      ensures SameStorages(storages0, storages) && SameEntries(entries0, entries)
    {
      UnlinkOne(dropped, id);
      SameEntriesChain(entries0, old(entries), entries);
      SameStoragesChain(storages0, old(storages), storages);
    }

    method UnlinkOne(ghost pending: set<nat>, id: nat)
      requires Inv(pending, storages, entries, nextId) && id in storages
      modifies this`storages, this`entries
      ensures Inv(pending + {id}, storages, entries, nextId)
      ensures storages == old(storages)[id := old(storages)[id].(link := None)]
      ensures SameEntries(old(entries), entries)
      ensures forall e :: 0 <= e < |entries| && entries[e].storage != id ==> entries[e] == old(entries)[e]
    {
      assert StorageOk(pending, storages, entries, nextId, id);
      if storages[id].link.Some? {
        UnlinkedKeepsInv(pending, storages, entries, nextId, id);
        entries := Cancelled(entries, storages[id].link.value);
        storages := storages[id := storages[id].(link := None)];
      } else {
        assert pending + {id} == pending;
      }
    }

    /** ProxyScheduledTask::Cancel: the handle lets go of its storage, so a second call finds
        nothing. */
    method Cancel(id: nat)
      requires Valid()
      modifies this
      ensures Valid() && linked == old(linked) && storages == old(storages) - {id}
      ensures SameEntries(old(entries), entries)
      ensures forall e :: 0 <= e < |entries| && entries[e].storage != id ==> entries[e] == old(entries)[e]
      ensures forall e :: 0 <= e < |entries| && entries[e].storage == id ==> entries[e].cancels == 1
      ensures id !in old(storages) ==> entries == old(entries)
    {
      ghost var pending := if linked then {} else storages.Keys;
      if id in storages {
        UnlinkOne(pending, id);
        ErasedKeepsInv(pending + {id}, storages, entries, nextId, id);
        storages := storages - {id};
        assert pending + {id} - {id} == if linked then {} else storages.Keys;
      }
      NoneLeft(if linked then {} else storages.Keys, storages, entries, nextId, id);
    }

    /** RunOnce fires an entry whose due time has passed.  It may have been cancelled: a Cancel from
        inside RunOnce does not stop an entry that the same RunOnce has already collected. */
    method Fire(e: nat, now: nat)
      requires Valid() && e < |entries| && entries[e].runs == 0 && now > entries[e].due
      modifies this`entries
      ensures Valid() && entries == old(entries)[e := old(entries)[e].(runs := 1)]
      ensures entries[e].fits ==> now > entries[e].meant
    {
      ghost var pending := if linked then {} else storages.Keys;
      FiredKeepsInv(pending, storages, entries, nextId, e);
      entries := entries[e := entries[e].(runs := 1)];
    }
  }

  lemma NextIsNew(pending: set<nat>, storages: Storages, entries: Entries, nextId: nat)
    requires Inv(pending, storages, entries, nextId)
    ensures nextId !in storages
  {
    forall id | id in storages ensures id < nextId {
      assert StorageOk(pending, storages, entries, nextId, id);
    }
  }

  lemma AllCancelled(storages: Storages, entries: Entries, nextId: nat)
    requires Inv(storages.Keys, storages, entries, nextId)
    ensures forall e :: 0 <= e < |entries| ==> entries[e].cancels == 1
  {
    forall e | 0 <= e < |entries| ensures entries[e].cancels == 1 {
      assert EntryOk(storages, entries, nextId, e);
      var id := entries[e].storage;
      if id in storages { assert StorageOk(storages.Keys, storages, entries, nextId, id); }
    }
  }

  lemma NoneLeft(pending: set<nat>, storages: Storages, entries: Entries, nextId: nat, id: nat)
    requires Inv(pending, storages, entries, nextId) && id !in storages
    ensures forall e :: 0 <= e < |entries| && entries[e].storage == id ==> entries[e].cancels == 1
  {
    forall e | 0 <= e < |entries| && entries[e].storage == id ensures entries[e].cancels == 1 {
      assert EntryOk(storages, entries, nextId, e);
    }
  }

  lemma FiredKeepsInv(pending: set<nat>, storages: Storages, entries: Entries, nextId: nat, e: nat)
    requires Inv(pending, storages, entries, nextId) && e < |entries| && entries[e].runs == 0
    ensures Inv(pending, storages, entries[e := entries[e].(runs := 1)], nextId) && Timely(entries[e])
  {
    var entries' := entries[e := entries[e].(runs := 1)];
    assert EntryOk(storages, entries, nextId, e);
    forall i | i in storages ensures StorageOk(pending, storages, entries', nextId, i) {
      assert StorageOk(pending, storages, entries, nextId, i);
    }
    forall k | 0 <= k < |entries'| ensures EntryOk(storages, entries', nextId, k) {
      assert EntryOk(storages, entries, nextId, k);
    }
  }

  predicate Current(x: Entry, id: nat) { x.storage == id && x.cancels == 0 }

  /** Linked, each storage has exactly one uncancelled entry; unlinked, there is none at all. */
  lemma OneEntryEach(linked: bool, storages: Storages, entries: Entries, nextId: nat, id: nat)
    requires Inv(if linked then {} else storages.Keys, storages, entries, nextId) && id in storages
    ensures linked ==> exists e :: 0 <= e < |entries| && Current(entries[e], id)
    ensures forall e, f ::
              0 <= e < |entries| && 0 <= f < |entries| && Current(entries[e], id) && Current(entries[f], id) ==> e == f
    ensures !linked ==> forall e :: 0 <= e < |entries| ==> entries[e].cancels == 1
  {
    var pending := if linked then {} else storages.Keys;
    assert StorageOk(pending, storages, entries, nextId, id);
    if linked {
      var e := storages[id].link.value;
      assert Current(entries[e], id);
    } else {
      AllCancelled(storages, entries, nextId);
    }
  }

  /** An entry that the runner will fire. */
  predicate Queued(x: Entry, id: nat) { Current(x, id) && x.runs == 0 }

  lemma QueuedAnew(storages: Storages, entries: Entries, nextId: nat, n: nat, id: nat)
    requires Inv({}, storages, entries, nextId) && n <= |entries|
    requires forall e :: 0 <= e < n ==> entries[e].cancels == 1
    requires forall e :: n <= e < |entries| ==> entries[e].runs == 0
    ensures (exists e :: 0 <= e < |entries| && Queued(entries[e], id)) <==> id in storages
  {
    if id in storages {
      assert StorageOk({}, storages, entries, nextId, id);
      assert Queued(entries[storages[id].link.value], id);
    } else {
      NoneLeft({}, storages, entries, nextId, id);
    }
  }

  /** Moving from one epoller to another: Unlink and then Link.  A timer is queued anew exactly
      if nobody has cancelled it, and that it has run before makes no difference. */
  method Relink(p: Proxy, reading: nat -> nat)
    requires p.Valid() && Clock(reading)
    modifies p
    ensures p.Valid() && p.linked && p.storages.Keys == old(p.storages.Keys)
    ensures forall id ::
              (exists e :: 0 <= e < |p.entries| && Queued(p.entries[e], id)) <==> id in old(p.storages)
  {
    p.Unlink();
    ghost var st, before := p.storages, p.entries;
    var ok := p.Link(reading);
    NewHaveNotRun(before, p.entries, st, reading);
    ghost var n := |before|;
    forall id ensures (exists e :: 0 <= e < |p.entries| && Queued(p.entries[e], id)) <==> id in p.storages {
      QueuedAnew(p.storages, p.entries, p.nextId, n, id);
    }
  }

  method NewLink(p: Proxy, id: nat, ghost n: nat) returns (k: nat)
    requires p.Valid() && p.linked && id in p.storages && n <= |p.entries|
    requires forall e :: 0 <= e < n ==> p.entries[e].cancels == 1
    ensures n <= k < |p.entries| && Current(p.entries[k], id) && p.entries[k].due < TWO63
  {
    assert StorageOk({}, p.storages, p.entries, p.nextId, id);
    k := p.storages[id].link.value;
    assert EntryOk(p.storages, p.entries, p.nextId, k);
  }

  lemma OverdueIsDueNow(x: Entry, storages: Storages, reading: nat -> nat, turn: nat, now: nat)
    requires MadeByLink(x, storages, reading, turn) && forall i :: reading(i) == now
    requires var s := storages[x.storage]; s.meant <= now < TWO63 && s.deadline == s.meant % TWO64
    ensures x.due == now && x.runs == 0
  {
    var s := storages[x.storage];
    assert s.deadline == s.meant && Remaining(now, s.deadline) == 0;
  }

  method QueueAgain(p: Proxy, id: nat, now: nat) returns (k: nat)
    requires p.Valid() && id in p.storages && p.storages[id].meant <= now < TWO63
    modifies p
    ensures p.Valid() && k < |p.entries| && Queued(p.entries[k], id) && p.entries[k].due == now
  {
    p.Unlink();
    ghost var st, n := p.storages, |p.entries|;
    assert StorageOk(st.Keys, st, p.entries, p.nextId, id);
    var reading := (i: nat) => now;
    var ok := p.Link(reading);
    k := NewLink(p, id, n);
    assert MadeByLink(p.entries[k], st, reading, k - n);
    OverdueIsDueNow(p.entries[k], st, reading, k - n, now);
  }

  /** So the next RunOnce after such a move runs every overdue timer that is still there. */
  method RunAgain(p: Proxy, id: nat, now: nat) returns (x: Entry)
    requires p.Valid() && id in p.storages && p.storages[id].meant <= now < TWO63
    modifies p
    ensures p.Valid() && x.storage == id && x.due == now && x.runs == 1
  {
    var k := QueueAgain(p, id, now);
    p.Fire(k, now + 1);
    x := p.entries[k];
  }

  /** A timer that fired stays in the proxy until it is cancelled: linking again runs it again. */
  method FiresAgain() returns (first: Entry, second: Entry)
    ensures first.storage == second.storage && first.runs == 1 && second.runs == 1
    ensures first.due == 5 && second.due == 6
  {
    var p := new Proxy();
    var ok := p.Link(i => 0);
    var id := p.Schedule(0, 0, 5);
    var last := |p.entries| - 1;
    p.Fire(last, 6);
    first := p.entries[last];
    second := RunAgain(p, id, 6);
  }

  /** A delay near 2^63 wraps: the entry is due in the past. */
  lemma HugeDelayIsEarly()
    ensures NewEntry(0, 1, TWO63 - 1, TWO63).due == 0 - TWO63
  {
  }
}
