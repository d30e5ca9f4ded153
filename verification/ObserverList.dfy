/**
 The observer list of libquic/base/observer_list.h: a vector of observer pointers that may be
 changed while it is being iterated, by any number of nested iterations.  While an iterator
 is alive a removed observer leaves a null slot; the last iterator to go compacts the vector.

 Every AddObserver gets a registration number, kept beside the vector as specification state
 only: an observer that is removed and added again is a new registration.
*/
module ObserverList {
  import opened Basics

  type Observer = nat

  datatype Policy = All | ExistingOnly

  type Slots = seq<Option<Observer>>

  /** The plain list that a vector with null slots stands for. */
  function Plain(slots: Slots): seq<Observer> {
    if slots == [] then []
    else if slots[0].None? then Plain(slots[1..])
    else [slots[0].value] + Plain(slots[1..])
  }

  function Without(q: seq<Observer>, o: Observer): seq<Observer> {
    if q == [] then [] else if q[0] == o then Without(q[1..], o) else [q[0]] + Without(q[1..], o)
  }

  predicate Increasing(q: seq<nat>) {
    forall i, j :: 0 <= i < j < |q| ==> q[i] < q[j]
  }

  predicate NoRepeats(q: seq<Observer>) {
    forall i, j :: 0 <= i < j < |q| ==> q[i] != q[j]
  }

  lemma PlainAppend(a: Slots, b: Slots)
    ensures Plain(a + b) == Plain(a) + Plain(b)
  {
    if a == [] {
      assert a + b == b;
    } else {
      assert (a + b)[1..] == a[1..] + b;
      PlainAppend(a[1..], b);
    }
  }

  lemma PlainHas(slots: Slots, o: Observer)
    ensures o in Plain(slots) <==> Some(o) in slots
  {
    if slots != [] {
      PlainHas(slots[1..], o);
      assert slots == [slots[0]] + slots[1..];
    }
  }

  lemma WithoutAbsent(q: seq<Observer>, o: Observer)
    requires o !in q
    ensures Without(q, o) == q
  {
    if q != [] { WithoutAbsent(q[1..], o); }
  }

  lemma WithoutAppend(a: seq<Observer>, b: seq<Observer>, o: Observer)
    ensures Without(a + b, o) == Without(a, o) + Without(b, o)
  {
    if a == [] {
      assert a + b == b;
    } else {
      assert (a + b)[1..] == a[1..] + b;
      WithoutAppend(a[1..], b, o);
    }
  }

  lemma MiddleIsUnique(p: seq<Observer>, o: Observer, q: seq<Observer>)
    requires NoRepeats(p + ([o] + q))
    ensures o !in p && o !in q && NoRepeats(p + q)
  {
    var all := p + ([o] + q);
    assert all[|p|] == o;
    assert forall i :: 0 <= i < |p| ==> all[i] == p[i];
    assert forall i :: 0 <= i < |q| ==> all[|p| + 1 + i] == q[i];
    assert forall i :: 0 <= i < |p + q| ==> (p + q)[i] == all[if i < |p| then i else i + 1];
  }

  /** Nulling a slot and erasing it both take the observer, and only it, off the plain list. */
  lemma PlainRemove(slots: Slots, k: nat)
    requires NoRepeats(Plain(slots)) && k < |slots| && slots[k].Some?
    ensures Plain(slots[k := None]) == Without(Plain(slots), slots[k].value)
    ensures Plain(slots[..k] + slots[k + 1..]) == Without(Plain(slots), slots[k].value)
    ensures NoRepeats(Without(Plain(slots), slots[k].value))
  {
    var a, o, b := slots[..k], slots[k].value, slots[k + 1..];
    var p, q := Plain(a), Plain(b);
    assert slots == a + ([Some(o)] + b) && slots[k := None] == a + ([None] + b);
    PlainAppend(a, [Some(o)] + b);
    PlainAppend(a, [None] + b);
    PlainAppend(a, b);
    assert ([Some(o)] + b)[1..] == b && ([None] + b)[1..] == b;
    assert Plain(slots) == p + ([o] + q);
    MiddleIsUnique(p, o, q);
    WithoutAbsent(p, o);
    WithoutAbsent(q, o);
    WithoutAppend(p, [o] + q, o);
    assert ([o] + q)[1..] == q;
  }

  function Nulls(n: nat): (slots: Slots)
    ensures |slots| == n && forall i :: 0 <= i < n ==> slots[i].None?
    ensures Plain(slots) == []
  {
    if n == 0 then [] else [None] + Nulls(n - 1)
  }

  /** A vector without null slots. */
  function Packed(q: seq<Observer>): (slots: Slots)
    ensures |slots| == |q| && forall i :: 0 <= i < |q| ==> slots[i] == Some(q[i])
    ensures Plain(slots) == q
  {
    if q == [] then [] else [Some(q[0])] + Packed(q[1..])
  }

  lemma IncreasingCons(x: nat, q: seq<nat>)
    requires Increasing(q) && forall y :: y in q ==> x < y
    ensures Increasing([x] + q)
  {
    assert forall i :: 0 <= i < |q| ==> q[i] in q;
  }

  /** The registration numbers of the slots that are not null. */
  function KeptIds(slots: Slots, ids: seq<nat>): (r: seq<nat>)
    requires |slots| == |ids| && Increasing(ids)
    ensures |r| == |Plain(slots)| && Increasing(r)
    ensures forall x :: x in r ==> x in ids
  {
    if slots == [] then []
    else
      var rest := KeptIds(slots[1..], ids[1..]);
      if slots[0].None? then rest
      else
        IncreasingCons(ids[0], rest);
        [ids[0]] + rest
  }

  /** The registrations of `q` that were not found gone, in order. */
  function Seen(q: seq<nat>, skipped: set<nat>): (r: seq<nat>)
    ensures forall x :: x in r <==> x in q && x !in skipped
  {
    if q == [] then []
    else
      var rest := Seen(q[1..], skipped);
      assert q == [q[0]] + q[1..];
      if q[0] in skipped then rest else [q[0]] + rest
  }

  lemma SeenIncreasing(q: seq<nat>, skipped: set<nat>)
    requires Increasing(q)
    ensures Increasing(Seen(q, skipped))
  {
    if q != [] {
      SeenIncreasing(q[1..], skipped);
      IncreasingCons(q[0], Seen(q[1..], skipped));
    }
  }

  lemma SeenSnoc(q: seq<nat>, x: nat, skipped: set<nat>)
    ensures Seen(q + [x], skipped) == Seen(q, skipped) + if x in skipped then [] else [x]
  {
    if q == [] {
      assert q + [x] == [x];
    } else {
      assert (q + [x])[1..] == q[1..] + [x];
      SeenSnoc(q[1..], x, skipped);
    }
  }

  lemma SeenFrame(q: seq<nat>, skipped: set<nat>, more: set<nat>)
    requires forall x :: x in q ==> x !in more
    ensures Seen(q, skipped + more) == Seen(q, skipped)
  {
    if q != [] { SeenFrame(q[1..], skipped, more); }
  }

  /** What an iterator knows: it has seen, in order, every registration it has passed except
      those it found gone, and under ExistingOnly its bound separates old from new. */
  ghost predicate CursorOk(slots: Slots, ids: seq<nat>, next: nat, policy: Policy,
                           reached: nat, bound: Option<nat>, start: nat, visited: seq<nat>, skipped: set<nat>)
  {
    && |ids| == |slots| && Increasing(ids) && (forall j :: 0 <= j < |ids| ==> ids[j] < next)
    && start <= next
    && reached <= (if bound.Some? then bound.value else |ids|)
    && (bound.None? <==> policy.All?)
    && (bound.Some? ==>
          bound.value <= |ids| && forall j :: 0 <= j < |ids| ==> (j < bound.value <==> ids[j] < start))
    && visited == Seen(ids[..reached], skipped)
    && (forall j :: 0 <= j < |ids| && ids[j] in skipped ==> j < reached && slots[j].None?)
    && (forall r :: r in skipped ==> r < next)
  }

  lemma CursorGrows(slots: Slots, ids: seq<nat>, next: nat, policy: Policy,
                    reached: nat, bound: Option<nat>, start: nat, visited: seq<nat>, skipped: set<nat>, o: Observer)
    requires CursorOk(slots, ids, next, policy, reached, bound, start, visited, skipped)
    requires Increasing(ids + [next])
    ensures CursorOk(slots + [Some(o)], ids + [next], next + 1, policy, reached, bound, start, visited, skipped)
  {
    assert (ids + [next])[..reached] == ids[..reached];
  }

  lemma CursorNulled(slots: Slots, slots': Slots, ids: seq<nat>, next: nat, policy: Policy,
                     reached: nat, bound: Option<nat>, start: nat, visited: seq<nat>, skipped: set<nat>)
    requires CursorOk(slots, ids, next, policy, reached, bound, start, visited, skipped)
    requires |slots'| == |slots| && forall j :: 0 <= j < |slots| && slots[j].None? ==> slots'[j].None?
    ensures CursorOk(slots', ids, next, policy, reached, bound, start, visited, skipped)
  {
  }

  /** The iterator steps over a null slot. */
  lemma CursorSkips(slots: Slots, ids: seq<nat>, next: nat, policy: Policy,
                    reached: nat, bound: Option<nat>, start: nat, visited: seq<nat>, skipped: set<nat>)
    requires CursorOk(slots, ids, next, policy, reached, bound, start, visited, skipped)
    requires reached < |ids| && (bound.Some? ==> reached < bound.value)
    requires slots[reached].None?
    ensures CursorOk(slots, ids, next, policy, reached + 1, bound, start, visited, skipped + {ids[reached]})
  {
    assert ids[..reached + 1] == ids[..reached] + [ids[reached]];
    SeenSnoc(ids[..reached], ids[reached], skipped + {ids[reached]});
    SeenFrame(ids[..reached], skipped, {ids[reached]});
  }

  /** The iterator steps onto a registration that is still there. */
  lemma CursorVisits(slots: Slots, ids: seq<nat>, next: nat, policy: Policy,
                     reached: nat, bound: Option<nat>, start: nat, visited: seq<nat>, skipped: set<nat>)
    requires CursorOk(slots, ids, next, policy, reached, bound, start, visited, skipped)
    requires reached < |ids| && (bound.Some? ==> reached < bound.value)
    requires slots[reached].Some?
    ensures CursorOk(slots, ids, next, policy, reached + 1, bound, start, visited + [ids[reached]], skipped)
  {
    assert ids[..reached + 1] == ids[..reached] + [ids[reached]];
    SeenSnoc(ids[..reached], ids[reached], skipped);
  }

  lemma CursorBegins(slots: Slots, ids: seq<nat>, next: nat, policy: Policy)
    requires |slots| == |ids| && Increasing(ids) && forall j :: 0 <= j < |ids| ==> ids[j] < next
    ensures CursorOk(slots, ids, next, policy, 0, if policy.All? then None else Some(|slots|), next, [], {})
  {
  }

  /** At any moment: visits are in registration order and at most once, only of what it has
      passed, and under ExistingOnly never of a registration made after the start. */
  lemma VisitsInOrder(slots: Slots, ids: seq<nat>, next: nat, policy: Policy,
                      reached: nat, bound: Option<nat>, start: nat, visited: seq<nat>, skipped: set<nat>)
    requires CursorOk(slots, ids, next, policy, reached, bound, start, visited, skipped)
    ensures Increasing(visited)
    ensures forall r :: r in visited ==> r in ids[..reached]
    ensures policy.ExistingOnly? ==> forall r :: r in visited ==> r < start
  {
    SeenIncreasing(ids[..reached], skipped);
  }

  /** At its end: the iterator has visited every registration it was to visit, except those
      whose slot was null when it got there; so it has visited all that are still there. */
  lemma VisitsAll(slots: Slots, ids: seq<nat>, next: nat, policy: Policy,
                  reached: nat, bound: Option<nat>, start: nat, visited: seq<nat>, skipped: set<nat>, j: nat)
    requires CursorOk(slots, ids, next, policy, reached, bound, start, visited, skipped)
    requires reached == if bound.Some? then bound.value else |ids|
    requires j < |ids| && (policy.All? || ids[j] < start)
    ensures ids[j] in visited <==> ids[j] !in skipped
    ensures slots[j].Some? ==> ids[j] in visited
  {
    assert ids[..reached][j] == ids[j];
  }

  lemma CompactIds(slots: Slots, ids: seq<nat>, next: nat)
    requires |ids| == |slots| && Increasing(ids) && forall j :: 0 <= j < |ids| ==> ids[j] < next
    ensures var kept := KeptIds(slots, ids); Increasing(kept) && forall j :: 0 <= j < |kept| ==> kept[j] < next
  {
    var kept := KeptIds(slots, ids);
    forall j | 0 <= j < |kept| ensures kept[j] < next {
      assert kept[j] in kept;
    }
  }

  lemma AppendSlot(slots: Slots, ids: seq<nat>, next: nat, o: Observer)
    requires |ids| == |slots| && Increasing(ids) && NoRepeats(Plain(slots)) && o !in Plain(slots)
    requires forall j :: 0 <= j < |ids| ==> ids[j] < next
    ensures Plain(slots + [Some(o)]) == Plain(slots) + [o]
    ensures Increasing(ids + [next]) && NoRepeats(Plain(slots + [Some(o)]))
    ensures forall j :: 0 <= j < |ids + [next]| ==> (ids + [next])[j] < next + 1
  {
    PlainAppend(slots, [Some(o)]);
    assert [Some(o)][1..] == [];
  }

  class ObserverList {
    var observers: Slots
    var liveIterators: nat
    const policy: Policy
    ghost var ids: seq<nat>
    ghost var next: nat
    ghost var iters: set<Iter>

    ghost predicate SlotsOk()
      reads this
    {
      && |ids| == |observers| && Increasing(ids) && NoRepeats(Plain(observers))
      && (forall j :: 0 <= j < |ids| ==> ids[j] < next)
      && liveIterators == |iters|
    }

    ghost predicate Valid()
      reads this, iters
    {
      && SlotsOk()
      && (liveIterators == 0 ==> forall j :: 0 <= j < |observers| ==> observers[j].Some?)
      && (forall it :: it in iters ==> it.list == this && it.Ok(observers, ids, next, policy))
    }

    constructor (policy: Policy)
      ensures Valid() && Plain(observers) == [] && iters == {} && this.policy == policy
    {
      this.policy := policy;
      observers, liveIterators := [], 0;
      ids, next, iters := [], 0, {};
    }

    /** std::find: the first slot with the observer, or the end. */
    method Find(o: Observer) returns (k: nat)
      ensures k <= |observers| && Some(o) !in observers[..k]
      ensures k < |observers| ==> observers[k] == Some(o)
    {
      k := 0;
      while k < |observers| && observers[k] != Some(o)
        invariant k <= |observers| && Some(o) !in observers[..k]
      {
        k := k + 1;
      }
    }

    method HasObserver(o: Observer) returns (has: bool)
      ensures has <==> o in Plain(observers)
    {
      var k := Find(o);
      PlainHas(observers, o);
      has := k < |observers|;
      assert observers[..|observers|] == observers;
    }

    method AddObserver(o: Observer)
      requires Valid()
      modifies this
      ensures Valid() && iters == old(iters)
      ensures var was := old(Plain(observers)); Plain(observers) == if o in was then was else was + [o]
      ensures old(observers) <= observers && old(ids) <= ids
    {
      var has := HasObserver(o);
      if has { return; }
      PushBack(o);
    }

    lemma ItersGrow(o: Observer)
      requires Valid() && Increasing(ids + [next])
      ensures forall it :: it in iters ==> it.Ok(observers + [Some(o)], ids + [next], next + 1, policy)
    {
      forall it | it in iters ensures it.Ok(observers + [Some(o)], ids + [next], next + 1, policy) {
        CursorGrows(observers, ids, next, policy, it.Reached(), it.maxIndex, it.start, it.visited, it.skipped, o);
      }
    }

    method PushBack(o: Observer)
      requires Valid() && o !in Plain(observers)
      modifies this
      ensures Valid() && iters == old(iters) && Plain(observers) == old(Plain(observers)) + [o]
      ensures old(observers) <= observers && old(ids) <= ids
    {
      AppendSlot(observers, ids, next, o);
      ItersGrow(o);
      ghost var slots', ids', next' := observers + [Some(o)], ids + [next], next + 1;
      observers := observers + [Some(o)];
      ids, next := ids + [next], next + 1;
      assert SlotsOk();
      assert forall it :: it in iters ==> it.list == this && it.Ok(slots', ids', next', policy);
    }

    method RemoveObserver(o: Observer)
      requires Valid()
      modifies this
      ensures Valid() && iters == old(iters)
      ensures Plain(observers) == Without(old(Plain(observers)), o)
      ensures iters != {} ==> ids == old(ids)
    {
      var k := Find(o);
      if k == |observers| {
        PlainHas(observers, o);
        assert observers[..k] == observers;
        WithoutAbsent(Plain(observers), o);
        return;
      }
      PlainRemove(observers, k);
      if liveIterators > 0 {
        forall it | it in iters ensures it.Ok(observers[k := None], ids, next, policy) {
          CursorNulled(observers, observers[k := None], ids, next, policy,
                       it.Reached(), it.maxIndex, it.start, it.visited, it.skipped);
        }
        observers := observers[k := None];
      } else {
        observers := observers[..k] + observers[k + 1..];
        ids := ids[..k] + ids[k + 1..];
      }
    }

    method Clear()
      requires Valid()
      modifies this
      ensures Valid() && iters == old(iters)
      ensures Plain(observers) == []
      ensures iters != {} ==> ids == old(ids)
    {
      if liveIterators > 0 {
        observers := Nulls(|observers|);
      } else {
        observers, ids := [], [];
      }
    }

    /** begin(): no iterator at all for an empty vector. */
    method Begin() returns (it: Iter?)
      requires Valid()
      modifies this
      ensures Valid() && observers == old(observers) && ids == old(ids) && next == old(next)
      ensures it == null <==> observers == []
      ensures iters == old(iters) + if it == null then {} else {it}
      ensures it != null ==> it !in old(iters) && it.start == next
    {
      if observers == [] {
        it := null;
      } else {
        it := new Iter(this);
      }
    }

    /** ++live_iterator_count_ */
    method Attach(it: Iter)
      requires Valid() && it !in iters && it.list == this && it.Ok(observers, ids, next, policy)
      modifies `liveIterators, `iters
      ensures Valid() && iters == old(iters) + {it}
    {
      liveIterators := liveIterators + 1;
      iters := iters + {it};
    }

    /** Erase the null slots; only ever done with no iterator left. */
    method Compact()
      requires SlotsOk() && iters == {}
      modifies this
      ensures Valid() && iters == {} && Plain(observers) == old(Plain(observers))
    {
      var kept := NotNull(observers);
      CompactIds(observers, ids, next);
      ids := KeptIds(observers, ids);
      observers := kept;
    }
  }

  /** std::remove of the null slots */
  method NotNull(slots: Slots) returns (kept: Slots)
    ensures kept == Packed(Plain(slots))
  {
    kept := [];
    var i := 0;
    while i < |slots|
      invariant i <= |slots| && kept == Packed(Plain(slots[..i]))
    {
      NotNullNext(slots, i, kept);
      if slots[i].Some? { kept := kept + [slots[i]]; }
      i := i + 1;
    }
    assert slots[..i] == slots;
  }

  lemma NotNullNext(slots: Slots, i: nat, kept: Slots)
    requires i < |slots| && kept == Packed(Plain(slots[..i]))
    ensures (if slots[i].Some? then kept + [slots[i]] else kept) == Packed(Plain(slots[..i + 1]))
  {
    assert slots[..i + 1] == slots[..i] + [slots[i]];
    PlainAppend(slots[..i], [slots[i]]);
  }

  /** The loop of EnsureValidIndex: on to the first slot that is not null, or to the end. */
  method FirstSome(slots: Slots, ghost ids: seq<nat>, ghost next: nat, ghost policy: Policy, from: nat,
                   bound: Option<nat>, ghost start: nat, ghost visited: seq<nat>, ghost skipped: set<nat>)
    returns (i: nat, ghost gone: set<nat>)
    requires CursorOk(slots, ids, next, policy, from, bound, start, visited, skipped)
    ensures CursorOk(slots, ids, next, policy, i, bound, start, visited, gone)
    ensures from <= i <= ClampedTo(slots, bound) && (i < ClampedTo(slots, bound) ==> slots[i].Some?)
    ensures forall j :: from <= j < i ==> slots[j].None?
  {
    var end := ClampedTo(slots, bound);
    i, gone := from, skipped;
    while i < end && slots[i].None?
      invariant from <= i <= end
      invariant CursorOk(slots, ids, next, policy, i, bound, start, visited, gone)
      invariant forall j :: from <= j < i ==> slots[j].None?
    {
      CursorSkips(slots, ids, next, policy, i, bound, start, visited, gone);
      gone := gone + {ids[i]};
      i := i + 1;
    }
  }

  function ClampedTo(slots: Slots, bound: Option<nat>): nat {
    if bound.Some? && bound.value < |slots| then bound.value else |slots|
  }

  class Iter {
    const list: ObserverList
    var index: nat
    var maxIndex: Option<nat>
    /** Registrations numbered below `start` were made before the iteration began. */
    ghost var start: nat
    /** The registrations this iterator has stood on, and those it found gone. */
    ghost var visited: seq<nat>
    ghost var skipped: set<nat>
    /** It has been found at its end. */
    ghost var ended: bool

    function Clamped(): nat
      reads this, list
    {
      ClampedTo(list.observers, maxIndex)
    }

    /** How many slots the iterator has dealt with. */
    ghost function Reached(): nat
      reads this
    {
      if ended then index else index + 1
    }

    ghost predicate Ok(slots: Slots, ids: seq<nat>, next: nat, policy: Policy)
      reads this
    {
      CursorOk(slots, ids, next, policy, Reached(), maxIndex, start, visited, skipped)
    }

    method SkipNulls()
      requires Ok(list.observers, list.ids, list.next, list.policy) && ended
      modifies `index, `skipped
      ensures Ok(list.observers, list.ids, list.next, list.policy)
      ensures old(index) <= index <= Clamped()
      ensures index < Clamped() ==> list.observers[index].Some?
      ensures forall j :: old(index) <= j < index ==> list.observers[j].None?
    {
      ghost var gone;
      index, gone := FirstSome(list.observers, list.ids, list.next, list.policy,
                               index, maxIndex, start, visited, skipped);
      skipped := gone;
    }

    /** Step over null slots.  Called with `ended` set: the slot at `index`, if any, has not
        been looked at yet. */
    method EnsureValidIndex()
      requires Ok(list.observers, list.ids, list.next, list.policy) && ended
      modifies this
      ensures Ok(list.observers, list.ids, list.next, list.policy)
      ensures maxIndex == old(maxIndex) && start == old(start)
      ensures old(index) <= index && (ended <==> index == Clamped())
      ensures forall j :: old(index) <= j < index ==> list.observers[j].None?
      ensures !ended ==> list.observers[index].Some? && visited == old(visited) + [list.ids[index]]
      ensures ended ==> visited == old(visited)
    {
      SkipNulls();
      if index < Clamped() {
        CursorVisits(list.observers, list.ids, list.next, list.policy, index, maxIndex, start, visited, skipped);
        visited := visited + [list.ids[index]];
        ended := false;
      }
    }

    constructor (l: ObserverList)
      requires l.Valid()
      modifies l
      ensures list == l && l.Valid() && l.iters == old(l.iters) + {this}
      ensures l.observers == old(l.observers) && l.ids == old(l.ids) && l.next == old(l.next)
      ensures start == l.next && (ended <==> index == Clamped())
      ensures forall j :: 0 <= j < index ==> l.observers[j].None?
      ensures visited == if ended then [] else [l.ids[index]]
    {
      list := l;
      index := 0;
      maxIndex := if l.policy.All? then None else Some(|l.observers|);
      start, visited, skipped, ended := l.next, [], {}, true;
      new;
      CursorBegins(l.observers, l.ids, l.next, l.policy);
      EnsureValidIndex();
      l.Attach(this);
    }

    /** operator++; an iterator that has been found at its end is not incremented. */
    method Advance()
      requires list.Valid() && this in list.iters && !ended
      modifies this
      ensures list.Valid() && start == old(start)
      ensures old(index) < index && (ended <==> index == Clamped())
      ensures forall j :: old(index) < j < index ==> list.observers[j].None?
      ensures !ended ==> list.observers[index].Some? && visited == old(visited) + [list.ids[index]]
      ensures ended ==> visited == old(visited)
    {
      assert forall it :: it in list.iters ==> it.list == list;
      index := index + 1;
      ended := true;
      EnsureValidIndex();
      assert forall it :: it in list.iters && it != this ==>
                            it.Ok(list.observers, list.ids, list.next, list.policy);
    }

    method Destroy()
      requires list.Valid() && this in list.iters
      modifies list
      ensures list.Valid() && list.iters == old(list.iters) - {this}
      ensures Plain(list.observers) == old(Plain(list.observers))
      ensures list.iters != {} ==> list.observers == old(list.observers) && list.ids == old(list.ids)
    {
      list.liveIterators := list.liveIterators - 1;
      list.iters := list.iters - {this};
      if list.liveIterators == 0 {
        list.Compact();
      }
    }
  }
}
