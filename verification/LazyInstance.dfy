/**
 The lazy creation protocol of libquic/base/lazy_instance_helpers.{h,cc}: any number of
 threads call GetOrCreateLazyPointer on one state word, interleaved at every load, store
 and compare-and-swap of that word.  A load that keeps a spinning thread where it is
 changes nothing and is not a step.
*/
module LazyInstance {
  type Word = bv64
  type ThreadId = nat

  const EMPTY: Word := 0
  const CREATING: Word := 1

  predicate IsCreated(w: Word) {
    w != EMPTY && w != CREATING
  }

  /** The test the code makes: a bit of kLazyInstanceCreatedMask is set. */
  lemma MaskTestIsCreated(w: Word)
    ensures w & !CREATING != 0 <==> IsCreated(w)
  {
    MaskBits(w);
    assert !CREATING == 0xffff_ffff_ffff_fffe;
  }

  lemma MaskBits(w: bv64)
    ensures w & 0xffff_ffff_ffff_fffe != 0 <==> w != 0 && w != 1
  {
  }

  datatype Pc =
    | Idle
    | Called
    | Racing
    | Checking
    | Spinning
    | Lost
    | Creating
    | Made(p: Word)
    | Stored(p: Word)
    | Returned(p: Word)

  /** The state word and the threads.  History: the last thread to win the swap, what the
      creator has returned so far, and how many destructors were registered. */
  datatype State = State(word: Word, threads: map<ThreadId, Pc>,
                         winner: ThreadId, creations: seq<Word>, atExit: nat)

  const INIT := State(EMPTY, map[], 0, [], 0)

  function PcOf(s: State, t: ThreadId): Pc {
    if t in s.threads then s.threads[t] else Idle
  }

  datatype Action = Call | FirstLoad | Swap | Check | SpinEnds | Reload | Create(p: Word) | Store | Register

  predicate Enabled(s: State, t: ThreadId, a: Action) {
    match a
    case Call => PcOf(s, t).Idle? || PcOf(s, t).Returned?
    case FirstLoad => PcOf(s, t).Called?
    case Swap => PcOf(s, t).Racing?
    case Check => PcOf(s, t).Checking?
    case SpinEnds => PcOf(s, t).Spinning? && s.word != CREATING
    case Reload => PcOf(s, t).Lost?
    case Create(p) => PcOf(s, t).Creating? && IsCreated(p)
    case Store => PcOf(s, t).Made?
    case Register => PcOf(s, t).Stored?
  }

  function After(s: State, t: ThreadId, a: Action): State
    requires Enabled(s, t, a)
  {
    var pc := PcOf(s, t);
    match a
    case Call => s.(threads := s.threads[t := Called])
    case FirstLoad => s.(threads := s.threads[t := if IsCreated(s.word) then Returned(s.word) else Racing])
    case Swap =>
      if s.word == EMPTY then s.(word := CREATING, threads := s.threads[t := Creating], winner := t)
      else s.(threads := s.threads[t := Checking])
    case Check => s.(threads := s.threads[t := if s.word == CREATING then Spinning else Lost])
    case SpinEnds => s.(threads := s.threads[t := Lost])
    case Reload => s.(threads := s.threads[t := Returned(s.word)])
    case Create(p) => s.(threads := s.threads[t := Made(p)], creations := s.creations + [p])
    case Store => s.(word := pc.p, threads := s.threads[t := Stored(pc.p)])
    case Register => s.(threads := s.threads[t := Returned(pc.p)], atExit := s.atExit + 1)
  }

  ghost predicate Steps(s: State, s': State) {
    exists t: ThreadId, a: Action {:trigger Enabled(s, t, a)} :: Enabled(s, t, a) && s' == After(s, t, a)
  }

  ghost predicate StepTo(tr: seq<State>, i: nat) {
    0 < i < |tr| ==> Steps(tr[i - 1], tr[i])
  }

  ghost predicate IsTrace(tr: seq<State>) {
    |tr| > 0 && tr[0] == INIT && forall i: nat :: StepTo(tr, i)
  }

  predicate ThreadOk(s: State, t: ThreadId) {
    match PcOf(s, t)
    case Checking => s.word != EMPTY
    case Spinning => s.word != EMPTY
    case Lost => IsCreated(s.word)
    case Creating => s.word == CREATING && t == s.winner && s.creations == []
    case Made(p) => s.word == CREATING && t == s.winner && s.creations == [p] && IsCreated(p)
    case Stored(p) => s.word == p && t == s.winner && IsCreated(p) && s.atExit == 0
    case Returned(p) => s.word == p && IsCreated(p)
    case _ => true
  }

  predicate WordOk(s: State) {
    && (s.word == EMPTY ==> s.creations == [] && s.atExit == 0)
    && (s.word == CREATING ==>
          s.atExit == 0 && (PcOf(s, s.winner).Creating? || PcOf(s, s.winner).Made?))
    && (IsCreated(s.word) ==>
          s.creations == [s.word] && s.atExit == if PcOf(s, s.winner) == Stored(s.word) then 0 else 1)
  }

  ghost predicate Inv(s: State) {
    (forall t: ThreadId :: ThreadOk(s, t)) && WordOk(s)
  }

  lemma AfterKeepsInv(s: State, t: ThreadId, a: Action)
    requires Inv(s) && Enabled(s, t, a)
    ensures Inv(After(s, t, a))
  {
    var s' := After(s, t, a);
    assert ThreadOk(s, t) && ThreadOk(s, s.winner);
    forall u: ThreadId ensures ThreadOk(s', u) {
      assert ThreadOk(s, u);
      if u == t { MoverIsOk(s, t, a); } else { OtherIsOk(s, t, a, u); }
    }
    WordIsOk(s, t, a);
  }

  lemma MoverIsOk(s: State, t: ThreadId, a: Action)
    requires ThreadOk(s, t) && WordOk(s) && Enabled(s, t, a)
    ensures ThreadOk(After(s, t, a), t)
  {
  }

  lemma OtherIsOk(s: State, t: ThreadId, a: Action, u: ThreadId)
    requires ThreadOk(s, t) && ThreadOk(s, u) && WordOk(s) && Enabled(s, t, a) && u != t
    ensures ThreadOk(After(s, t, a), u)
  {
  }

  lemma WordIsOk(s: State, t: ThreadId, a: Action)
    requires ThreadOk(s, t) && ThreadOk(s, s.winner) && WordOk(s) && Enabled(s, t, a)
    ensures WordOk(After(s, t, a))
  {
  }

  lemma {:induction false} TraceInv(tr: seq<State>, i: nat)
    requires IsTrace(tr) && i < |tr|
    ensures Inv(tr[i])
  {
    if i > 0 {
      TraceInv(tr, i - 1);
      assert StepTo(tr, i);
      var t: ThreadId, a: Action :| Enabled(tr[i - 1], t, a) && tr[i] == After(tr[i - 1], t, a);
      AfterKeepsInv(tr[i - 1], t, a);
    }
  }

  /** The creator is called at most once, and so is the registration at exit; a caller that
      returns, returns what that one call made, which is neither 0 nor 1. */
  lemma CreatedOnceAndShared(tr: seq<State>, i: nat, t: ThreadId)
    requires IsTrace(tr) && i < |tr|
    ensures |tr[i].creations| <= 1 && tr[i].atExit <= 1
    ensures PcOf(tr[i], tr[i].winner).Returned? ==> tr[i].atExit == 1
    ensures PcOf(tr[i], t).Returned? ==>
              var p := PcOf(tr[i], t).p;
              tr[i].creations == [p] && IsCreated(p) && p != EMPTY && p != CREATING
  {
    TraceInv(tr, i);
    assert ThreadOk(tr[i], t) && ThreadOk(tr[i], tr[i].winner);
  }

  lemma {:induction false} CreationsGrow(tr: seq<State>, i: nat, j: nat)
    requires IsTrace(tr) && i <= j < |tr|
    ensures tr[i].creations <= tr[j].creations
    decreases j
  {
    if i < j {
      CreationsGrow(tr, i, j - 1);
      assert StepTo(tr, j);
    }
  }

  /** Any two calls that return, by any threads at any two times, return the same pointer. */
  lemma AllCallersAgree(tr: seq<State>, i: nat, t: ThreadId, j: nat, u: ThreadId)
    requires IsTrace(tr) && i <= j < |tr| && PcOf(tr[i], t).Returned? && PcOf(tr[j], u).Returned?
    ensures PcOf(tr[i], t) == PcOf(tr[j], u)
  {
    CreatedOnceAndShared(tr, i, t);
    CreatedOnceAndShared(tr, j, u);
    CreationsGrow(tr, i, j);
    assert tr[i].creations[0] == tr[j].creations[0];
  }

  /** A thread that spins is waiting for one that can move, and that is the only wait. */
  lemma SpinnerIsServed(tr: seq<State>, i: nat, t: ThreadId)
    requires IsTrace(tr) && i < |tr| && PcOf(tr[i], t).Spinning?
    ensures var s := tr[i];
            || Enabled(s, t, SpinEnds)
            || (&& s.winner != t
                && (Enabled(s, s.winner, Store) || forall p :: IsCreated(p) ==> Enabled(s, s.winner, Create(p))))
  {
    TraceInv(tr, i);
  }

  /** A thread in a call has a step, unless it spins while the pointer is being created. */
  lemma OnlySpinningWaits(s: State, t: ThreadId, p: Word) returns (a: Action)
    requires !PcOf(s, t).Idle? && !PcOf(s, t).Returned? && IsCreated(p)
    requires !(PcOf(s, t).Spinning? && s.word == CREATING)
    ensures Enabled(s, t, a) && PcOf(After(s, t, a), t) != PcOf(s, t)
  {
    match PcOf(s, t)
    case Called => a := FirstLoad;
    case Racing => a := Swap;
    case Checking => a := Check;
    case Spinning => a := SpinEnds;
    case Lost => a := Reload;
    case Creating => a := Create(p);
    case Made(_) => a := Store;
    case Stored(_) => a := Register;
  }

  /** Once the pointer is there nobody waits: a call returns with its first load, and a thread that
      lost the race goes on without spinning. */
  lemma NoNeedlessWait(s: State, t: ThreadId)
    requires IsCreated(s.word)
    ensures Enabled(s, t, FirstLoad) ==> PcOf(After(s, t, FirstLoad), t) == Returned(s.word)
    ensures Enabled(s, t, Check) ==> PcOf(After(s, t, Check), t) == Lost
    ensures PcOf(s, t).Spinning? ==> Enabled(s, t, SpinEnds)
  {
  }

  function Last(tr: seq<State>): State
    requires |tr| > 0
  {
    tr[|tr| - 1]
  }

  lemma Extend(tr: seq<State>, t: ThreadId, a: Action) returns (tr': seq<State>)
    requires IsTrace(tr) && Enabled(Last(tr), t, a)
    ensures tr' == tr + [After(Last(tr), t, a)] && IsTrace(tr')
  {
    tr' := tr + [After(Last(tr), t, a)];
    forall i: nat ensures StepTo(tr', i) {
      assert StepTo(tr, i);
      assert i == |tr| ==> Enabled(tr'[i - 1], t, a);
    }
  }

  /** Two threads find the word empty, and one of them wins. */
  lemma Race() returns (tr: seq<State>)
    ensures IsTrace(tr) && Last(tr) == State(CREATING, map[0 := Creating, 1 := Checking], 0, [], 0)
  {
    tr := [INIT];
    assert forall i: nat :: StepTo(tr, i);
    tr := Extend(tr, 0, Call);
    tr := Extend(tr, 1, Call);
    tr := Extend(tr, 0, FirstLoad);
    tr := Extend(tr, 1, FirstLoad);
    tr := Extend(tr, 0, Swap);
    tr := Extend(tr, 1, Swap);
  }

  /** The loser spins until the winner has stored the pointer, and both return it. */
  lemma BothReturn(p: Word) returns (tr: seq<State>)
    requires IsCreated(p)
    ensures IsTrace(tr) && Last(tr) == State(p, map[0 := Returned(p), 1 := Returned(p)], 0, [p], 1)
  {
    tr := Race();
    tr := Extend(tr, 1, Check);
    tr := Extend(tr, 0, Create(p));
    assert [] + [p] == [p];
    tr := Extend(tr, 0, Store);
    tr := Extend(tr, 1, SpinEnds);
    tr := Extend(tr, 1, Reload);
    tr := Extend(tr, 0, Register);
  }
}
