/**
 No task is lost: what the timer runner of src/task_runner.cpp has taken out of its map it runs,
 unless a Cancel stops it; and what a call of the runner was given is what it works with.
*/
module TaskKeeping {
  import opened Basics
  import opened TaskRunner

  // Collected tasks are run

  /** The tasks of its batch that a thread has yet to come to. */
  function Rest(run: RunPc): seq<TaskId> {
    match run
    case Scanning(_, _, batch) => batch
    case ScanWon(_, _, batch) => batch
    case Triggering(_, batch, k) => if k <= |batch| then batch[k..] else []
    case HasCall(_, batch, k) => if k <= |batch| then batch[k..] else []
    case Running(_, batch, k) => if k < |batch| then batch[k + 1..] else []
    case Ran(_, batch, k) => if k < |batch| then batch[k + 1..] else []
    case _ => []
  }

  /** The thread has the task before it: in its batch, or won and about to be moved there. */
  predicate Before(s: State, t: ThreadId, id: TaskId) {
    var run := ThreadOf(s, t).run;
    id in Rest(run) || (run.ScanWon? && run.at < |s.queue| && s.queue[run.at] == id)
  }

  /** A task that a runner has won and not run is before that runner, unless a canceller has its
      `callLock` for good; and who has won it as a canceller has called Cancel. */
  predicate Kept(s: State, id: TaskId) {
    var task := TaskOf(s, id);
    && (task.invalid.ByRunner? && task.runs == 0 && !task.callLock.ByCanceller? ==> Before(s, task.invalid.t, id))
    && (task.callLock.ByCanceller? ==> task.settled)
    && (task.invalid.ByCanceller? ==> task.cancels > 0)
  }

  /** What a step can do to a task. */
  predicate TaskMoves(task: Task, task': Task, t: ThreadId) {
    && task'.due == task.due && task'.session == task.session
    && task.runs <= task'.runs && task.cancels <= task'.cancels && (task.settled ==> task'.settled)
    && (!task.invalid.Free? ==> task'.invalid == task.invalid)
    && (task.invalid.Free? && !task'.invalid.Free? ==> task'.invalid.t == t)
    && (task.callLock.ByCanceller? ==> task'.callLock == task.callLock)
  }

  lemma TaskMovesOn(s: State, t: ThreadId, a: Action, s': State, id: TaskId)
    requires Inv(s) && Next(s, t, a, s') && id < |s.tasks|
    ensures id < |s'.tasks| && TaskMoves(s.tasks[id], s'.tasks[id], t)
  {
    assert ThreadOk(s, t) && TaskOk(s, id);
  }

  /** A step of another thread leaves a task before the runner that has it. */
  lemma OthersLeaveBefore(s: State, t: ThreadId, a: Action, s': State, u: ThreadId, id: TaskId)
    requires Inv(s) && Next(s, t, a, s') && u != t && Before(s, u, id)
    ensures Before(s', u, id)
  {
    assert ThreadOk(s, t) && ThreadOk(s, u);
    OthersStay(s, t, a, u);
  }

  predicate ScanStep(a: Action) { a.DoScanTry? || a.DoScanErase? || a.DoScanDone? }

  predicate TriggerStep(a: Action) {
    a.DoTryCall? || a.DoTrySession? || a.DoFinishRun? || a.DoReleaseCall? || a.DoLeave?
  }

  lemma ScanKeepsBefore(s: State, t: ThreadId, a: Action, s': State, id: TaskId)
    requires Next(s, t, a, s') && ScanStep(a) && ThreadOk(s, t) && Before(s, t, id)
    ensures Before(s', t, id)
  {
  }

  /** The trigger loop goes on by one task, which it has started or whose `callLock` was taken. */
  lemma RestShrinks(s: State, t: ThreadId, a: Action, s': State)
    requires Next(s, t, a, s') && TriggerStep(a) && ThreadOk(s, t)
    ensures var rest, rest' := Rest(ThreadOf(s, t).run), Rest(ThreadOf(s', t).run);
            || rest' == rest
            || (&& rest != [] && rest' == rest[1..] && rest[0] < |s'.tasks|
                && (s'.tasks[rest[0]].runs > 0 || (a.DoTryCall? && !TaskOf(s, rest[0]).callLock.Free?)))
  {
    if a.DoTryCall? {
      RestAfterTryCall(s, t, s');
    } else if a.DoTrySession? {
      RestAfterTrySession(s, t, s');
    } else {
      RestStays(s, t, a, s');
    }
  }

  lemma RestAfterTryCall(s: State, t: ThreadId, s': State)
    requires Next(s, t, DoTryCall, s') && ThreadOk(s, t)
    ensures var rest, rest' := Rest(ThreadOf(s, t).run), Rest(ThreadOf(s', t).run);
            && rest != [] && rest[0] < |s.tasks| == |s'.tasks|
            && rest' == if TaskOf(s, rest[0]).callLock.Free? then rest else rest[1..]
  {
    var run := ThreadOf(s, t).run;
    assert run.batch[run.k..][1..] == run.batch[run.k + 1..];
  }

  lemma RestAfterTrySession(s: State, t: ThreadId, s': State)
    requires Next(s, t, DoTrySession, s') && ThreadOk(s, t)
    ensures var rest, rest' := Rest(ThreadOf(s, t).run), Rest(ThreadOf(s', t).run);
            && rest != [] && rest[0] < |s'.tasks|
            && (rest' == rest || (rest' == rest[1..] && s'.tasks[rest[0]].runs > 0))
  {
    var run := ThreadOf(s, t).run;
    assert run.batch[run.k..][1..] == run.batch[run.k + 1..];
  }

  lemma RestStays(s: State, t: ThreadId, a: Action, s': State)
    requires Next(s, t, a, s') && ThreadOk(s, t) && (a.DoFinishRun? || a.DoReleaseCall? || a.DoLeave?)
    ensures Rest(ThreadOf(s', t).run) == Rest(ThreadOf(s, t).run)
  {
  }

  lemma TriggerKeepsBefore(s: State, t: ThreadId, a: Action, s': State, id: TaskId)
    requires Next(s, t, a, s') && TriggerStep(a) && ThreadOk(s, t) && id < |s.tasks| && id in Rest(ThreadOf(s, t).run)
    requires id < |s'.tasks| && s'.tasks[id].runs == 0
    requires a.DoTryCall? ==> s.tasks[id].callLock.Free?
    ensures id in Rest(ThreadOf(s', t).run)
  {
    RestShrinks(s, t, a, s');
    StillIn(Rest(ThreadOf(s, t).run), Rest(ThreadOf(s', t).run), id);
  }

  lemma StillIn(rest: seq<TaskId>, rest': seq<TaskId>, id: TaskId)
    requires id in rest && (rest' == rest || (rest' == rest[1..] && rest[0] != id))
    ensures id in rest'
  {
    assert rest == [rest[0]] + rest[1..];
  }

  /** Another runner cannot have the `callLock` of a task that this runner has won. */
  lemma CallLockIsFree(s: State, t: ThreadId, id: TaskId)
    requires Inv(s) && id < |s.tasks| && s.tasks[id].invalid == ByRunner(t)
    requires ThreadOf(s, t).run.Triggering? && !s.tasks[id].callLock.ByCanceller?
    ensures s.tasks[id].callLock.Free?
  {
    var lock := s.tasks[id].callLock;
    assert TaskOk(s, id) && (lock.ByRunner? ==> ThreadOk(s, lock.t));
  }

  lemma OtherStepsStay(s: State, t: ThreadId, a: Action, s': State)
    requires ThreadOk(s, t) && Next(s, t, a, s') && !ScanStep(a) && !TriggerStep(a)
    ensures Rest(ThreadOf(s', t).run) == Rest(ThreadOf(s, t).run) && !ThreadOf(s, t).run.ScanWon?
  {
  }

  /** Its own step passes by a task only by running it or by finding its `callLock` taken. */
  lemma OwnStepKeepsBefore(s: State, t: ThreadId, a: Action, s': State, id: TaskId)
    requires Inv(s) && Next(s, t, a, s') && id < |s.tasks| && s.tasks[id].invalid == ByRunner(t)
    requires Before(s, t, id) && id < |s'.tasks| && s'.tasks[id].runs == 0 && !s.tasks[id].callLock.ByCanceller?
    ensures Before(s', t, id)
  {
    assert ThreadOk(s, t);
    if ScanStep(a) {
      ScanKeepsBefore(s, t, a, s', id);
    } else if TriggerStep(a) {
      if a.DoTryCall? { CallLockIsFree(s, t, id); }
      TriggerKeepsBefore(s, t, a, s', id);
    } else {
      OtherStepsStay(s, t, a, s');
    }
  }

  lemma NewlyWon(s: State, t: ThreadId, a: Action, s': State, id: TaskId)
    requires ThreadOk(s, t) && Next(s, t, a, s') && id < |s.tasks| && id < |s'.tasks|
    requires s.tasks[id].invalid.Free? && !s'.tasks[id].invalid.Free?
    ensures s'.tasks[id].invalid == ByRunner(t) ==> Before(s', t, id)
    ensures s'.tasks[id].invalid.ByCanceller? ==> s.tasks[id].cancels > 0
    ensures s'.tasks[id].invalid.t == t && s'.tasks[id].callLock == s.tasks[id].callLock
  {
  }

  lemma NewlySettled(s: State, t: ThreadId, a: Action, s': State, id: TaskId)
    requires ThreadOk(s, t) && Next(s, t, a, s') && id < |s.tasks| && id < |s'.tasks|
    requires !s.tasks[id].callLock.ByCanceller? && s'.tasks[id].callLock.ByCanceller?
    ensures s'.tasks[id].settled
  {
  }

  lemma NewTask(s: State, t: ThreadId, a: Action, s': State, id: TaskId)
    requires Next(s, t, a, s') && |s.tasks| <= id < |s'.tasks|
    ensures s'.tasks[id].invalid.Free? && s'.tasks[id].callLock.Free?
  {
  }

  lemma NextKeeps(s: State, t: ThreadId, a: Action, s': State, id: TaskId)
    requires Inv(s) && Kept(s, id) && Next(s, t, a, s')
    ensures Kept(s', id)
  {
    assert ThreadOk(s, t);
    if id < |s.tasks| {
      TaskMovesOn(s, t, a, s', id);
      if !s.tasks[id].callLock.ByCanceller? && s'.tasks[id].callLock.ByCanceller? { NewlySettled(s, t, a, s', id); }
      var task := s.tasks[id];
      if task.invalid.Free? {
        if !s'.tasks[id].invalid.Free? { NewlyWon(s, t, a, s', id); }
      } else if task.invalid.ByRunner? && s'.tasks[id].runs == 0 && !s'.tasks[id].callLock.ByCanceller? {
        if task.invalid.t == t { OwnStepKeepsBefore(s, t, a, s', id); }
        else { OthersLeaveBefore(s, t, a, s', task.invalid.t, id); }
      }
    } else if id < |s'.tasks| {
      NewTask(s, t, a, s', id);
    }
  }

  lemma {:induction false} TraceKeeps(tr: seq<State>, i: nat, id: TaskId)
    requires IsTrace(tr) && i < |tr|
    ensures Kept(tr[i], id)
  {
    if i > 0 {
      TraceKeeps(tr, i - 1, id);
      TraceInv(tr, i - 1);
      assert StepTo(tr, i);
      var t: ThreadId, a: Action :| Next(tr[i - 1], t, a, tr[i]);
      NextKeeps(tr[i - 1], t, a, tr[i], id);
    }
  }

  /** In every run, a task that nobody has called Cancel on is in the map, or before the runner that
      took it out, or has been run once. */
  lemma UncancelledIsKept(tr: seq<State>, i: nat, id: TaskId)
    requires IsTrace(tr) && i < |tr| && id < |tr[i].tasks| && tr[i].tasks[id].cancels == 0
    ensures var s, task := tr[i], tr[i].tasks[id];
            || (task.invalid.Free? && id in s.queue && task.runs == 0)
            || (task.invalid.ByRunner? && task.runs == 0 && Before(s, task.invalid.t, id))
            || task.runs == 1
  {
    TraceInv(tr, i);
    TraceKeeps(tr, i, id);
    assert TaskOk(tr[i], id);
  }

  /** In every run, a thread that leaves RunOnce has run each task it collected, once, unless a
      Cancel has settled it. */
  lemma LeavesNothingBehind(tr: seq<State>, i: nat, t: ThreadId, j: nat)
    requires IsTrace(tr) && i < |tr| && CanLeave(tr[i], t) && j < |ThreadOf(tr[i], t).run.batch|
    ensures var task := TaskOf(tr[i], ThreadOf(tr[i], t).run.batch[j]); task.runs == 1 || task.settled
  {
    var id := ThreadOf(tr[i], t).run.batch[j];
    TraceInv(tr, i);
    TraceKeeps(tr, i, id);
    assert ThreadOk(tr[i], t) && TaskOk(tr[i], id);
  }

  // The scan collects what is due

  /** What a scan has gone past is won by somebody. */
  predicate Scanned(s: State, t: ThreadId) {
    var run := ThreadOf(s, t).run;
    run.Scanning? || run.ScanWon? ==>
      run.at <= |s.queue| && forall j :: 0 <= j < run.at ==> !TaskOf(s, s.queue[j]).invalid.Free?
  }

  lemma OwnStepScans(s: State, t: ThreadId, a: Action, s': State)
    requires ThreadOk(s, t) && Scanned(s, t) && Next(s, t, a, s')
    ensures Scanned(s', t)
  {
    if a.DoScanTry? {
      ScanTryGoesOn(s, t, s');
    } else if a.DoScanErase? {
      ScanEraseGoesOn(s, t, s');
    } else {
      ScanBegins(s, t, a, s');
    }
  }

  lemma ScanTryGoesOn(s: State, t: ThreadId, s': State)
    requires ThreadOk(s, t) && Scanned(s, t) && Next(s, t, DoScanTry, s')
    ensures Scanned(s', t)
  {
  }

  lemma ScanEraseGoesOn(s: State, t: ThreadId, s': State)
    requires ThreadOk(s, t) && Scanned(s, t) && Next(s, t, DoScanErase, s')
    ensures Scanned(s', t)
  {
  }

  lemma ScanBegins(s: State, t: ThreadId, a: Action, s': State)
    requires ThreadOk(s, t) && Next(s, t, a, s') && !a.DoScanTry? && !a.DoScanErase?
    ensures Scanned(s', t)
  {
    var run := ThreadOf(s', t).run;
    assert run.Scanning? || run.ScanWon? ==> run.at == 0;
  }

  lemma OthersLeaveScan(s: State, t: ThreadId, a: Action, s': State, u: ThreadId)
    requires Inv(s) && Scanned(s, u) && Next(s, t, a, s') && u != t
    ensures Scanned(s', u)
  {
    assert ThreadOk(s, t) && ThreadOk(s, u);
    OthersStay(s, t, a, u);
    var run := ThreadOf(s, u).run;
    if run.Scanning? || run.ScanWon? {
      LockHoldsQueue(s, t, a, s', u);
      forall j | 0 <= j < run.at ensures !TaskOf(s', s.queue[j]).invalid.Free? {
        assert s.queue[j] < |s.tasks|;
        TaskMovesOn(s, t, a, s', s.queue[j]);
      }
    }
  }

  lemma LockHoldsQueue(s: State, t: ThreadId, a: Action, s': State, u: ThreadId)
    requires ThreadOk(s, t) && Next(s, t, a, s') && s.mtx == Some(u) && u != t
    ensures s'.queue == s.queue
  {
  }

  lemma {:induction false} TraceScanned(tr: seq<State>, i: nat, u: ThreadId)
    requires IsTrace(tr) && i < |tr|
    ensures Scanned(tr[i], u)
  {
    if i > 0 {
      TraceScanned(tr, i - 1, u);
      TraceInv(tr, i - 1);
      assert StepTo(tr, i);
      var t: ThreadId, a: Action :| Next(tr[i - 1], t, a, tr[i]);
      assert ThreadOk(tr[i - 1], t);
      if t == u { OwnStepScans(tr[i - 1], t, a, tr[i]); } else { OthersLeaveScan(tr[i - 1], t, a, tr[i], u); }
    }
  }

  /** In every run, when a scan ends, the tasks still in the map that were due before its clock
      reading are being cancelled. */
  lemma ScanCollectsAllDue(tr: seq<State>, i: nat, t: ThreadId, id: TaskId)
    requires IsTrace(tr) && i < |tr| && CanScanDone(tr[i], t) && id in tr[i].queue
    requires TaskOf(tr[i], id).due < ThreadOf(tr[i], t).run.now
    ensures TaskOf(tr[i], id).invalid.ByCanceller?
  {
    var s, run := tr[i], ThreadOf(tr[i], t).run;
    TraceInv(tr, i);
    TraceScanned(tr, i, t);
    assert ThreadOk(s, t) && QueuedOk(s, id);
    assert forall x :: run.at <= x < |s.queue| ==> TaskOf(s, s.queue[run.at]).due <= TaskOf(s, s.queue[x]).due;
    var j :| 0 <= j < |s.queue| && s.queue[j] == id;
    assert j < run.at;
  }

  // RunOnce gets to its end

  /** What is left to do of a scan, and of the trigger loop. */
  function ScanWork(s: State, run: RunPc): int {
    match run
    case Scanning(_, at, _) => 2 * (|s.queue| - at)
    case ScanWon(_, at, _) => 2 * (|s.queue| - at) - 1
    case _ => 0
  }

  function TriggerWork(run: RunPc): int {
    match run
    case Triggering(_, batch, k) => 4 * (|batch| - k) + 1
    case HasCall(_, batch, k) => 4 * (|batch| - k)
    case Running(_, batch, k) => 4 * (|batch| - k) - 1
    case Ran(_, batch, k) => 4 * (|batch| - k) - 2
    case _ => 0
  }

  /** Every step of the scan leaves less of it. */
  lemma ScanMovesOn(s: State, t: ThreadId, a: Action, s': State)
    requires ThreadOk(s, t) && Next(s, t, a, s') && (a.DoScanTry? || a.DoScanErase?)
    ensures 0 <= ScanWork(s', ThreadOf(s', t).run) < ScanWork(s, ThreadOf(s, t).run)
  {
  }

  /** Every step of the trigger loop leaves less of it, save a session mutex that is taken. */
  lemma TriggerMovesOn(s: State, t: ThreadId, a: Action, s': State)
    requires ThreadOk(s, t) && Next(s, t, a, s') && TriggerStep(a)
    requires a.DoTrySession? ==>
               var run := ThreadOf(s, t).run; MayLock(s, t, TaskOf(s, run.batch[run.k]).session)
    ensures 0 <= TriggerWork(ThreadOf(s', t).run) < TriggerWork(ThreadOf(s, t).run)
  {
  }

  // What a call was given

  /** A Schedule that was given `due` and `session` is still to put them into the map. */
  predicate Scheduling(s: State, t: ThreadId, due: int, session: SessionId) {
    ThreadOf(s, t).op == Inserting(due, session) || ThreadOf(s, t).op == InsertLocked(due, session)
  }

  lemma ScheduleBegins(s: State, t: ThreadId, due: int, session: SessionId)
    requires Enabled(s, t, DoBeginSchedule(due, session))
    ensures Scheduling(After(s, t, DoBeginSchedule(due, session)), t, due, session)
  {
  }

  /** From then on the thread's steps lead to a new task with just these, last among its equals. */
  lemma ScheduleEnds(s: State, t: ThreadId, a: Action, s': State, due: int, session: SessionId)
    requires Inv(s) && Scheduling(s, t, due, session) && Next(s, t, a, s')
    ensures Scheduling(s', t, due, session) || ThreadOf(s', t).op.Idle?
    ensures ThreadOf(s', t).op.Idle? ==>
              && |s'.tasks| == |s.tasks| + 1 && s'.tasks[|s.tasks|] == Task(due, session, Free, Free, 0, 0, false)
              && s'.tasks[..|s.tasks|] == s.tasks
              && var id: TaskId := |s.tasks|; multiset(s'.queue) == multiset(s.queue + [id])
  {
    InsertedOnce(s.queue, InsertAt(s, due, |s.queue|), |s.tasks|);
  }

  lemma InsertedOnce(q: seq<TaskId>, p: nat, id: TaskId)
    requires p <= |q|
    ensures multiset(q[..p] + [id] + q[p..]) == multiset(q + [id])
  {
    assert q == q[..p] + q[p..];
  }

  /** In every run, the clock reading of a RunOnce is the one it works with to its end. */
  lemma {:induction false} ReadingStays(tr: seq<State>, i: nat, j: nat, t: ThreadId, now: int)
    requires IsTrace(tr) && i < j < |tr|
    requires Enabled(tr[i], t, DoEnter(now)) && tr[i + 1] == After(tr[i], t, DoEnter(now))
    requires forall k :: i < k <= j ==> !ThreadOf(tr[k], t).run.Outside?
    ensures ThreadOf(tr[j], t).run.now == now
    decreases j
  {
    if i + 1 < j {
      ReadingStays(tr, i, j - 1, t, now);
      assert StepTo(tr, j);
      var u: ThreadId, a: Action :| Next(tr[j - 1], u, a, tr[j]);
      ReadingStep(tr[j - 1], u, a, tr[j], t);
    }
  }

  lemma ReadingStep(s: State, u: ThreadId, a: Action, s': State, t: ThreadId)
    requires Next(s, u, a, s') && !ThreadOf(s, t).run.Outside? && !ThreadOf(s', t).run.Outside?
    ensures ThreadOf(s', t).run.now == ThreadOf(s, t).run.now
  {
    if u != t { OthersStay(s, u, a, t); }
  }

  /** So nothing that a RunOnce runs was due at its clock reading or later. */
  lemma NothingFiresEarly(tr: seq<State>, i: nat, j: nat, t: ThreadId, now: int, id: TaskId)
    requires IsTrace(tr) && i < j < |tr|
    requires Enabled(tr[i], t, DoEnter(now)) && tr[i + 1] == After(tr[i], t, DoEnter(now))
    requires forall k :: i < k <= j ==> !ThreadOf(tr[k], t).run.Outside?
    requires IsRunning(tr[j], t, id)
    ensures TaskOf(tr[j], id).due < now
  {
    ReadingStays(tr, i, j, t, now);
    FiresInOrder(tr, j, t);
  }
}
