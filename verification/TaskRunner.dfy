/**
 The timer runner of src/task_runner.{h,cpp} and the spin locks of src/spinlock.h, as a
 state machine: any number of threads, interleaved at every atomic action of Schedule,
 ScheduledTask::Cancel and RunOnce.

 A thread that is in no call may start one.  A thread inside a task callback may start
 Schedule or Cancel too, and may lock and unlock session mutexes.  A failed attempt of a
 blocking lock changes nothing and is not a step; until the lock is free the thread has no
 step at all.
*/
module TaskRunner {
  import opened Basics

  type ThreadId = nat
  type TaskId = nat
  type SessionId = nat

  /** A spin lock is one flag; the model also remembers who set it. */
  datatype Holder = Free | ByRunner(t: ThreadId) | ByCanceller(t: ThreadId)

  /** TaskStorage, with three history fields: how often `Run` was started, how many Cancel
      calls were started, and whether a Cancel has returned that won `invalid` or waited. */
  datatype Task = Task(due: int, session: SessionId, invalid: Holder, callLock: Holder,
                       runs: nat, cancels: nat, settled: bool)

  /** Where a thread stands in RunOnce. */
  datatype RunPc =
    | Outside
    | Entered(now: int)
    | Scanning(now: int, at: nat, batch: seq<TaskId>)
    | ScanWon(now: int, at: nat, batch: seq<TaskId>)
    | Triggering(now: int, batch: seq<TaskId>, k: nat)
    | HasCall(now: int, batch: seq<TaskId>, k: nat)
    | Running(now: int, batch: seq<TaskId>, k: nat)
    | Ran(now: int, batch: seq<TaskId>, k: nat)

  /** Where a thread stands in Schedule, Cancel or the lock of a session mutex. */
  datatype OpPc =
    | Idle
    | Inserting(due: int, session: SessionId)
    | InsertLocked(due: int, session: SessionId)
    | Claiming(id: TaskId)
    | Erasing(id: TaskId)
    | EraseLocked(id: TaskId)
    | Waiting(id: TaskId)
    | Locking(m: SessionId)

  datatype Thread = Thread(run: RunPc, op: OpPc)

  /** A recursive mutex that is held: by whom, how many times over, and how many of these times
      its holder asked for it, in a callback or outside RunOnce. */
  datatype Owned = Owned(t: ThreadId, depth: nat, asked: nat)

  const NOT_OWNED := Owned(0, 0, 0)

  /** `queue` is the multimap `tasks_` in iteration order; `mtx` is the runner's own mutex. */
  datatype State = State(
    tasks: seq<Task>,
    queue: seq<TaskId>,
    mtx: Option<ThreadId>,
    sessions: map<SessionId, Owned>,
    threads: map<ThreadId, Thread>)

  const INIT := State([], [], None, map[], map[])

  const NO_TASK := Task(0, 0, Free, Free, 0, 0, false)

  function TaskOf(s: State, id: TaskId): Task {
    if id < |s.tasks| then s.tasks[id] else NO_TASK
  }

  function ThreadOf(s: State, t: ThreadId): Thread {
    if t in s.threads then s.threads[t] else Thread(Outside, Idle)
  }

  function SetTask(s: State, id: TaskId, task: Task): State {
    if id < |s.tasks| then s.(tasks := s.tasks[id := task]) else s
  }

  function SetRun(s: State, t: ThreadId, run: RunPc): State {
    s.(threads := s.threads[t := ThreadOf(s, t).(run := run)])
  }

  function SetOp(s: State, t: ThreadId, op: OpPc): State {
    s.(threads := s.threads[t := ThreadOf(s, t).(op := op)])
  }

  // Schedule

  /** A library call may be started by a thread in none, or from inside a task callback. */
  predicate MayCall(th: Thread) {
    th.op.Idle? && (th.run.Outside? || th.run.Running?)
  }

  function BeginSchedule(s: State, t: ThreadId, due: int, session: SessionId): State {
    SetOp(s, t, Inserting(due, session))
  }

  predicate CanLockInsert(s: State, t: ThreadId) { ThreadOf(s, t).op.Inserting? && s.mtx.None? }

  function LockInsert(s: State, t: ThreadId): State
    requires CanLockInsert(s, t)
  {
    var op := ThreadOf(s, t).op;
    SetOp(s, t, InsertLocked(op.due, op.session)).(mtx := Some(t))
  }

  /** multimap::insert puts an equal key after the ones already there. */
  function InsertAt(s: State, due: int, k: nat): (p: nat)
    requires k <= |s.queue|
    ensures p <= k
    ensures p > 0 ==> TaskOf(s, s.queue[p - 1]).due <= due
    ensures forall i :: p <= i < k ==> due < TaskOf(s, s.queue[i]).due
    decreases k
  {
    if k == 0 || TaskOf(s, s.queue[k - 1]).due <= due then k else InsertAt(s, due, k - 1)
  }

  predicate CanInsertUnlock(s: State, t: ThreadId) { ThreadOf(s, t).op.InsertLocked? }

  function InsertUnlock(s: State, t: ThreadId): State
    requires CanInsertUnlock(s, t)
  {
    var op := ThreadOf(s, t).op;
    var p := InsertAt(s, op.due, |s.queue|);
    SetOp(s, t, Idle).(
      tasks := s.tasks + [Task(op.due, op.session, Free, Free, 0, 0, false)],
      queue := s.queue[..p] + [|s.tasks|] + s.queue[p..],
      mtx := None)
  }

  // Cancel

  predicate CanBeginCancel(s: State, t: ThreadId, id: TaskId) {
    MayCall(ThreadOf(s, t)) && id < |s.tasks|
  }

  function BeginCancel(s: State, t: ThreadId, id: TaskId): State {
    SetTask(SetOp(s, t, Claiming(id)), id, TaskOf(s, id).(cancels := TaskOf(s, id).cancels + 1))
  }

  predicate CanTryClaim(s: State, t: ThreadId) { ThreadOf(s, t).op.Claiming? }

  /** invalid.try_lock(): the winner goes on to erase; a loser waits for `callLock` unless
      its thread is inside RunOnce. */
  function TryClaim(s: State, t: ThreadId): State
    requires CanTryClaim(s, t)
  {
    var th := ThreadOf(s, t);
    var task := TaskOf(s, th.op.id);
    if task.invalid.Free? then
      SetTask(SetOp(s, t, Erasing(th.op.id)), th.op.id, task.(invalid := ByCanceller(t)))
    else SetOp(s, t, if th.run.Outside? then Waiting(th.op.id) else Idle)
  }

  predicate CanLockErase(s: State, t: ThreadId) { ThreadOf(s, t).op.Erasing? && s.mtx.None? }

  function LockErase(s: State, t: ThreadId): State
    requires CanLockErase(s, t)
  {
    SetOp(s, t, EraseLocked(ThreadOf(s, t).op.id)).(mtx := Some(t))
  }

  function IndexOf(q: seq<TaskId>, id: TaskId): (i: nat)
    ensures i <= |q|
    ensures if i < |q| then q[i] == id else id !in q
  {
    if q == [] || q[0] == id then 0 else 1 + IndexOf(q[1..], id)
  }

  function RemoveAt(q: seq<TaskId>, i: nat): seq<TaskId> {
    if i < |q| then q[..i] + q[i + 1..] else q
  }

  predicate CanEraseUnlock(s: State, t: ThreadId) { ThreadOf(s, t).op.EraseLocked? }

  function EraseUnlock(s: State, t: ThreadId): State
    requires CanEraseUnlock(s, t)
  {
    var th := ThreadOf(s, t);
    var task := TaskOf(s, th.op.id);
    SetTask(SetOp(s, t, Idle), th.op.id, task.(settled := true)).(
      queue := RemoveAt(s.queue, IndexOf(s.queue, th.op.id)), mtx := None)
  }

  predicate CanWaitCall(s: State, t: ThreadId) {
    var op := ThreadOf(s, t).op; op.Waiting? && TaskOf(s, op.id).callLock.Free?
  }

  /** callLock.lock() succeeds; the canceller never gives the lock back. */
  function WaitCall(s: State, t: ThreadId): State
    requires CanWaitCall(s, t)
  {
    var id := ThreadOf(s, t).op.id;
    SetTask(SetOp(s, t, Idle), id, TaskOf(s, id).(callLock := ByCanceller(t), settled := true))
  }

  // RunOnce: the scan

  predicate CanEnter(s: State, t: ThreadId) { ThreadOf(s, t) == Thread(Outside, Idle) }

  function Enter(s: State, t: ThreadId, now: int): State {
    SetRun(s, t, Entered(now))
  }

  predicate CanLockScan(s: State, t: ThreadId) { ThreadOf(s, t).run.Entered? && s.mtx.None? }

  function LockScan(s: State, t: ThreadId): State
    requires CanLockScan(s, t)
  {
    SetRun(s, t, Scanning(ThreadOf(s, t).run.now, 0, [])).(mtx := Some(t))
  }

  /** The loop condition: not at the end, and `now > itr->first`. */
  predicate CanScanTry(s: State, t: ThreadId) {
    var run := ThreadOf(s, t).run;
    run.Scanning? && run.at < |s.queue| && run.now > TaskOf(s, s.queue[run.at]).due
  }

  function ScanTry(s: State, t: ThreadId): State
    requires CanScanTry(s, t)
  {
    var run := ThreadOf(s, t).run;
    var id := s.queue[run.at];
    if TaskOf(s, id).invalid.Free? then
      SetTask(SetRun(s, t, ScanWon(run.now, run.at, run.batch)), id, TaskOf(s, id).(invalid := ByRunner(t)))
    else SetRun(s, t, Scanning(run.now, run.at + 1, run.batch))
  }

  predicate CanScanErase(s: State, t: ThreadId) {
    var run := ThreadOf(s, t).run; run.ScanWon? && run.at < |s.queue|
  }

  function ScanErase(s: State, t: ThreadId): State
    requires CanScanErase(s, t)
  {
    var run := ThreadOf(s, t).run;
    SetRun(s, t, Scanning(run.now, run.at, run.batch + [s.queue[run.at]])).(queue := RemoveAt(s.queue, run.at))
  }

  predicate CanScanDone(s: State, t: ThreadId) { ThreadOf(s, t).run.Scanning? && !CanScanTry(s, t) }

  function ScanDone(s: State, t: ThreadId): State
    requires CanScanDone(s, t)
  {
    var run := ThreadOf(s, t).run;
    SetRun(s, t, Triggering(run.now, run.batch, 0)).(mtx := None)
  }

  // RunOnce: the trigger loop

  predicate CanTryCall(s: State, t: ThreadId) {
    var run := ThreadOf(s, t).run; run.Triggering? && run.k < |run.batch|
  }

  function TryCall(s: State, t: ThreadId): State
    requires CanTryCall(s, t)
  {
    var run := ThreadOf(s, t).run;
    var id := run.batch[run.k];
    if TaskOf(s, id).callLock.Free? then
      SetTask(SetRun(s, t, HasCall(run.now, run.batch, run.k)), id, TaskOf(s, id).(callLock := ByRunner(t)))
    else SetRun(s, t, Triggering(run.now, run.batch, run.k + 1))
  }

  predicate MayLock(s: State, t: ThreadId, m: SessionId) {
    m !in s.sessions || s.sessions[m].t == t
  }

  function Lock(s: State, t: ThreadId, m: SessionId): State {
    var was := if m in s.sessions then s.sessions[m] else NOT_OWNED;
    s.(sessions := s.sessions[m := Owned(t, was.depth + 1, was.asked)])
  }

  function Unlock(s: State, m: SessionId): State {
    if m !in s.sessions then s
    else if s.sessions[m].depth <= 1 then s.(sessions := s.sessions - {m})
    else s.(sessions := s.sessions[m := s.sessions[m].(depth := s.sessions[m].depth - 1)])
  }

  predicate InCall(run: RunPc) {
    run.HasCall? || run.Running? || run.Ran?
  }

  predicate HoldsTask(run: RunPc) {
    InCall(run) && run.k < |run.batch|
  }

  predicate CanTrySession(s: State, t: ThreadId) {
    var run := ThreadOf(s, t).run; run.HasCall? && HoldsTask(run)
  }

  /** A failed try_lock of the session mutex gives `callLock` back and starts over. */
  function TrySession(s: State, t: ThreadId): State
    requires CanTrySession(s, t)
  {
    var run := ThreadOf(s, t).run;
    var id := run.batch[run.k];
    var task := TaskOf(s, id);
    if MayLock(s, t, task.session) then
      Lock(SetTask(SetRun(s, t, Running(run.now, run.batch, run.k)), id, task.(runs := task.runs + 1)),
           t, task.session)
    else SetTask(SetRun(s, t, Triggering(run.now, run.batch, run.k)), id, task.(callLock := Free))
  }

  predicate CanFinishRun(s: State, t: ThreadId) {
    var th := ThreadOf(s, t); th.run.Running? && th.op.Idle? && HoldsTask(th.run)
  }

  function FinishRun(s: State, t: ThreadId): State
    requires CanFinishRun(s, t)
  {
    var run := ThreadOf(s, t).run;
    Unlock(SetRun(s, t, Ran(run.now, run.batch, run.k)), TaskOf(s, run.batch[run.k]).session)
  }

  predicate CanReleaseCall(s: State, t: ThreadId) {
    var run := ThreadOf(s, t).run; run.Ran? && HoldsTask(run)
  }

  function ReleaseCall(s: State, t: ThreadId): State
    requires CanReleaseCall(s, t)
  {
    var run := ThreadOf(s, t).run;
    var id := run.batch[run.k];
    SetTask(SetRun(s, t, Triggering(run.now, run.batch, run.k + 1)), id, TaskOf(s, id).(callLock := Free))
  }

  predicate CanLeave(s: State, t: ThreadId) {
    var run := ThreadOf(s, t).run; run.Triggering? && run.k == |run.batch|
  }

  function Leave(s: State, t: ThreadId): State {
    SetRun(s, t, Outside)
  }

  // Session mutexes, as the rest of the program uses them

  function WantSession(s: State, t: ThreadId, m: SessionId): State {
    SetOp(s, t, Locking(m))
  }

  predicate CanLockSession(s: State, t: ThreadId) {
    var op := ThreadOf(s, t).op; op.Locking? && MayLock(s, t, op.m)
  }

  function LockSession(s: State, t: ThreadId): State
    requires CanLockSession(s, t)
  {
    var m := ThreadOf(s, t).op.m;
    var s' := Lock(SetOp(s, t, Idle), t, m);
    s'.(sessions := s'.sessions[m := s'.sessions[m].(asked := s'.sessions[m].asked + 1)])
  }

  /** A thread gives back only what it asked for, not the lock that RunOnce took for a callback. */
  predicate CanUnlockSession(s: State, t: ThreadId, m: SessionId) {
    MayCall(ThreadOf(s, t)) && m in s.sessions && s.sessions[m].t == t && s.sessions[m].asked > 0
  }

  function UnlockSession(s: State, t: ThreadId, m: SessionId): State
    requires CanUnlockSession(s, t, m)
  {
    Unlock(s.(sessions := s.sessions[m := s.sessions[m].(asked := s.sessions[m].asked - 1)]), m)
  }

  datatype Action =
    | DoBeginSchedule(due: int, session: SessionId) | DoLockInsert | DoInsertUnlock
    | DoBeginCancel(id: TaskId) | DoTryClaim | DoLockErase | DoEraseUnlock | DoWaitCall
    | DoEnter(now: int) | DoLockScan | DoScanTry | DoScanErase | DoScanDone
    | DoTryCall | DoTrySession | DoFinishRun | DoReleaseCall | DoLeave
    | DoWantSession(m: SessionId) | DoLockSession | DoUnlockSession(m: SessionId)

  predicate Enabled(s: State, t: ThreadId, a: Action) {
    match a
    case DoBeginSchedule(_, _) => MayCall(ThreadOf(s, t))
    case DoLockInsert => CanLockInsert(s, t)
    case DoInsertUnlock => CanInsertUnlock(s, t)
    case DoBeginCancel(id) => CanBeginCancel(s, t, id)
    case DoTryClaim => CanTryClaim(s, t)
    case DoLockErase => CanLockErase(s, t)
    case DoEraseUnlock => CanEraseUnlock(s, t)
    case DoWaitCall => CanWaitCall(s, t)
    case DoEnter(_) => CanEnter(s, t)
    case DoLockScan => CanLockScan(s, t)
    case DoScanTry => CanScanTry(s, t)
    case DoScanErase => CanScanErase(s, t)
    case DoScanDone => CanScanDone(s, t)
    case DoTryCall => CanTryCall(s, t)
    case DoTrySession => CanTrySession(s, t)
    case DoFinishRun => CanFinishRun(s, t)
    case DoReleaseCall => CanReleaseCall(s, t)
    case DoLeave => CanLeave(s, t)
    case DoWantSession(_) => MayCall(ThreadOf(s, t))
    case DoLockSession => CanLockSession(s, t)
    case DoUnlockSession(m) => CanUnlockSession(s, t, m)
  }

  /** The state after thread `t` takes action `a`. */
  function After(s: State, t: ThreadId, a: Action): State
    requires Enabled(s, t, a)
  {
    match a
    case DoBeginSchedule(due, session) => BeginSchedule(s, t, due, session)
    case DoLockInsert => LockInsert(s, t)
    case DoInsertUnlock => InsertUnlock(s, t)
    case DoBeginCancel(id) => BeginCancel(s, t, id)
    case DoTryClaim => TryClaim(s, t)
    case DoLockErase => LockErase(s, t)
    case DoEraseUnlock => EraseUnlock(s, t)
    case DoWaitCall => WaitCall(s, t)
    case DoEnter(now) => Enter(s, t, now)
    case DoLockScan => LockScan(s, t)
    case DoScanTry => ScanTry(s, t)
    case DoScanErase => ScanErase(s, t)
    case DoScanDone => ScanDone(s, t)
    case DoTryCall => TryCall(s, t)
    case DoTrySession => TrySession(s, t)
    case DoFinishRun => FinishRun(s, t)
    case DoReleaseCall => ReleaseCall(s, t)
    case DoLeave => Leave(s, t)
    case DoWantSession(m) => WantSession(s, t, m)
    case DoLockSession => LockSession(s, t)
    case DoUnlockSession(m) => UnlockSession(s, t, m)
  }

  predicate Next(s: State, t: ThreadId, a: Action, s': State) {
    Enabled(s, t, a) && s' == After(s, t, a)
  }

  // The inductive invariant

  predicate Unique(q: seq<TaskId>) {
    forall i, j :: 0 <= i < j < |q| ==> q[i] != q[j]
  }

  /** The ids in `q` exist and their due times never decrease. */
  predicate Sorted(s: State, q: seq<TaskId>) {
    && (forall i :: 0 <= i < |q| ==> q[i] < |s.tasks|)
    && (forall i, j :: 0 <= i < j < |q| ==> TaskOf(s, q[i]).due <= TaskOf(s, q[j]).due)
  }

  /** A queued task has its `invalid` flag free, or its winner is about to erase it. */
  predicate QueuedOk(s: State, id: TaskId) {
    var task := TaskOf(s, id);
    && task.runs == 0
    && (task.invalid.ByCanceller? ==>
          var op := ThreadOf(s, task.invalid.t).op; op == Erasing(id) || op == EraseLocked(id))
    && (task.invalid.ByRunner? ==>
          var run := ThreadOf(s, task.invalid.t).run;
          run.ScanWon? && run.at < |s.queue| && s.queue[run.at] == id)
  }

  predicate QueueOk(s: State) {
    && Unique(s.queue) && Sorted(s, s.queue)
    && (forall id :: id in s.queue ==> QueuedOk(s, id))
  }

  predicate TaskOk(s: State, id: TaskId) {
    var task := TaskOf(s, id);
    && task.runs <= 1
    && (task.runs > 0 ==> task.invalid.ByRunner?)
    && (task.invalid.Free? ==> id in s.queue)
    && (task.callLock.ByRunner? ==>
          var run := ThreadOf(s, task.callLock.t).run; HoldsTask(run) && run.batch[run.k] == id)
    && (task.callLock.ByCanceller? ==> task.cancels > 0)
    && (task.settled ==> task.invalid.ByCanceller? || task.callLock.ByCanceller?)
  }

  ghost predicate TasksOk(s: State) {
    forall id {:trigger TaskOk(s, id)} {:trigger s.tasks[id]} :: 0 <= id < |s.tasks| ==> TaskOk(s, id)
  }

  predicate HoldsMtx(th: Thread) {
    th.op.InsertLocked? || th.op.EraseLocked? || th.run.Scanning? || th.run.ScanWon?
  }

  /** The tasks a thread has won and taken out of the queue: they are its own, in due order,
      and the ones it has not come to have not been run. */
  predicate BatchOk(s: State, t: ThreadId, now: int, batch: seq<TaskId>, from: nat) {
    && Unique(batch) && Sorted(s, batch)
    && (forall i :: 0 <= i < |batch| ==> TaskOf(s, batch[i]).due < now)
    && (forall i :: 0 <= i < |batch| ==>
          TaskOf(s, batch[i]).invalid == ByRunner(t) && batch[i] !in s.queue)
    && (forall i :: from <= i < |batch| ==> TaskOf(s, batch[i]).runs == 0)
  }

  predicate ScanOk(s: State, at: nat, batch: seq<TaskId>) {
    && at <= |s.queue|
    && (forall i, j :: 0 <= i < |batch| && at <= j < |s.queue| ==>
          TaskOf(s, batch[i]).due <= TaskOf(s, s.queue[j]).due)
  }

  predicate RunOk(s: State, t: ThreadId, run: RunPc) {
    match run
    case Outside => true
    case Entered(_) => true
    case Scanning(now, at, batch) => BatchOk(s, t, now, batch, 0) && ScanOk(s, at, batch)
    case ScanWon(now, at, batch) =>
      && BatchOk(s, t, now, batch, 0) && ScanOk(s, at, batch)
      && at < |s.queue| && TaskOf(s, s.queue[at]).invalid == ByRunner(t)
      && TaskOf(s, s.queue[at]).due < now
    case Triggering(now, batch, k) => k <= |batch| && BatchOk(s, t, now, batch, k)
    case HasCall(now, batch, k) =>
      k < |batch| && BatchOk(s, t, now, batch, k) && TaskOf(s, batch[k]).callLock == ByRunner(t)
    case Running(now, batch, k) =>
      && k < |batch| && BatchOk(s, t, now, batch, k + 1) && TaskOf(s, batch[k]).callLock == ByRunner(t)
      && var m := TaskOf(s, batch[k]).session;
         m in s.sessions && s.sessions[m].t == t && s.sessions[m].asked < s.sessions[m].depth
    case Ran(now, batch, k) =>
      k < |batch| && BatchOk(s, t, now, batch, k + 1) && TaskOf(s, batch[k]).callLock == ByRunner(t)
  }

  predicate OpOk(s: State, t: ThreadId, th: Thread) {
    match th.op
    case Idle => true
    case Inserting(_, _) => true
    case InsertLocked(_, _) => true
    case Locking(_) => true
    case Claiming(id) => id < |s.tasks| && TaskOf(s, id).cancels > 0
    case Erasing(id) => id in s.queue && TaskOf(s, id).invalid == ByCanceller(t)
    case EraseLocked(id) => id in s.queue && TaskOf(s, id).invalid == ByCanceller(t)
    case Waiting(id) =>
      && id < |s.tasks| && !TaskOf(s, id).invalid.Free? && th.run.Outside?
      && TaskOf(s, id).cancels > 0
  }

  predicate ThreadOk(s: State, t: ThreadId) {
    var th := ThreadOf(s, t);
    && (th.op.Idle? || th.run.Outside? || th.run.Running?)
    && RunOk(s, t, th.run) && OpOk(s, t, th)
    && (HoldsMtx(th) <==> s.mtx == Some(t))
  }

  ghost predicate ThreadsOk(s: State) {
    forall t: ThreadId {:trigger ThreadOk(s, t)} {:trigger ThreadOf(s, t)} :: ThreadOk(s, t)
  }

  predicate Balanced(s: State) {
    forall m :: m in s.sessions ==> s.sessions[m].asked <= s.sessions[m].depth
  }

  ghost predicate Inv(s: State) {
    QueueOk(s) && TasksOk(s) && ThreadsOk(s) && Balanced(s)
  }

  // What a thread relies on the others to leave alone

  predicate TaskSpared(a: Task, b: Task, u: ThreadId) {
    && a.due == b.due && a.session == b.session && a.cancels <= b.cancels
    && (!a.invalid.Free? ==> a.invalid == b.invalid)
    && (a.invalid == ByRunner(u) ==> a.runs == b.runs)
    && (a.callLock == ByRunner(u) ==> a.callLock == b.callLock)
  }

  predicate Spares(s: State, s': State, u: ThreadId) {
    && |s.tasks| <= |s'.tasks|
    && (forall id :: 0 <= id < |s.tasks| ==> TaskSpared(s.tasks[id], s'.tasks[id], u))
    && (forall id :: id in s'.queue && id < |s.tasks| ==> id in s.queue)
    && (forall id :: id in s.queue && TaskOf(s, id).invalid == ByCanceller(u) ==> id in s'.queue)
    && (s.mtx == Some(u) <==> s'.mtx == Some(u))
    && (s.mtx == Some(u) ==> s.queue == s'.queue)
    && (forall m :: m in s.sessions && s.sessions[m].t == u ==> m in s'.sessions && s'.sessions[m] == s.sessions[m])
    && ThreadOf(s, u) == ThreadOf(s', u)
  }

  lemma SparedBatch(s: State, s': State, u: ThreadId, now: int, batch: seq<TaskId>, from: nat)
    requires BatchOk(s, u, now, batch, from) && Spares(s, s', u)
    ensures BatchOk(s', u, now, batch, from)
  {
    assert forall i :: 0 <= i < |batch| ==> batch[i] < |s.tasks|;
  }

  lemma SparedScan(s: State, s': State, u: ThreadId, now: int, at: nat, batch: seq<TaskId>)
    requires QueueOk(s) && BatchOk(s, u, now, batch, 0) && ScanOk(s, at, batch)
    requires Spares(s, s', u) && s.mtx == Some(u)
    ensures ScanOk(s', at, batch)
  {
    assert forall i :: 0 <= i < |batch| ==> batch[i] < |s.tasks|;
    assert forall i :: 0 <= i < |s.queue| ==> s.queue[i] < |s.tasks|;
  }

  lemma SparedScanner(s: State, s': State, u: ThreadId, run: RunPc)
    requires QueueOk(s) && RunOk(s, u, run) && Spares(s, s', u)
    requires (run.Scanning? || run.ScanWon?) && s.mtx == Some(u)
    ensures RunOk(s', u, run)
  {
    SparedBatch(s, s', u, run.now, run.batch, 0);
    SparedScan(s, s', u, run.now, run.at, run.batch);
  }

  lemma SparedTrigger(s: State, s': State, u: ThreadId, run: RunPc)
    requires RunOk(s, u, run) && Spares(s, s', u)
    requires run.Triggering? || InCall(run)
    ensures RunOk(s', u, run)
  {
    SparedBatch(s, s', u, run.now, run.batch, if run.Triggering? || run.HasCall? then run.k else run.k + 1);
    assert run.k < |run.batch| ==> run.batch[run.k] < |s.tasks|;
  }

  lemma SparedRun(s: State, s': State, u: ThreadId, run: RunPc)
    requires QueueOk(s) && RunOk(s, u, run) && Spares(s, s', u)
    requires run.Scanning? || run.ScanWon? ==> s.mtx == Some(u)
    ensures RunOk(s', u, run)
  {
    if run.Scanning? || run.ScanWon? {
      SparedScanner(s, s', u, run);
    } else if run.Triggering? || InCall(run) {
      SparedTrigger(s, s', u, run);
    }
  }

  lemma SparedThread(s: State, s': State, u: ThreadId)
    requires QueueOk(s) && ThreadOk(s, u) && Spares(s, s', u)
    ensures ThreadOk(s', u)
  {
    SparedRun(s, s', u, ThreadOf(s, u).run);
    var op := ThreadOf(s, u).op;
    if op.Erasing? || op.EraseLocked? {
      assert op.id in s.queue && op.id < |s.tasks|;
    }
  }

  lemma Assemble(s: State, s': State, t: ThreadId)
    requires Inv(s)
    requires forall u: ThreadId :: u != t ==> Spares(s, s', u)
    requires ThreadOk(s', t) && QueueOk(s') && TasksOk(s') && Balanced(s')
    ensures Inv(s')
  {
    forall u: ThreadId ensures ThreadOk(s', u) {
      if u != t { SparedThread(s, s', u); }
    }
  }

  /** Thread `t` moves, at most one task changes, and the queue stays. */
  ghost predicate Touches(s: State, s': State, t: ThreadId, id: TaskId) {
    && s.queue == s'.queue && |s.tasks| == |s'.tasks|
    && (forall j {:trigger s'.tasks[j]} :: 0 <= j < |s.tasks| && j != id ==> s'.tasks[j] == s.tasks[j])
    && (forall u: ThreadId :: u != t ==>
          && ThreadOf(s, u) == ThreadOf(s', u) && (s.mtx == Some(u) <==> s'.mtx == Some(u))
          && (id < |s.tasks| ==> TaskSpared(s.tasks[id], s'.tasks[id], u)))
    && (forall m {:trigger m in s.sessions} :: m in s.sessions && s.sessions[m].t != t ==>
          m in s'.sessions && s'.sessions[m] == s.sessions[m])
  }

  /** Thread `t` gives up no role that the invariant of a task other than `id` leans on. */
  predicate KeepsRoles(s: State, s': State, t: ThreadId, id: TaskId) {
    var th, th' := ThreadOf(s, t), ThreadOf(s', t);
    && ((th.op.Erasing? || th.op.EraseLocked?) && th.op.id != id ==>
          (th'.op.Erasing? || th'.op.EraseLocked?) && th'.op.id == th.op.id)
    && (th.run.ScanWon? ==> th'.run == th.run)
    && (HoldsTask(th.run) && th.run.batch[th.run.k] != id ==>
          HoldsTask(th'.run) && th'.run.batch[th'.run.k] == th.run.batch[th.run.k])
  }

  lemma TouchedQueue(s: State, s': State, t: ThreadId, id: TaskId)
    requires QueueOk(s) && Touches(s, s', t, id) && KeepsRoles(s, s', t, id)
    requires id < |s.tasks| && id in s.queue ==> QueuedOk(s', id)
    ensures QueueOk(s')
  {
    assert id < |s.tasks| ==> TaskSpared(s.tasks[id], s'.tasks[id], t + 1);
    assert forall j :: 0 <= j < |s.tasks| ==> TaskOf(s', j).due == TaskOf(s, j).due;
    forall j | j in s'.queue ensures QueuedOk(s', j) {
      assert QueuedOk(s, j) && j < |s.tasks|;
    }
  }

  lemma KeepsTouching(s: State, s': State, t: ThreadId, id: TaskId)
    requires Inv(s) && Touches(s, s', t, id) && KeepsRoles(s, s', t, id)
    requires id < |s.tasks| ==> TaskOk(s', id) && (id in s.queue ==> QueuedOk(s', id))
    requires ThreadOk(s', t) && Balanced(s')
    ensures Inv(s')
  {
    TouchedQueue(s, s', t, id);
    forall j | 0 <= j < |s'.tasks| ensures TaskOk(s', j) {
      assert TaskOk(s, j);
    }
    Assemble(s, s', t);
  }

  /** A thread's own batch after its own step. */
  lemma OwnBatch(s: State, s': State, t: ThreadId, id: TaskId, now: int, batch: seq<TaskId>, from: nat, from': nat)
    requires BatchOk(s, t, now, batch, from) && from <= from' && Touches(s, s', t, id)
    requires id < |s.tasks| ==>
               && s'.tasks[id].due == s.tasks[id].due
               && (s.tasks[id].invalid.Free? || s'.tasks[id].invalid == s.tasks[id].invalid)
               && (s'.tasks[id].runs == s.tasks[id].runs || forall i :: from' <= i < |batch| ==> batch[i] != id)
    ensures BatchOk(s', t, now, batch, from')
  {
    assert forall i :: 0 <= i < |batch| ==> batch[i] < |s.tasks|;
  }

  lemma BeginScheduleTouches(s: State, t: ThreadId, due: int, session: SessionId, s': State)
    requires Inv(s) && MayCall(ThreadOf(s, t)) && s' == BeginSchedule(s, t, due, session)
    ensures Touches(s, s', t, |s.tasks|) && KeepsRoles(s, s', t, |s.tasks|) && ThreadOk(s', t)
  {
    assert ThreadOk(s, t);
  }

  lemma KeepsBeginSchedule(s: State, t: ThreadId, due: int, session: SessionId, s': State)
    requires Inv(s) && MayCall(ThreadOf(s, t)) && s' == BeginSchedule(s, t, due, session)
    ensures Inv(s')
  {
    BeginScheduleTouches(s, t, due, session, s');
    KeepsTouching(s, s', t, |s.tasks|);
  }

  lemma KeepsLockInsert(s: State, t: ThreadId, s': State)
    requires Inv(s) && CanLockInsert(s, t) && s' == LockInsert(s, t)
    ensures Inv(s')
  {
    KeepsTouching(s, s', t, |s.tasks|);
  }

  lemma BeginCancelTouches(s: State, t: ThreadId, id: TaskId, s': State)
    requires Inv(s) && CanBeginCancel(s, t, id) && s' == BeginCancel(s, t, id)
    ensures Touches(s, s', t, id) && KeepsRoles(s, s', t, id)
  {
    assert ThreadOk(s, t);
  }

  lemma KeepsBeginCancel(s: State, t: ThreadId, id: TaskId, s': State)
    requires Inv(s) && CanBeginCancel(s, t, id) && s' == BeginCancel(s, t, id)
    ensures Inv(s')
  {
    BeginCancelTouches(s, t, id, s');
    var run := ThreadOf(s, t).run;
    if run.Running? { OwnBatch(s, s', t, id, run.now, run.batch, run.k + 1, run.k + 1); }
    KeepsTouching(s, s', t, id);
  }

  lemma TryClaimTouches(s: State, t: ThreadId, s': State)
    requires Inv(s) && CanTryClaim(s, t) && s' == TryClaim(s, t)
    ensures Touches(s, s', t, ThreadOf(s, t).op.id) && KeepsRoles(s, s', t, ThreadOf(s, t).op.id)
  {
    assert ThreadOk(s, t);
  }

  lemma KeepsTryClaim(s: State, t: ThreadId, s': State)
    requires Inv(s) && CanTryClaim(s, t) && s' == TryClaim(s, t)
    ensures Inv(s')
  {
    var th := ThreadOf(s, t);
    TryClaimTouches(s, t, s');
    if th.run.Running? { OwnBatch(s, s', t, th.op.id, th.run.now, th.run.batch, th.run.k + 1, th.run.k + 1); }
    KeepsTouching(s, s', t, th.op.id);
  }

  lemma KeepsLockErase(s: State, t: ThreadId, s': State)
    requires Inv(s) && CanLockErase(s, t) && s' == LockErase(s, t)
    ensures Inv(s')
  {
    var run := ThreadOf(s, t).run;
    if run.Running? { OwnBatch(s, s', t, |s.tasks|, run.now, run.batch, run.k + 1, run.k + 1); }
    KeepsTouching(s, s', t, |s.tasks|);
  }

  lemma KeepsWaitCall(s: State, t: ThreadId, s': State)
    requires Inv(s) && CanWaitCall(s, t) && s' == WaitCall(s, t)
    ensures Inv(s')
  {
    KeepsTouching(s, s', t, ThreadOf(s, t).op.id);
  }

  lemma KeepsEnter(s: State, t: ThreadId, now: int, s': State)
    requires Inv(s) && CanEnter(s, t) && s' == Enter(s, t, now)
    ensures Inv(s')
  {
    KeepsTouching(s, s', t, |s.tasks|);
  }

  lemma KeepsLockScan(s: State, t: ThreadId, s': State)
    requires Inv(s) && CanLockScan(s, t) && s' == LockScan(s, t)
    ensures Inv(s')
  {
    KeepsTouching(s, s', t, |s.tasks|);
  }

  lemma ScanTryTouches(s: State, t: ThreadId, s': State)
    requires Inv(s) && CanScanTry(s, t) && s' == ScanTry(s, t)
    ensures Touches(s, s', t, s.queue[ThreadOf(s, t).run.at]) && KeepsRoles(s, s', t, s.queue[ThreadOf(s, t).run.at])
  {
    assert ThreadOk(s, t);
  }

  lemma KeepsScanTry(s: State, t: ThreadId, s': State)
    requires Inv(s) && CanScanTry(s, t) && s' == ScanTry(s, t)
    ensures Inv(s')
  {
    ScanTryTouches(s, t, s');
    ScanTryOwn(s, t, s');
    ScanTryTask(s, t, s');
    KeepsTouching(s, s', t, s.queue[ThreadOf(s, t).run.at]);
  }

  lemma ScanTryOwn(s: State, t: ThreadId, s': State)
    requires ThreadOk(s, t) && QueueOk(s) && CanScanTry(s, t) && s' == ScanTry(s, t)
    requires Touches(s, s', t, s.queue[ThreadOf(s, t).run.at])
    ensures ThreadOk(s', t)
  {
    var run := ThreadOf(s, t).run;
    OwnBatch(s, s', t, s.queue[run.at], run.now, run.batch, 0, 0);
    assert ScanOk(s', ThreadOf(s', t).run.at, run.batch);
  }

  lemma ScanTryTask(s: State, t: ThreadId, s': State)
    requires Inv(s) && CanScanTry(s, t) && s' == ScanTry(s, t)
    ensures var id := s.queue[ThreadOf(s, t).run.at]; TaskOk(s', id) && QueuedOk(s', id)
  {
    var id := s.queue[ThreadOf(s, t).run.at];
    assert ThreadOk(s, t) && TaskOk(s, id) && QueuedOk(s, id);
  }

  lemma ScanDoneTouches(s: State, t: ThreadId, s': State)
    requires Inv(s) && CanScanDone(s, t) && s' == ScanDone(s, t)
    ensures Touches(s, s', t, |s.tasks|) && KeepsRoles(s, s', t, |s.tasks|) && ThreadOk(s', t)
  {
    assert ThreadOk(s, t);
  }

  lemma KeepsScanDone(s: State, t: ThreadId, s': State)
    requires Inv(s) && CanScanDone(s, t) && s' == ScanDone(s, t)
    ensures Inv(s')
  {
    ScanDoneTouches(s, t, s');
    KeepsTouching(s, s', t, |s.tasks|);
  }

  lemma KeepsTryCall(s: State, t: ThreadId, s': State)
    requires Inv(s) && CanTryCall(s, t) && s' == TryCall(s, t)
    ensures Inv(s')
  {
    var run := ThreadOf(s, t).run;
    OwnBatch(s, s', t, run.batch[run.k], run.now, run.batch, run.k, ThreadOf(s', t).run.k);
    KeepsTouching(s, s', t, run.batch[run.k]);
  }

  lemma KeepsTrySession(s: State, t: ThreadId, s': State)
    requires Inv(s) && CanTrySession(s, t) && s' == TrySession(s, t)
    ensures Inv(s')
  {
    var run := ThreadOf(s, t).run;
    var from := if ThreadOf(s', t).run.Running? then run.k + 1 else run.k;
    OwnBatch(s, s', t, run.batch[run.k], run.now, run.batch, run.k, from);
    KeepsTouching(s, s', t, run.batch[run.k]);
  }

  lemma UnlockTouches(s: State, s': State, t: ThreadId, m: SessionId)
    requires m in s.sessions ==> s.sessions[m].t == t
    requires forall u: ThreadId :: u != t ==> ThreadOf(s', u) == ThreadOf(s, u)
    requires s'.(threads := s.threads, sessions := s.sessions) == s
    requires forall x {:trigger x in s.sessions} :: x in s.sessions && x != m ==>
               x in s'.sessions && s'.sessions[x] == s.sessions[x]
    ensures Touches(s, s', t, |s.tasks|)
  {
  }

  lemma FinishRunTouches(s: State, t: ThreadId, s': State)
    requires ThreadOk(s, t) && CanFinishRun(s, t) && s' == FinishRun(s, t)
    ensures Touches(s, s', t, |s.tasks|) && KeepsRoles(s, s', t, |s.tasks|) && ThreadOk(s', t)
  {
    var run := ThreadOf(s, t).run;
    UnlockTouches(s, s', t, TaskOf(s, run.batch[run.k]).session);
    OwnBatch(s, s', t, |s.tasks|, run.now, run.batch, run.k + 1, run.k + 1);
  }

  lemma KeepsFinishRun(s: State, t: ThreadId, s': State)
    requires Inv(s) && CanFinishRun(s, t) && s' == FinishRun(s, t)
    ensures Inv(s')
  {
    assert ThreadOk(s, t);
    FinishRunTouches(s, t, s');
    KeepsTouching(s, s', t, |s.tasks|);
  }

  lemma KeepsReleaseCall(s: State, t: ThreadId, s': State)
    requires Inv(s) && CanReleaseCall(s, t) && s' == ReleaseCall(s, t)
    ensures Inv(s')
  {
    var run := ThreadOf(s, t).run;
    OwnBatch(s, s', t, run.batch[run.k], run.now, run.batch, run.k + 1, run.k + 1);
    KeepsTouching(s, s', t, run.batch[run.k]);
  }

  lemma KeepsLeave(s: State, t: ThreadId, s': State)
    requires Inv(s) && CanLeave(s, t) && s' == Leave(s, t)
    ensures Inv(s')
  {
    KeepsTouching(s, s', t, |s.tasks|);
  }

  lemma KeepsWantSession(s: State, t: ThreadId, m: SessionId, s': State)
    requires Inv(s) && MayCall(ThreadOf(s, t)) && s' == WantSession(s, t, m)
    ensures Inv(s')
  {
    assert ThreadOk(s, t);
    KeepsTouching(s, s', t, |s.tasks|);
  }

  lemma KeepsLockSession(s: State, t: ThreadId, s': State)
    requires Inv(s) && CanLockSession(s, t) && s' == LockSession(s, t)
    ensures Inv(s')
  {
    assert ThreadOk(s, t);
    KeepsTouching(s, s', t, |s.tasks|);
  }

  lemma UnlockedOwn(s: State, t: ThreadId, m: SessionId, s': State)
    requires ThreadOk(s, t) && Balanced(s) && CanUnlockSession(s, t, m) && s' == UnlockSession(s, t, m)
    ensures KeepsRoles(s, s', t, |s.tasks|) && ThreadOk(s', t)
  {
    var run := ThreadOf(s, t).run;
    assert run.Running? ==> BatchOk(s', t, run.now, run.batch, run.k + 1);
  }

  lemma KeepsUnlockSession(s: State, t: ThreadId, m: SessionId, s': State)
    requires Inv(s) && CanUnlockSession(s, t, m) && s' == UnlockSession(s, t, m)
    ensures Inv(s')
  {
    assert ThreadOk(s, t);
    UnlockedOwn(s, t, m, s');
    UnlockTouches(s, s', t, m);
    KeepsTouching(s, s', t, |s.tasks|);
  }

  lemma InsertKeepsOrder(s: State, q: seq<TaskId>, p: nat, id: TaskId)
    requires Sorted(s, q) && id < |s.tasks| && p <= |q|
    requires p > 0 ==> TaskOf(s, q[p - 1]).due <= TaskOf(s, id).due
    requires forall i :: p <= i < |q| ==> TaskOf(s, id).due <= TaskOf(s, q[i]).due
    ensures Sorted(s, q[..p] + [id] + q[p..])
  {
    var q' := q[..p] + [id] + q[p..];
    assert forall i :: 0 <= i < |q'| ==> q'[i] == if i < p then q[i] else if i == p then id else q[i - 1];
    forall i, j | 0 <= i < j < |q'| ensures TaskOf(s, q'[i]).due <= TaskOf(s, q'[j]).due {
      if j == p && i < p - 1 { assert TaskOf(s, q[i]).due <= TaskOf(s, q[p - 1]).due; }
    }
  }

  lemma InsertKeepsUnique(q: seq<TaskId>, p: nat, id: TaskId)
    requires Unique(q) && id !in q && p <= |q|
    ensures Unique(q[..p] + [id] + q[p..])
    ensures forall j :: j in q[..p] + [id] + q[p..] <==> j in q || j == id
  {
    var q' := q[..p] + [id] + q[p..];
    assert forall i :: 0 <= i < |q'| ==> q'[i] == if i < p then q[i] else if i == p then id else q[i - 1];
    forall j | j in q ensures j in q' {
      var i :| 0 <= i < |q| && q[i] == j;
      assert q'[if i < p then i else i + 1] == j;
    }
  }

  lemma RemoveHas(q: seq<TaskId>, k: nat)
    requires Unique(q) && k < |q|
    ensures forall j :: j in RemoveAt(q, k) <==> j in q && j != q[k]
  {
    var q' := RemoveAt(q, k);
    assert forall i :: 0 <= i < |q'| ==> q'[i] == if i < k then q[i] else q[i + 1];
    forall j | j in q && j != q[k] ensures j in q' {
      var i :| 0 <= i < |q| && q[i] == j;
      assert q'[if i < k then i else i - 1] == j;
    }
  }

  lemma RemoveKeepsOrder(s: State, q: seq<TaskId>, k: nat)
    requires Unique(q) && Sorted(s, q) && k < |q|
    ensures Unique(RemoveAt(q, k)) && Sorted(s, RemoveAt(q, k))
  {
    var q' := RemoveAt(q, k);
    assert forall i :: 0 <= i < |q'| ==> q'[i] == if i < k then q[i] else q[i + 1];
  }

  lemma RemoveKeeps(s: State, q: seq<TaskId>, k: nat)
    requires Unique(q) && Sorted(s, q) && k < |q|
    ensures var q' := RemoveAt(q, k);
            Unique(q') && Sorted(s, q') && forall j :: j in q' <==> j in q && j != q[k]
  {
    RemoveHas(q, k);
    RemoveKeepsOrder(s, q, k);
  }

  lemma InsertedOrder(s: State, t: ThreadId, s': State)
    requires QueueOk(s) && CanInsertUnlock(s, t) && s' == InsertUnlock(s, t)
    ensures Unique(s'.queue) && Sorted(s', s'.queue)
    ensures forall j :: j in s'.queue <==> j in s.queue || j == |s.tasks|
  {
    assert Sorted(s', s.queue) && |s.tasks| !in s.queue;
    var p := InsertAt(s, ThreadOf(s, t).op.due, |s.queue|);
    InsertKeepsOrder(s', s.queue, p, |s.tasks|);
    InsertKeepsUnique(s.queue, p, |s.tasks|);
  }

  lemma InsertedQueue(s: State, t: ThreadId, s': State)
    requires Inv(s) && CanInsertUnlock(s, t) && s' == InsertUnlock(s, t)
    ensures QueueOk(s')
    ensures forall j :: j in s'.queue <==> j in s.queue || j == |s.tasks|
  {
    InsertedOrder(s, t, s');
    forall j | j in s'.queue ensures QueuedOk(s', j) {
      assert j in s.queue ==> QueuedOk(s, j);
    }
  }

  lemma InsertedOwn(s: State, t: ThreadId, s': State)
    requires Inv(s) && CanInsertUnlock(s, t) && s' == InsertUnlock(s, t)
    requires forall j :: j in s'.queue <==> j in s.queue || j == |s.tasks|
    ensures ThreadOk(s', t)
  {
    var run := ThreadOf(s, t).run;
    if run.Running? { assert BatchOk(s', t, run.now, run.batch, run.k + 1); }
  }

  lemma KeepsInsertUnlock(s: State, t: ThreadId, s': State)
    requires Inv(s) && CanInsertUnlock(s, t) && s' == InsertUnlock(s, t)
    ensures Inv(s')
  {
    InsertedQueue(s, t, s');
    InsertedOwn(s, t, s');
    InsertedTasks(s, t, s');
    Assemble(s, s', t);
  }

  lemma InsertedTasks(s: State, t: ThreadId, s': State)
    requires TasksOk(s) && CanInsertUnlock(s, t) && s' == InsertUnlock(s, t)
    requires forall j :: j in s'.queue <==> j in s.queue || j == |s.tasks|
    ensures TasksOk(s')
  {
    forall id | 0 <= id < |s'.tasks| ensures TaskOk(s', id) {
      if id < |s.tasks| { assert TaskOk(s, id); }
    }
  }

  lemma ErasedOrder(s: State, t: ThreadId, s': State)
    requires QueueOk(s) && CanEraseUnlock(s, t) && s' == EraseUnlock(s, t) && ThreadOf(s, t).op.id in s.queue
    ensures Unique(s'.queue) && Sorted(s', s'.queue)
    ensures forall j :: j in s'.queue <==> j in s.queue && j != ThreadOf(s, t).op.id
  {
    assert Sorted(s', s.queue);
    RemoveKeeps(s', s.queue, IndexOf(s.queue, ThreadOf(s, t).op.id));
  }

  lemma ErasedQueue(s: State, t: ThreadId, s': State)
    requires Inv(s) && CanEraseUnlock(s, t) && s' == EraseUnlock(s, t)
    ensures QueueOk(s')
    ensures forall j :: j in s'.queue <==> j in s.queue && j != ThreadOf(s, t).op.id
  {
    assert ThreadOk(s, t);
    ErasedOrder(s, t, s');
    forall j | j in s'.queue ensures QueuedOk(s', j) {
      assert QueuedOk(s, j);
    }
  }

  lemma ErasedOwn(s: State, t: ThreadId, s': State)
    requires Inv(s) && CanEraseUnlock(s, t) && s' == EraseUnlock(s, t)
    requires forall j :: j in s'.queue <==> j in s.queue && j != ThreadOf(s, t).op.id
    ensures ThreadOk(s', t)
  {
    var run := ThreadOf(s, t).run;
    if run.Running? { ErasedBatch(s, t, s', run.now, run.batch, run.k + 1); }
  }

  lemma ErasedBatch(s: State, t: ThreadId, s': State, now: int, batch: seq<TaskId>, from: nat)
    requires CanEraseUnlock(s, t) && s' == EraseUnlock(s, t) && BatchOk(s, t, now, batch, from)
    requires forall j :: j in s'.queue ==> j in s.queue
    ensures BatchOk(s', t, now, batch, from)
  {
  }

  lemma KeepsEraseUnlock(s: State, t: ThreadId, s': State)
    requires Inv(s) && CanEraseUnlock(s, t) && s' == EraseUnlock(s, t)
    ensures Inv(s')
  {
    ErasedQueue(s, t, s');
    ErasedOwn(s, t, s');
    Assemble(s, s', t);
  }

  lemma ScanErasedQueue(s: State, t: ThreadId, s': State)
    requires Inv(s) && CanScanErase(s, t) && s' == ScanErase(s, t)
    ensures QueueOk(s')
    ensures forall j :: j in s'.queue <==> j in s.queue && j != s.queue[ThreadOf(s, t).run.at]
  {
    RemoveKeeps(s', s.queue, ThreadOf(s, t).run.at);
    forall j | j in s'.queue ensures QueuedOk(s', j) {
      assert QueuedOk(s, j);
    }
  }

  lemma BatchGrows(s: State, t: ThreadId, now: int, batch: seq<TaskId>, id: TaskId)
    requires BatchOk(s, t, now, batch, 0) && id < |s.tasks| && id !in batch && id !in s.queue
    requires TaskOf(s, id).invalid == ByRunner(t) && TaskOf(s, id).runs == 0 && TaskOf(s, id).due < now
    requires forall i :: 0 <= i < |batch| ==> TaskOf(s, batch[i]).due <= TaskOf(s, id).due
    ensures BatchOk(s, t, now, batch + [id], 0)
  {
  }

  lemma ScanErasedOwn(s: State, t: ThreadId, s': State)
    requires QueueOk(s) && ThreadOk(s, t) && CanScanErase(s, t) && s' == ScanErase(s, t)
    requires forall j :: j in s'.queue <==> j in s.queue && j != s.queue[ThreadOf(s, t).run.at]
    ensures ThreadOk(s', t)
  {
    var run := ThreadOf(s, t).run;
    var id := s.queue[run.at];
    assert QueuedOk(s, id);
    assert BatchOk(s', t, run.now, run.batch, 0);
    BatchGrows(s', t, run.now, run.batch, id);
    ScanErasedScan(s, t, s');
  }

  lemma ScanErasedScan(s: State, t: ThreadId, s': State)
    requires Sorted(s, s.queue) && CanScanErase(s, t) && s' == ScanErase(s, t)
    requires ScanOk(s, ThreadOf(s, t).run.at, ThreadOf(s, t).run.batch)
    ensures ScanOk(s', ThreadOf(s', t).run.at, ThreadOf(s', t).run.batch)
  {
    var run := ThreadOf(s, t).run;
    assert forall j :: run.at <= j < |s'.queue| ==> s'.queue[j] == s.queue[j + 1];
  }

  lemma KeepsScanErase(s: State, t: ThreadId, s': State)
    requires Inv(s) && CanScanErase(s, t) && s' == ScanErase(s, t)
    ensures Inv(s')
  {
    ScanErasedQueue(s, t, s');
    assert ThreadOk(s, t);
    ScanErasedOwn(s, t, s');
    Assemble(s, s', t);
  }

  lemma NextKeepsInv(s: State, t: ThreadId, a: Action, s': State)
    requires Inv(s) && Next(s, t, a, s')
    ensures Inv(s')
  {
    match a
    case DoBeginSchedule(due, session) => KeepsBeginSchedule(s, t, due, session, s');
    case DoLockInsert => KeepsLockInsert(s, t, s');
    case DoInsertUnlock => KeepsInsertUnlock(s, t, s');
    case DoBeginCancel(id) => KeepsBeginCancel(s, t, id, s');
    case DoTryClaim => KeepsTryClaim(s, t, s');
    case DoLockErase => KeepsLockErase(s, t, s');
    case DoEraseUnlock => KeepsEraseUnlock(s, t, s');
    case DoWaitCall => KeepsWaitCall(s, t, s');
    case DoEnter(now) => KeepsEnter(s, t, now, s');
    case DoLockScan => KeepsLockScan(s, t, s');
    case DoScanTry => KeepsScanTry(s, t, s');
    case DoScanErase => KeepsScanErase(s, t, s');
    case DoScanDone => KeepsScanDone(s, t, s');
    case DoTryCall => KeepsTryCall(s, t, s');
    case DoTrySession => KeepsTrySession(s, t, s');
    case DoFinishRun => KeepsFinishRun(s, t, s');
    case DoReleaseCall => KeepsReleaseCall(s, t, s');
    case DoLeave => KeepsLeave(s, t, s');
    case DoWantSession(m) => KeepsWantSession(s, t, m, s');
    case DoLockSession => KeepsLockSession(s, t, s');
    case DoUnlockSession(m) => KeepsUnlockSession(s, t, m, s');
  }

  // Runs of any number of threads

  ghost predicate Steps(s: State, s': State) {
    exists t: ThreadId, a: Action :: Next(s, t, a, s')
  }

  ghost predicate StepTo(tr: seq<State>, i: nat) {
    0 < i < |tr| ==> Steps(tr[i - 1], tr[i])
  }

  ghost predicate IsTrace(tr: seq<State>) {
    |tr| > 0 && tr[0] == INIT && forall i: nat :: StepTo(tr, i)
  }

  lemma {:induction false} TraceInv(tr: seq<State>, i: nat)
    requires IsTrace(tr) && i < |tr|
    ensures Inv(tr[i])
  {
    if i > 0 {
      TraceInv(tr, i - 1);
      assert StepTo(tr, i);
      var t: ThreadId, a: Action :| Next(tr[i - 1], t, a, tr[i]);
      NextKeepsInv(tr[i - 1], t, a, tr[i]);
    }
  }

  /** In every run, a scheduled task is started at most once. */
  lemma RunsAtMostOnce(tr: seq<State>, i: nat, id: TaskId)
    requires IsTrace(tr) && i < |tr| && id < |tr[i].tasks|
    ensures tr[i].tasks[id].runs <= 1
  {
    TraceInv(tr, i);
  }

  predicate IsRunning(s: State, t: ThreadId, id: TaskId) {
    var run := ThreadOf(s, t).run;
    run.Running? && run.k < |run.batch| && run.batch[run.k] == id
  }

  lemma SettledStays(s: State, t: ThreadId, a: Action, s': State, id: TaskId)
    requires Inv(s) && Next(s, t, a, s') && id < |s.tasks| && s.tasks[id].settled
    ensures id < |s'.tasks| && s'.tasks[id].settled && s'.tasks[id].runs == s.tasks[id].runs
  {
    assert TaskOk(s, id) && ThreadOk(s, t);
  }

  lemma SettledStaysInTrace(tr: seq<State>, i: nat, id: TaskId)
    requires IsTrace(tr) && i + 1 < |tr| && id < |tr[i].tasks| && tr[i].tasks[id].settled
    ensures id < |tr[i + 1].tasks| && tr[i + 1].tasks[id].settled
    ensures tr[i + 1].tasks[id].runs == tr[i].tasks[id].runs
  {
    assert StepTo(tr, i + 1);
    var t: ThreadId, a: Action :| Next(tr[i], t, a, tr[i + 1]);
    TraceInv(tr, i);
    SettledStays(tr[i], t, a, tr[i + 1], id);
  }

  lemma SettledIsNotRunning(s: State, t: ThreadId, id: TaskId)
    requires Inv(s) && id < |s.tasks| && s.tasks[id].settled
    ensures !IsRunning(s, t, id)
  {
    assert ThreadOk(s, t) && TaskOk(s, id);
  }

  /** Once a Cancel has settled the task, no thread is running it, and it is never started
      again. */
  lemma {:induction false} CancelIsFinal(tr: seq<State>, i: nat, j: nat, id: TaskId, t: ThreadId)
    requires IsTrace(tr) && i <= j < |tr| && id < |tr[i].tasks| && tr[i].tasks[id].settled
    ensures id < |tr[j].tasks| && tr[j].tasks[id].settled
    ensures tr[j].tasks[id].runs == tr[i].tasks[id].runs
    ensures !IsRunning(tr[j], t, id)
    decreases j
  {
    if i < j {
      CancelIsFinal(tr, i, j - 1, id, t);
      SettledStaysInTrace(tr, j - 1, id);
    }
    TraceInv(tr, j);
    SettledIsNotRunning(tr[j], t, id);
  }

  predicate Cancelling(op: OpPc, id: TaskId) {
    (op.Claiming? || op.Erasing? || op.EraseLocked? || op.Waiting?) && op.id == id
  }

  /** The return of a Cancel settles the task, unless the call lost `invalid` on a thread
      that is inside RunOnce. */
  lemma CancelReturnSettles(s: State, t: ThreadId, a: Action, s': State, id: TaskId)
    requires Inv(s) && Next(s, t, a, s')
    requires Cancelling(ThreadOf(s, t).op, id) && ThreadOf(s', t).op.Idle? && !TaskOf(s, id).settled
    ensures id < |s'.tasks|
    ensures s'.tasks[id].settled <==>
            !(a.DoTryClaim? && !ThreadOf(s, t).run.Outside? && !TaskOf(s, id).invalid.Free?)
  {
    assert ThreadOk(s, t);
  }

  /** The iterator that Cancel erases is still in the map. */
  lemma ErasedIsQueued(tr: seq<State>, i: nat, t: ThreadId)
    requires IsTrace(tr) && i < |tr| && CanEraseUnlock(tr[i], t)
    ensures ThreadOf(tr[i], t).op.id in tr[i].queue
  {
    TraceInv(tr, i);
    assert ThreadOk(tr[i], t);
  }

  /** A task that is being run was due before the clock reading of its RunOnce, and no task
      due later was run before it in the same batch. */
  lemma FiresInOrder(tr: seq<State>, i: nat, t: ThreadId)
    requires IsTrace(tr) && i < |tr| && ThreadOf(tr[i], t).run.Running?
    ensures var run := ThreadOf(tr[i], t).run;
            && run.k < |run.batch| && TaskOf(tr[i], run.batch[run.k]).due < run.now
            && forall j :: 0 <= j < run.k ==>
                 TaskOf(tr[i], run.batch[j]).due <= TaskOf(tr[i], run.batch[run.k]).due
  {
    TraceInv(tr, i);
    assert ThreadOk(tr[i], t);
  }

  // What RunOnce takes it gives back

  /** The thread runs a callback under the session mutex `m`. */
  predicate Borrows(s: State, t: ThreadId, m: SessionId) {
    var run := ThreadOf(s, t).run;
    run.Running? && HoldsTask(run) && TaskOf(s, run.batch[run.k]).session == m
  }

  /** A mutex is held as often as its holder asked for it, and once more around a callback. */
  predicate SessionOk(s: State, m: SessionId) {
    m in s.sessions ==>
      var o := s.sessions[m]; 0 < o.depth == o.asked + (if Borrows(s, o.t, m) then 1 else 0)
  }

  lemma OthersStay(s: State, v: ThreadId, a: Action, t: ThreadId)
    requires Enabled(s, v, a) && v != t
    ensures ThreadOf(After(s, v, a), t) == ThreadOf(s, t)
  {
  }

  lemma TaskStays(s: State, t: ThreadId, a: Action, s': State, id: TaskId)
    requires Next(s, t, a, s') && id < |s.tasks|
    ensures id < |s'.tasks| && s'.tasks[id].due == s.tasks[id].due && s'.tasks[id].session == s.tasks[id].session
  {
  }

  lemma BorrowsStay(s: State, t0: ThreadId, a: Action, s': State, t: ThreadId, m: SessionId)
    requires ThreadOk(s, t) && Next(s, t0, a, s')
    requires t != t0 || ThreadOf(s', t).run == ThreadOf(s, t).run
    ensures Borrows(s', t, m) == Borrows(s, t, m)
  {
    var run := ThreadOf(s, t).run;
    if t != t0 { OthersStay(s, t0, a, t); }
    if run.Running? { TaskStays(s, t0, a, s', run.batch[run.k]); }
  }

  lemma BorrowsHere(s: State, t: ThreadId, a: Action, s': State, m: SessionId)
    requires ThreadOk(s, t) && Next(s, t, a, s') && ThreadOf(s', t).run != ThreadOf(s, t).run
    ensures Borrows(s, t, m) ==> a.DoFinishRun?
    ensures Borrows(s', t, m) ==> a.DoTrySession?
  {
  }

  predicate UsesSessions(a: Action) {
    a.DoTrySession? || a.DoFinishRun? || a.DoLockSession? || a.DoUnlockSession?
  }

  lemma SessionsUnused(s: State, t: ThreadId, a: Action, s': State)
    requires Next(s, t, a, s') && !UsesSessions(a)
    ensures s'.sessions == s.sessions
  {
  }

  lemma SessionUsed(s: State, t: ThreadId, a: Action, s': State, m: SessionId)
    requires ThreadOk(s, t) && SessionOk(s, m) && Next(s, t, a, s') && UsesSessions(a)
    requires m in s.sessions ==> s.sessions[m].t == t
    ensures SessionOk(s', m)
  {
    if a.DoLockSession? || a.DoUnlockSession? {
      BorrowsStay(s, t, a, s', t, m);
      SessionAsked(s, t, a, s', m);
    } else {
      SessionBorrowed(s, t, a, s', m);
    }
  }

  lemma SessionAsked(s: State, t: ThreadId, a: Action, s': State, m: SessionId)
    requires SessionOk(s, m) && Next(s, t, a, s') && (a.DoLockSession? || a.DoUnlockSession?)
    requires m in s.sessions ==> s.sessions[m].t == t
    requires ThreadOf(s', t).run == ThreadOf(s, t).run && Borrows(s', t, m) == Borrows(s, t, m)
    requires m !in s.sessions ==> !Borrows(s, t, m)
    ensures SessionOk(s', m)
  {
  }

  lemma SessionBorrowed(s: State, t: ThreadId, a: Action, s': State, m: SessionId)
    requires ThreadOk(s, t) && SessionOk(s, m) && Next(s, t, a, s') && (a.DoTrySession? || a.DoFinishRun?)
    requires m in s.sessions ==> s.sessions[m].t == t
    ensures SessionOk(s', m)
  {
    var run := ThreadOf(s, t).run;
    assert Borrows(s, t, m) <==> a.DoFinishRun? && TaskOf(s, run.batch[run.k]).session == m;
  }

  lemma SessionLeftAlone(s: State, t: ThreadId, a: Action, s': State, m: SessionId)
    requires ThreadOk(s, t) && Next(s, t, a, s') && m in s.sessions && s.sessions[m].t != t
    ensures m in s'.sessions && s'.sessions[m] == s.sessions[m]
  {
  }

  lemma NextKeepsSession(s: State, t: ThreadId, a: Action, s': State, m: SessionId)
    requires Inv(s) && SessionOk(s, m) && Next(s, t, a, s')
    ensures SessionOk(s', m)
  {
    assert ThreadOk(s, t);
    if m in s.sessions && s.sessions[m].t != t {
      assert ThreadOk(s, s.sessions[m].t);
      SessionLeftAlone(s, t, a, s', m);
      BorrowsStay(s, t, a, s', s.sessions[m].t, m);
    } else if UsesSessions(a) {
      SessionUsed(s, t, a, s', m);
    } else {
      SessionsUnused(s, t, a, s');
      if ThreadOf(s', t).run == ThreadOf(s, t).run { BorrowsStay(s, t, a, s', t, m); }
      else { BorrowsHere(s, t, a, s', m); }
    }
  }

  lemma {:induction false} TraceSession(tr: seq<State>, i: nat, m: SessionId)
    requires IsTrace(tr) && i < |tr|
    ensures SessionOk(tr[i], m)
  {
    if i > 0 {
      TraceSession(tr, i - 1, m);
      SessionStep(tr, i, m);
    }
  }

  lemma SessionStep(tr: seq<State>, i: nat, m: SessionId)
    requires IsTrace(tr) && 0 < i < |tr| && SessionOk(tr[i - 1], m)
    ensures SessionOk(tr[i], m)
  {
    TraceInv(tr, i - 1);
    assert StepTo(tr, i);
    var t: ThreadId, a: Action :| Next(tr[i - 1], t, a, tr[i]);
    NextKeepsSession(tr[i - 1], t, a, tr[i], m);
  }

  /** In every run, a thread that is not in a callback holds a session mutex exactly as often as it
      asked for it: RunOnce has given back what it took. */
  lemma SessionsReturned(tr: seq<State>, i: nat, t: ThreadId, m: SessionId)
    requires IsTrace(tr) && i < |tr| && !ThreadOf(tr[i], t).run.Running?
    requires m in tr[i].sessions && tr[i].sessions[m].t == t
    ensures 0 < tr[i].sessions[m].depth == tr[i].sessions[m].asked
  {
    TraceSession(tr, i, m);
  }

  // Progress

  predicate Busy(s: State, t: ThreadId) {
    ThreadOf(s, t) != Thread(Outside, Idle)
  }

  /** The thread's next action is a lock that somebody holds. */
  predicate Blocked(s: State, t: ThreadId) {
    var th := ThreadOf(s, t);
    || ((th.op.Inserting? || th.op.Erasing? || th.run.Entered?) && s.mtx.Some?)
    || (th.op.Waiting? && !TaskOf(s, th.op.id).callLock.Free?)
    || (th.op.Locking? && !MayLock(s, t, th.op.m))
  }

  /** How many Cancel calls of a task there must have been. */
  ghost predicate Counted(s: State) {
    && (forall t: ThreadId, id: TaskId {:trigger Cancelling(ThreadOf(s, t).op, id)} ::
          Cancelling(ThreadOf(s, t).op, id) && id < |s.tasks| ==>
            s.tasks[id].cancels >= if s.tasks[id].callLock.ByCanceller? then 2 else 1)
    && (forall t: ThreadId, u: ThreadId, id: TaskId
          {:trigger Cancelling(ThreadOf(s, t).op, id), Cancelling(ThreadOf(s, u).op, id)} ::
          t != u && Cancelling(ThreadOf(s, t).op, id) && Cancelling(ThreadOf(s, u).op, id) && id < |s.tasks| ==>
            s.tasks[id].cancels >= 2)
  }

  lemma CancelsGrow(s: State, t0: ThreadId, a: Action, s': State, id: TaskId)
    requires Inv(s) && Next(s, t0, a, s') && id < |s.tasks|
    ensures id < |s'.tasks| && s.tasks[id].cancels <= s'.tasks[id].cancels
    ensures a == DoBeginCancel(id) ==> s'.tasks[id].cancels == s.tasks[id].cancels + 1
  {
    assert ThreadOk(s, t0);
  }

  /** A thread that is cancelling a task after a step was so before, or has just begun. */
  lemma CancellingBefore(s: State, t0: ThreadId, a: Action, s': State, t: ThreadId, id: TaskId)
    requires Inv(s) && Next(s, t0, a, s') && Cancelling(ThreadOf(s', t).op, id) && id < |s'.tasks|
    ensures id < |s.tasks| && s.tasks[id].cancels <= s'.tasks[id].cancels
    ensures (a == DoBeginCancel(id) && t == t0 && s'.tasks[id].cancels == s.tasks[id].cancels + 1)
            || Cancelling(ThreadOf(s, t).op, id)
  {
    assert ThreadOk(s, t);
    CancellerBefore(s, t0, a, s', t, id);
    CancelsGrow(s, t0, a, s', id);
  }

  lemma CancellerBefore(s: State, t0: ThreadId, a: Action, s': State, t: ThreadId, id: TaskId)
    requires ThreadOk(s, t) && Sorted(s, s.queue) && Next(s, t0, a, s')
    requires Cancelling(ThreadOf(s', t).op, id)
    ensures id < |s.tasks| && ((a == DoBeginCancel(id) && t == t0) || Cancelling(ThreadOf(s, t).op, id))
  {
    if t != t0 {
      OthersStay(s, t0, a, t);
    }
  }

  /** Only the canceller that waited for it takes `callLock` on the cancelling side. */
  lemma CallLockTaken(s: State, t0: ThreadId, a: Action, s': State, id: TaskId)
    requires ThreadOk(s, t0) && Next(s, t0, a, s') && id < |s.tasks| && id < |s'.tasks|
    requires s'.tasks[id].callLock.ByCanceller? && !s.tasks[id].callLock.ByCanceller?
    ensures a.DoWaitCall? && Cancelling(ThreadOf(s, t0).op, id) && ThreadOf(s', t0).op.Idle?
  {
  }

  lemma CountedAlone(s: State, t0: ThreadId, a: Action, s': State, t: ThreadId, id: TaskId)
    requires Inv(s) && Counted(s) && Next(s, t0, a, s') && Cancelling(ThreadOf(s', t).op, id) && id < |s'.tasks|
    ensures s'.tasks[id].cancels >= if s'.tasks[id].callLock.ByCanceller? then 2 else 1
  {
    CancellingBefore(s, t0, a, s', t, id);
    assert TaskOk(s, id) && ThreadOk(s, t0);
    if s'.tasks[id].callLock.ByCanceller? && !s.tasks[id].callLock.ByCanceller? {
      CallLockTaken(s, t0, a, s', id);
      assert t != t0;
    }
  }

  lemma CountedPair(s: State, t0: ThreadId, a: Action, s': State, t: ThreadId, u: ThreadId, id: TaskId)
    requires Inv(s) && Counted(s) && Next(s, t0, a, s') && t != u && id < |s'.tasks|
    requires Cancelling(ThreadOf(s', t).op, id) && Cancelling(ThreadOf(s', u).op, id)
    ensures s'.tasks[id].cancels >= 2
  {
    CancellingBefore(s, t0, a, s', t, id);
    CancellingBefore(s, t0, a, s', u, id);
  }

  lemma NextKeepsCounted(s: State, t0: ThreadId, a: Action, s': State)
    requires Inv(s) && Counted(s) && Next(s, t0, a, s')
    ensures Counted(s')
  {
    forall t: ThreadId, id: TaskId | Cancelling(ThreadOf(s', t).op, id) && id < |s'.tasks|
      ensures s'.tasks[id].cancels >= if s'.tasks[id].callLock.ByCanceller? then 2 else 1
    {
      CountedAlone(s, t0, a, s', t, id);
    }
    forall t: ThreadId, u: ThreadId, id: TaskId |
        t != u && Cancelling(ThreadOf(s', t).op, id) && Cancelling(ThreadOf(s', u).op, id) && id < |s'.tasks|
      ensures s'.tasks[id].cancels >= 2
    {
      CountedPair(s, t0, a, s', t, u, id);
    }
  }

  lemma {:induction false} TraceCounted(tr: seq<State>, i: nat)
    requires IsTrace(tr) && i < |tr|
    ensures Counted(tr[i])
  {
    if i > 0 {
      TraceCounted(tr, i - 1);
      TraceInv(tr, i - 1);
      assert StepTo(tr, i);
      var t: ThreadId, a: Action :| Next(tr[i - 1], t, a, tr[i]);
      NextKeepsCounted(tr[i - 1], t, a, tr[i]);
    }
  }

  /** Being blocked is the only thing that stops a thread inside the library. */
  lemma UnblockedCanMove(s: State, t: ThreadId) returns (a: Action)
    requires Inv(s) && Busy(s, t) && !Blocked(s, t)
    ensures Enabled(s, t, a)
  {
    var th := ThreadOf(s, t);
    assert ThreadOk(s, t);
    match th.op
    case Inserting(_, _) => a := DoLockInsert;
    case InsertLocked(_, _) => a := DoInsertUnlock;
    case Claiming(_) => a := DoTryClaim;
    case Erasing(_) => a := DoLockErase;
    case EraseLocked(_) => a := DoEraseUnlock;
    case Waiting(_) => a := DoWaitCall;
    case Locking(_) => a := DoLockSession;
    case Idle =>
      match th.run
      case Outside => assert false;
      case Entered(_) => a := DoLockScan;
      case Scanning(_, _, _) => a := if CanScanTry(s, t) then DoScanTry else DoScanDone;
      case ScanWon(_, _, _) => a := DoScanErase;
      case Triggering(_, batch, k) => a := if k == |batch| then DoLeave else DoTryCall;
      case HasCall(_, _, _) => a := DoTrySession;
      case Running(_, _, _) => a := DoFinishRun;
      case Ran(_, _, _) => a := DoReleaseCall;
  }

  /** A thread that asks for a session mutex holds no other one.  In particular a callback
      asks only for the mutex of its own task. */
  ghost predicate OneSessionEach(s: State) {
    forall t: ThreadId, m {:trigger ThreadOf(s, t), s.sessions[m]} ::
      ThreadOf(s, t).op.Locking? && m in s.sessions && s.sessions[m].t == t ==> m == ThreadOf(s, t).op.m
  }

  /** Thread `u` has the lock that is the next action of thread `t`. */
  predicate WaitsFor(s: State, t: ThreadId, u: ThreadId) {
    var th := ThreadOf(s, t);
    || ((th.op.Inserting? || th.op.Erasing? || th.run.Entered?) && s.mtx == Some(u))
    || (th.op.Waiting? && var lock := TaskOf(s, th.op.id).callLock; !lock.Free? && lock.t == u)
    || (th.op.Locking? && th.op.m in s.sessions && s.sessions[th.op.m].t == u && u != t)
  }

  lemma BlockedByHolder(s: State, t: ThreadId)
    ensures Blocked(s, t) <==> exists u: ThreadId :: WaitsFor(s, t, u)
  {
    var th := ThreadOf(s, t);
    if Blocked(s, t) {
      if (th.op.Inserting? || th.op.Erasing? || th.run.Entered?) && s.mtx.Some? {
        assert WaitsFor(s, t, s.mtx.value);
      } else if th.op.Waiting? {
        assert WaitsFor(s, t, TaskOf(s, th.op.id).callLock.t);
      } else {
        assert WaitsFor(s, t, s.sessions[th.op.m].t);
      }
    }
  }

  /** From `t` to `u` in `n` waits. */
  ghost predicate Chain(s: State, t: ThreadId, u: ThreadId, n: nat)
    decreases n
  {
    if n == 0 then t == u else exists v: ThreadId :: WaitsFor(s, t, v) && Chain(s, v, u, n - 1)
  }

  lemma ChainOf(s: State, t: ThreadId, v: ThreadId, u: ThreadId, n: nat)
    requires WaitsFor(s, t, v) && Chain(s, v, u, n)
    ensures Chain(s, t, u, n + 1)
  {
  }

  /** With at most one Cancel per task and one session mutex per asking thread, whoever is
      blocked waits, through at most three locks, for a thread which can move: one inside the
      library, or one outside that can give back the mutex it holds. */
  lemma NoDeadlock(tr: seq<State>, i: nat, t: ThreadId) returns (u: ThreadId, n: nat, a: Action)
    requires IsTrace(tr) && i < |tr| && Blocked(tr[i], t) && OneSessionEach(tr[i])
    requires forall id :: 0 <= id < |tr[i].tasks| ==> tr[i].tasks[id].cancels <= 1
    ensures 1 <= n <= 3 && Chain(tr[i], t, u, n)
    ensures Enabled(tr[i], u, a)
    ensures Busy(tr[i], u) || (ThreadOf(tr[i], t).op.Locking? && a == DoUnlockSession(ThreadOf(tr[i], t).op.m))
  {
    TraceInv(tr, i);
    TraceCounted(tr, i);
    u, n := UnblockedOne(tr[i], t);
    if Busy(tr[i], u) {
      a := UnblockedCanMove(tr[i], u);
    } else {
      a := DoUnlockSession(ThreadOf(tr[i], t).op.m);
      SessionsReturned(tr, i, u, a.m);
    }
  }

  lemma UnblockedOne(s: State, t: ThreadId) returns (u: ThreadId, n: nat)
    requires Inv(s) && Counted(s) && Blocked(s, t) && OneSessionEach(s)
    requires forall id :: 0 <= id < |s.tasks| ==> s.tasks[id].cancels <= 1
    ensures !Blocked(s, u) && 1 <= n <= 3 && Chain(s, t, u, n)
    ensures Busy(s, u) || (ThreadOf(s, t).op.Locking? && s.sessions[ThreadOf(s, t).op.m].t == u)
  {
    var th := ThreadOf(s, t);
    if th.op.Locking? {
      var v := s.sessions[th.op.m].t;
      assert WaitsFor(s, t, v);
      u, n := v, 0;
      if Blocked(s, v) { u, n := UnblockedHolder(s, v); }
      ChainOf(s, t, v, u, n);
      n := n + 1;
    } else {
      u, n := UnblockedHolder(s, t);
    }
  }

  /** The runner that has `callLock` of a task asks for no session mutex it does not hold. */
  lemma RunnerIsNotLocking(s: State, t: ThreadId)
    requires Inv(s) && OneSessionEach(s) && InCall(ThreadOf(s, t).run)
    ensures ThreadOf(s, t).op.Locking? ==> MayLock(s, t, ThreadOf(s, t).op.m)
  {
    assert ThreadOk(s, t);
  }

  /** Whoever waits for the runner's own mutex waits for a thread that can move. */
  lemma UnblockedMtx(s: State, t: ThreadId)
    requires ThreadsOk(s) && Blocked(s, t) && !ThreadOf(s, t).op.Waiting? && !ThreadOf(s, t).op.Locking?
    ensures s.mtx.Some? && Busy(s, s.mtx.value) && !Blocked(s, s.mtx.value) && Chain(s, t, s.mtx.value, 1)
  {
    var u := s.mtx.value;
    assert ThreadOk(s, u) && WaitsFor(s, t, u);
    ChainOf(s, t, u, u, 0);
  }

  lemma UnblockedHolder(s: State, t: ThreadId) returns (u: ThreadId, n: nat)
    requires Inv(s) && Counted(s) && Blocked(s, t) && OneSessionEach(s)
    requires !ThreadOf(s, t).op.Locking?
    requires forall id :: 0 <= id < |s.tasks| ==> s.tasks[id].cancels <= 1
    ensures Busy(s, u) && !Blocked(s, u) && 1 <= n <= 2 && Chain(s, t, u, n)
  {
    var th := ThreadOf(s, t);
    if th.op.Waiting? {
      var v := CallLockRunner(s, t);
      u, n := v, 0;
      if Blocked(s, v) {
        UnblockedMtx(s, v);
        u, n := s.mtx.value, 1;
      }
      ChainOf(s, t, v, u, n);
      n := n + 1;
    } else {
      UnblockedMtx(s, t);
      u, n := s.mtx.value, 1;
    }
  }

  /** The only Cancel of a task waits for a runner, which waits for nothing but the runner's mutex. */
  lemma CallLockRunner(s: State, t: ThreadId) returns (v: ThreadId)
    requires Inv(s) && Counted(s) && Blocked(s, t) && OneSessionEach(s) && ThreadOf(s, t).op.Waiting?
    requires forall id :: 0 <= id < |s.tasks| ==> s.tasks[id].cancels <= 1
    ensures WaitsFor(s, t, v) && Busy(s, v)
    ensures Blocked(s, v) ==> !ThreadOf(s, v).op.Waiting? && !ThreadOf(s, v).op.Locking?
  {
    var id := ThreadOf(s, t).op.id;
    assert Cancelling(ThreadOf(s, t).op, id) && ThreadOk(s, t) && TaskOk(s, id);
    v := TaskOf(s, id).callLock.t;
    assert ThreadOk(s, v);
    RunnerIsNotLocking(s, v);
  }

  /** The ABBA case: a canceller that holds the session mutex waits for `callLock`.  Either
      the lock is free, or a runner has it that is not in the callback, can move, and gives
      the lock back with its very next action. */
  lemma CallLockHandedOver(tr: seq<State>, i: nat, t: ThreadId)
    requires IsTrace(tr) && i < |tr| && ThreadOf(tr[i], t).op.Waiting?
    requires var task := TaskOf(tr[i], ThreadOf(tr[i], t).op.id);
             && task.cancels <= 1
             && task.session in tr[i].sessions && tr[i].sessions[task.session].t == t
    ensures var s, id := tr[i], ThreadOf(tr[i], t).op.id;
            var holder := TaskOf(s, id).callLock;
            || CanWaitCall(s, t)
            || (&& holder.ByRunner? && holder.t != t && !IsRunning(s, holder.t, id)
                && (CanTrySession(s, holder.t) || CanReleaseCall(s, holder.t))
                && forall a :: Enabled(s, holder.t, a) ==>
                     var s' := After(s, holder.t, a);
                     TaskOf(s', id).callLock.Free? && CanWaitCall(s', t))
  {
    var s, id := tr[i], ThreadOf(tr[i], t).op.id;
    TraceInv(tr, i);
    TraceCounted(tr, i);
    assert ThreadOk(s, t) && TaskOk(s, id);
    assert Cancelling(ThreadOf(s, t).op, id);
    var holder := TaskOf(s, id).callLock;
    if holder.ByRunner? {
      assert ThreadOk(s, holder.t);
    }
  }

  // Where the guarantees stop

  function Last(tr: seq<State>): State
    requires |tr| > 0
  {
    tr[|tr| - 1]
  }

  lemma Extend(tr: seq<State>, t: ThreadId, a: Action) returns (tr': seq<State>)
    requires IsTrace(tr) && Enabled(Last(tr), t, a)
    ensures tr' == tr + [After(Last(tr), t, a)] && IsTrace(tr')
  {
    tr' := tr + [After(Last(tr), t, a)];
    forall i: nat ensures StepTo(tr', i) {
      assert StepTo(tr, i);
      assert i == |tr| ==> Next(tr'[i - 1], t, a, tr'[i]);
    }
  }

  lemma ScheduleOne() returns (tr: seq<State>)
    ensures IsTrace(tr)
    ensures Last(tr) == State([Task(1, 0, Free, Free, 0, 0, false)], [0], None, map[], map[0 := Thread(Outside, Idle)])
  {
    tr := [INIT];
    assert forall i: nat :: StepTo(tr, i);
    tr := Extend(tr, 0, DoBeginSchedule(1, 0));
    tr := Extend(tr, 0, DoLockInsert);
    tr := Extend(tr, 0, DoInsertUnlock);
  }

  lemma ScheduleTwo() returns (tr: seq<State>)
    ensures IsTrace(tr)
    ensures Last(tr) == State([Task(1, 0, Free, Free, 0, 0, false), Task(2, 0, Free, Free, 0, 0, false)],
                              [0, 1], None, map[], map[0 := Thread(Outside, Idle)])
  {
    tr := ScheduleOne();
    tr := Extend(tr, 0, DoBeginSchedule(2, 0));
    tr := Extend(tr, 0, DoLockInsert);
    tr := Extend(tr, 0, DoInsertUnlock);
  }

  lemma EnterTwo() returns (tr: seq<State>)
    ensures IsTrace(tr)
    ensures Last(tr) == State([Task(1, 0, Free, Free, 0, 0, false), Task(2, 0, Free, Free, 0, 0, false)],
                              [0, 1], Some(0), map[], map[0 := Thread(Scanning(9, 0, []), Idle)])
  {
    tr := ScheduleTwo();
    tr := Extend(tr, 0, DoEnter(9));
    tr := Extend(tr, 0, DoLockScan);
  }

  lemma ClaimOne() returns (tr: seq<State>)
    ensures IsTrace(tr)
    ensures Last(tr) == State([Task(1, 0, ByRunner(0), Free, 0, 0, false), Task(2, 0, Free, Free, 0, 0, false)],
                              [1], Some(0), map[], map[0 := Thread(Scanning(9, 0, [0]), Idle)])
  {
    tr := EnterTwo();
    tr := Extend(tr, 0, DoScanTry);
    tr := Extend(tr, 0, DoScanErase);
    assert RemoveAt([0, 1], 0) == [1] && [] + [0] == [0];
  }

  lemma ClaimTwo() returns (tr: seq<State>)
    ensures IsTrace(tr)
    ensures Last(tr) == State([Task(1, 0, ByRunner(0), Free, 0, 0, false),
                               Task(2, 0, ByRunner(0), Free, 0, 0, false)],
                              [], None, map[], map[0 := Thread(Triggering(9, [0, 1], 0), Idle)])
  {
    tr := ClaimOne();
    tr := Extend(tr, 0, DoScanTry);
    tr := Extend(tr, 0, DoScanErase);
    assert RemoveAt([1], 0) == [] && [0] + [1] == [0, 1];
    tr := Extend(tr, 0, DoScanDone);
  }

  lemma RunFirst() returns (tr: seq<State>)
    ensures IsTrace(tr)
    ensures Last(tr) == State([Task(1, 0, ByRunner(0), ByRunner(0), 1, 0, false),
                               Task(2, 0, ByRunner(0), Free, 0, 0, false)],
                              [], None, map[0 := Owned(0, 1, 0)], map[0 := Thread(Running(9, [0, 1], 0), Idle)])
  {
    tr := ClaimTwo();
    tr := Extend(tr, 0, DoTryCall);
    tr := Extend(tr, 0, DoTrySession);
  }

  lemma RunFirstCancelsSecond() returns (tr: seq<State>)
    ensures IsTrace(tr)
    ensures Last(tr) == State([Task(1, 0, ByRunner(0), ByRunner(0), 1, 0, false),
                               Task(2, 0, ByRunner(0), Free, 0, 1, false)],
                              [], None, map[0 := Owned(0, 1, 0)], map[0 := Thread(Running(9, [0, 1], 0), Idle)])
  {
    tr := RunFirst();
    tr := Extend(tr, 0, DoBeginCancel(1));
    tr := Extend(tr, 0, DoTryClaim);
  }

  lemma FirstReturns() returns (tr: seq<State>, i: nat)
    ensures IsTrace(tr) && i < |tr|
    ensures |tr[i].tasks| == 2 && tr[i].tasks[1].cancels == 1 && tr[i].tasks[1].runs == 0
    ensures forall t: ThreadId :: !Cancelling(ThreadOf(tr[i], t).op, 1)
    ensures Last(tr) == State([Task(1, 0, ByRunner(0), Free, 1, 0, false), Task(2, 0, ByRunner(0), Free, 0, 1, false)],
                              [], None, map[], map[0 := Thread(Triggering(9, [0, 1], 1), Idle)])
  {
    tr := RunFirstCancelsSecond();
    i := |tr| - 1;
    tr := Extend(tr, 0, DoFinishRun);
    tr := Extend(tr, 0, DoReleaseCall);
  }

  /** A Cancel made from inside RunOnce promises nothing: here the first task's callback
      cancels the second task, that call returns, and the second task is run all the same. */
  lemma CancelInsideRunOnceDoesNotStop() returns (tr: seq<State>, i: nat)
    ensures IsTrace(tr) && i < |tr|
    ensures |tr[i].tasks| == 2 && tr[i].tasks[1].cancels == 1 && tr[i].tasks[1].runs == 0
    ensures forall t: ThreadId :: !Cancelling(ThreadOf(tr[i], t).op, 1)
    ensures IsRunning(Last(tr), 0, 1)
  {
    tr, i := FirstReturns();
    tr := Extend(tr, 0, DoTryCall);
    tr := Extend(tr, 0, DoTrySession);
  }

  lemma StuckStays(s: State, u: ThreadId, a: Action, t: ThreadId)
    requires Inv(s) && Enabled(s, u, a) && ThreadOf(s, t).op.Waiting?
    requires TaskOf(s, ThreadOf(s, t).op.id).callLock.ByCanceller?
    ensures var s' := After(s, u, a);
            && ThreadOf(s', t) == ThreadOf(s, t)
            && TaskOf(s', ThreadOf(s, t).op.id).callLock == TaskOf(s, ThreadOf(s, t).op.id).callLock
  {
    assert ThreadOk(s, u) && ThreadOk(s, t);
    StuckCannotMove(s, t, a);
    OthersStay(s, u, a, t);
    TakenForGood(s, u, a, ThreadOf(s, t).op.id);
  }

  lemma StuckCannotMove(s: State, t: ThreadId, a: Action)
    requires ThreadOk(s, t) && ThreadOf(s, t).op.Waiting? && !TaskOf(s, ThreadOf(s, t).op.id).callLock.Free?
    ensures !Enabled(s, t, a)
  {
  }

  lemma TakenForGood(s: State, u: ThreadId, a: Action, id: TaskId)
    requires ThreadOk(s, u) && Enabled(s, u, a) && id < |s.tasks| && s.tasks[id].callLock.ByCanceller?
    ensures TaskOf(After(s, u, a), id).callLock == s.tasks[id].callLock
  {
  }

  /** A canceller that waits for a lock taken by another Cancel of the same task waits for
      ever: this is why the proxy cancels a link only once. */
  lemma {:induction false} SecondWaitHangs(tr: seq<State>, i: nat, j: nat, t: ThreadId)
    requires IsTrace(tr) && i <= j < |tr| && ThreadOf(tr[i], t).op.Waiting?
    requires TaskOf(tr[i], ThreadOf(tr[i], t).op.id).callLock.ByCanceller?
    ensures ThreadOf(tr[j], t) == ThreadOf(tr[i], t)
    ensures TaskOf(tr[j], ThreadOf(tr[i], t).op.id).callLock.ByCanceller?
    decreases j
  {
    if i < j {
      SecondWaitHangs(tr, i, j - 1, t);
      StuckStep(tr, j, t);
    }
  }

  lemma StuckStep(tr: seq<State>, j: nat, t: ThreadId)
    requires IsTrace(tr) && 0 < j < |tr| && ThreadOf(tr[j - 1], t).op.Waiting?
    requires TaskOf(tr[j - 1], ThreadOf(tr[j - 1], t).op.id).callLock.ByCanceller?
    ensures ThreadOf(tr[j], t) == ThreadOf(tr[j - 1], t)
    ensures TaskOf(tr[j], ThreadOf(tr[j - 1], t).op.id).callLock.ByCanceller?
  {
    assert StepTo(tr, j);
    var u: ThreadId, a: Action :| Next(tr[j - 1], u, a, tr[j]);
    TraceInv(tr, j - 1);
    StuckStays(tr[j - 1], u, a, t);
  }

  lemma FirstCancel() returns (tr: seq<State>)
    ensures IsTrace(tr)
    ensures Last(tr) == State([Task(1, 0, ByCanceller(0), Free, 0, 1, true)],
                              [], None, map[], map[0 := Thread(Outside, Idle)])
  {
    tr := ScheduleOne();
    tr := Extend(tr, 0, DoBeginCancel(0));
    tr := Extend(tr, 0, DoTryClaim);
    tr := Extend(tr, 0, DoLockErase);
    tr := Extend(tr, 0, DoEraseUnlock);
  }

  /** And it happens: three Cancel calls of one task are enough. */
  lemma ThirdCancelWaits() returns (tr: seq<State>)
    ensures IsTrace(tr) && ThreadOf(Last(tr), 0).op.Waiting?
    ensures TaskOf(Last(tr), ThreadOf(Last(tr), 0).op.id).callLock.ByCanceller?
  {
    tr := FirstCancel();
    tr := Extend(tr, 0, DoBeginCancel(0));
    tr := Extend(tr, 0, DoTryClaim);
    tr := Extend(tr, 0, DoWaitCall);
    tr := Extend(tr, 0, DoBeginCancel(0));
    tr := Extend(tr, 0, DoTryClaim);
  }

  /** A callback of `id` asks for a session mutex whose holder waits for that callback. */
  predicate LockCycle(s: State, t: ThreadId, u: ThreadId, id: TaskId) {
    var th, waiter := ThreadOf(s, t), ThreadOf(s, u);
    && th.op.Locking? && th.op.m in s.sessions && s.sessions[th.op.m].t == u
    && waiter.op == Waiting(id) && TaskOf(s, id).callLock == ByRunner(t)
  }

  lemma CycleBlocks(s: State, v: ThreadId, a: Action, t: ThreadId, u: ThreadId, id: TaskId)
    requires Inv(s) && Enabled(s, v, a) && LockCycle(s, t, u, id)
    ensures v != t && v != u
  {
    assert ThreadOk(s, t) && ThreadOk(s, u) && TaskOk(s, id);
  }

  lemma SessionStays(s: State, v: ThreadId, a: Action, t: ThreadId, m: SessionId)
    requires Inv(s) && Enabled(s, v, a) && v != t && m in s.sessions && s.sessions[m].t == t
    ensures m in After(s, v, a).sessions && After(s, v, a).sessions[m].t == t
  {
    assert ThreadOk(s, v);
  }

  lemma CallLockStays(s: State, v: ThreadId, a: Action, t: ThreadId, id: TaskId)
    requires Inv(s) && Enabled(s, v, a) && v != t && TaskOf(s, id).callLock == ByRunner(t)
    ensures TaskOf(After(s, v, a), id).callLock == ByRunner(t)
  {
    assert ThreadOk(s, v);
  }

  lemma CycleStays(s: State, v: ThreadId, a: Action, t: ThreadId, u: ThreadId, id: TaskId)
    requires Inv(s) && Enabled(s, v, a) && LockCycle(s, t, u, id) && v != t && v != u
    ensures LockCycle(After(s, v, a), t, u, id)
  {
    OthersStay(s, v, a, t);
    OthersStay(s, v, a, u);
    SessionStays(s, v, a, u, ThreadOf(s, t).op.m);
    CallLockStays(s, v, a, t, id);
  }

  lemma CycleStep(tr: seq<State>, j: nat, t: ThreadId, u: ThreadId, id: TaskId)
    requires IsTrace(tr) && 0 < j < |tr| && LockCycle(tr[j - 1], t, u, id)
    ensures LockCycle(tr[j], t, u, id)
  {
    assert StepTo(tr, j);
    var v: ThreadId, a: Action :| Next(tr[j - 1], v, a, tr[j]);
    TraceInv(tr, j - 1);
    CycleBlocks(tr[j - 1], v, a, t, u, id);
    CycleStays(tr[j - 1], v, a, t, u, id);
  }

  /** Neither of the two ever moves again, whatever the other threads do. */
  lemma {:induction false} CycleHangs(tr: seq<State>, i: nat, j: nat, t: ThreadId, u: ThreadId, id: TaskId)
    requires IsTrace(tr) && i <= j < |tr| && LockCycle(tr[i], t, u, id)
    ensures LockCycle(tr[j], t, u, id)
    ensures forall a :: !Enabled(tr[j], t, a) && !Enabled(tr[j], u, a)
    decreases j
  {
    if i < j {
      CycleHangs(tr, i, j - 1, t, u, id);
      CycleStep(tr, j, t, u, id);
    }
    TraceInv(tr, j);
    forall a ensures !Enabled(tr[j], t, a) && !Enabled(tr[j], u, a) {
      if Enabled(tr[j], t, a) { CycleBlocks(tr[j], t, a, t, u, id); }
      if Enabled(tr[j], u, a) { CycleBlocks(tr[j], u, a, t, u, id); }
    }
  }

  lemma SecondSession() returns (tr: seq<State>)
    ensures IsTrace(tr)
    ensures Last(tr) == State([Task(1, 0, ByRunner(0), ByRunner(0), 1, 0, false),
                               Task(2, 0, ByRunner(0), Free, 0, 0, false)],
                              [], None, map[0 := Owned(0, 1, 0), 1 := Owned(1, 1, 1)],
                              map[0 := Thread(Running(9, [0, 1], 0), Idle), 1 := Thread(Outside, Idle)])
  {
    tr := RunFirst();
    tr := Extend(tr, 1, DoWantSession(1));
    tr := Extend(tr, 1, DoLockSession);
  }

  /** While thread 0 runs the first task, thread 1 takes another session mutex and cancels it. */
  lemma CancelUnderSecondSession() returns (tr: seq<State>)
    ensures IsTrace(tr)
    ensures Last(tr) == State([Task(1, 0, ByRunner(0), ByRunner(0), 1, 1, false),
                               Task(2, 0, ByRunner(0), Free, 0, 0, false)],
                              [], None, map[0 := Owned(0, 1, 0), 1 := Owned(1, 1, 1)],
                              map[0 := Thread(Running(9, [0, 1], 0), Idle), 1 := Thread(Outside, Waiting(0))])
  {
    tr := SecondSession();
    tr := Extend(tr, 1, DoBeginCancel(0));
    tr := Extend(tr, 1, DoTryClaim);
  }

  /** It takes a callback that asks for a second session mutex: with one Cancel of the task,
      nobody can move. */
  lemma SecondSessionDeadlocks() returns (tr: seq<State>)
    ensures IsTrace(tr) && LockCycle(Last(tr), 0, 1, 0) && TaskOf(Last(tr), 0).cancels == 1
    ensures !OneSessionEach(Last(tr))
    ensures forall t: ThreadId :: Busy(Last(tr), t) ==> Blocked(Last(tr), t)
  {
    tr := CancelUnderSecondSession();
    tr := Extend(tr, 0, DoWantSession(1));
    assert ThreadOf(Last(tr), 0).op == Locking(1) && Last(tr).sessions[0].t == 0;
  }
}
