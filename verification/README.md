# Verification of posix_quic

posix_quic puts a socket and epoll interface in front of QUIC sessions and carries part of Chromium's
base library with it. This project models the parts of both that are hardest to get right and proves
what they promise. `dafny verify dfyconfig.toml` checks everything.

| file | what it models |
|---|---|
| `Basics.dfy` | what the others share: options, bytes, pieces laid end to end |
| `TaskRunner.dfy`, `TaskKeeping.dfy` | the timer runner: cancelling against running, over every interleaving of any number of threads |
| `TimerProxy.dfy` | the timers of one connection, linked to a runner and unlinked again |
| `EpollWakeup.dfy` | how a thread in epoll_wait is woken through the socket pair, over every interleaving |
| `EpollRefs.dfy` | registrations and UDP reference counts of the epoller |
| `FdTables.dfy` | descriptor allocation, the descriptor table, packet routing |
| `NoAck.dfy` | the ack timeout and its alarm |
| `StreamRead.dfy`, `StreamWrite.dfy` | stream buffering, edge-triggered draining, partial writes and FIN |
| `LazyInstance.dfy` | lazy creation, over every interleaving |
| `ObserverList.dfy` | an observer list that changes while it is iterated |
| `BlockHash.dfy`, `Md5.dfy`, `Md5Stream.dfy`, `Sha1.dfy`, `Sha1Stream.dfy` | MD5 against RFC 1321, SHA-1 against FIPS 180-3 |
| `Bits.dfy`, `PickleFormat.dfy`, `PickleBytes.dfy`, `Pickle.dfy` | alignment by mask, and the Pickle writer and reader |
| `ArgvQuote.dfy` | quoting arguments for a Windows command line |
| `FeatureList.dfy` | printing and registering feature overrides |

The protocols are state machines whose steps are the atomic actions of the code; a run is a sequence of
states, and the theorems are about every state of every run. Objects that change in place are classes
whose invariant is a predicate over plain values, so that most of the proof is lemmas about values.
Clock readings, transport answers, `epoll_ctl` results and map iteration orders are parameters.
Conditions that the source states in `assert` or `DCHECK` are preconditions.

Where the code does not keep what it promises everywhere, the condition under which it does is proved
both ways, and a run or an input shows the failure:

- A socket or stream that `Add` cannot count is registered all the same: counts stay right exactly when the
  entry has a UDP socket, its timers are free and the kernel takes it (`EpollRefs.Epoller.Add`,
  `EpollRefs.AddBeforeBind`). A registered server's socket whose session reports the close back deletes
  itself and leaves its count behind (`EpollRefs.Epoller.CloseEntry`, `EpollRefs.SelfDeleteKeepsCount`).
- A fd that is ready when it is added during epoll_wait is slept over (`EpollWakeup.AddOversleepsExactly`);
  with room for events, no other bit ever is (`EpollWakeup.OnlySilentOversleeps`). The heartbeat thread
  (src/epoller_entry.cpp:55-62) notifies every 10 ms and so ends it.
- An owner registered under a connection id that is taken can be left behind dead, and only then
  (`FdTables.DeadOwnerExactly`).
- A due time at or above 2^63 wraps into the past (`TimerProxy.ScheduleIsTimely`, `TimerProxy.LinkIsTimely`).
  Unlink and Link queue every timer that was not cancelled and no other, run or not (`TimerProxy.Relink`), so
  one that fired fires again (`TimerProxy.FiresAgain`).
- A Cancel settles its task unless it loses on a thread inside RunOnce (`TaskRunner.CancelReturnSettles`).
- The ack timeout is armed exactly when the limit's `int` is not 0 and does not take the deadline to time zero
  (`NoAck.ArmedExactly` for one call, `NoAck.UnarmedExactly` for every state), and watches exactly the sends later than the last ack
  (`NoAck.WatchedExactly`).
- A reader is stranded by a read without room, by a read begun after FIN and by a gap in the POLLIN mask, and
  by nothing else (`StreamRead.StrandsExactly`); a stream is read whole exactly when its buffer was empty at
  FIN, or a read that had passed its FIN test before has room for the buffer and copies it
  (`StreamRead.ReadWholeIffDrained`, `StreamRead.ReadInFlightOutlivesFin`).
- With a transport that takes all it is offered, the end of a written stream is sent exactly when the write
  queue has no empty slice (`StreamWrite.FlushesToTheEnd`, `StreamWrite.EmptySliceBlocksFin`).
- An empty argument, or one whose only blank is a tab, does not come back from the command line
  (`ArgvQuote.RoundTripsExactly`); a feature item with outer whitespace does not come back from the lists
  (`FeatureList.RoundTripsExactly`, `FeatureList.CopyThroughCommandLine`).
- `pickle.h` says that nothing can be read after a failed read; a negative count in `ReadString16` is an
  exception (`PickleFormat.FailureIsFinal`). The model follows the code.

One condition is proved in one direction, with a run beyond it: threads do not deadlock on the runner's locks
and the session mutexes while each task is cancelled once and a thread asks for one session mutex at a time
(`TaskRunner.NoDeadlock`, `TaskRunner.SecondSessionDeadlocks`).


## Model

| member | source | states |
|---|---|---|
| TaskRunner.InsertAt | src/task_runner.cpp:19-22 | a new task goes into the multimap after every task due no later and before every task due later |
| TaskRunner.NextKeepsInv | src/task_runner.cpp:7-85 | every atomic step of Schedule, Cancel and RunOnce, by any thread, keeps the invariant of locks, queue and batches |
| TaskRunner.TraceInv | src/task_runner.cpp:7-85 | the invariant holds in every state of every interleaving of any number of threads |
| TaskRunner.RunsAtMostOnce | src/task_runner.cpp:52-81 | in every interleaving each scheduled task runs at most once |
| TaskRunner.CancelIsFinal | src/task_runner.h:44-53 | once a Cancel has settled the task, it is not running, and it never starts afterwards |
| TaskRunner.CancelReturnSettles | src/task_runner.h:44-53 | the return of a Cancel settles a task not yet settled, if and only if the call did not lose `invalid` on a thread inside RunOnce |
| TaskRunner.ErasedIsQueued | src/task_runner.cpp:30-34 | the map iterator that Cancel erases is still in the map |
| TaskRunner.FiresInOrder | src/task_runner.cpp:52-64 | a running task was due before the clock reading of its RunOnce, and a batch fires in nondecreasing due time |
| TaskRunner.TraceSession | src/task_runner.cpp:71-82 | in every run a session mutex is held as often as its holder asked for it, and once more exactly around a callback of its session |
| TaskRunner.SessionsReturned | src/task_runner.cpp:71-82 | so a thread that is in no callback holds only what it asked for |
| TaskKeeping.TraceKeeps | src/task_runner.cpp:52-85 | in every run a task that a runner has won and not run is in that runner's batch at an index not yet passed, or about to be moved there, unless a canceller has its callLock; and such a task is settled |
| TaskKeeping.UncancelledIsKept | src/task_runner.cpp:40-88 | in every run a task never cancelled is in the map, or before the runner that took it out, or has run once |
| TaskKeeping.LeavesNothingBehind | src/task_runner.cpp:64-85 | a thread that leaves RunOnce has run each task of its batch once, except those a Cancel has settled |
| TaskKeeping.ScanCollectsAllDue | src/task_runner.cpp:50-62 | when a scan ends, a task still in the map that was due before the clock reading is being cancelled |
| TaskKeeping.ScanMovesOn | src/task_runner.cpp:53-61 | every turn of the scan leaves less to scan |
| TaskKeeping.TriggerMovesOn | src/task_runner.cpp:64-85 | every step of the trigger loop leaves less of it, except a retry because the session mutex is taken |
| TaskKeeping.ScheduleEnds | src/task_runner.cpp:7-25 | a Schedule ends in one new task with the due time and the session it was given, put into the map once, and no other task touched |
| TaskKeeping.ReadingStays | src/task_runner.cpp:43 | a RunOnce works to its end with the clock reading it began with |
| TaskKeeping.NothingFiresEarly | src/task_runner.cpp:43-64 | in every run, what a RunOnce runs was due before that reading |
| TaskRunner.TraceCounted | src/task_runner.h:44-53 | in every run, who waits for whom implies how many Cancel calls of the task were begun |
| TaskRunner.UnblockedCanMove | src/task_runner.cpp:40-85 | a thread inside the library or asking for a session mutex that no held lock stops has an enabled step |
| TaskRunner.BlockedByHolder | src/task_runner.cpp:40-85 | a thread is blocked, if and only if some thread holds the lock that is its next action |
| TaskRunner.NoDeadlock | src/task_runner.cpp:64-85 | with at most one Cancel per task, and no session mutex held by a thread that asks for another, a blocked thread waits, through one to three held locks, for a thread that can move: one inside the library, or one outside that can give back the mutex asked for |
| TaskRunner.CallLockHandedOver | src/task_runner.cpp:67-81 | a canceller that holds the session mutex and waits for callLock: the lock is free, or its runner is not in the callback and every next step of that runner frees it |
| TaskRunner.CancelInsideRunOnceDoesNotStop | src/task_runner.h:44-53 | a run in which a callback cancels a later task of its batch, the call returns, and the task runs all the same |
| TaskRunner.SecondWaitHangs | src/task_runner.h:44-53 | a canceller that waits for a callLock taken by another Cancel of the same task waits for ever |
| TaskRunner.ThirdCancelWaits | src/task_runner.h:44-53 | three Cancel calls of one task are a run that gets there |
| TaskRunner.CycleHangs | src/task_runner.cpp:64-85 | a callback that asks for a session mutex whose holder waits for that callback never moves again, and neither does the holder, in any continuation |
| TaskRunner.SecondSessionDeadlocks | src/task_runner.cpp:64-85 | a run that gets there with one Cancel and a callback that asks for a second session mutex; every thread inside is blocked |
| TimerProxy.ScheduleIsTimely | src/task_runner.cpp:90-102 | the runner key of a scheduled timer is no earlier than the deadline meant, if and only if no sum reaches 2^63 |
| TimerProxy.LinkIsTimely | src/task_runner.cpp:104-115 | the same for the key made by Link from the 64-bit deadline |
| TimerProxy.LinkIsPrompt | src/task_runner.cpp:109-112 | a relinked timer keeps its deadline, up to the time between the two clock readings; an overdue one is due at once |
| TimerProxy.Proxy.Schedule | src/task_runner.cpp:90-102 | adds one storage and, when linked, exactly one entry; keeps the invariant |
| TimerProxy.Proxy.Link | src/task_runner.cpp:104-115 | refuses when linked; otherwise every storage gets one entry, each made from the next two clock readings, and the timers and old entries stay as they were |
| TimerProxy.Proxy.Unlink | src/task_runner.cpp:117-129 | every entry ever made is cancelled exactly once afterwards; nothing else about timers and entries changes |
| TimerProxy.Proxy.Cancel | src/task_runner.cpp:131-138 | the storage is gone and all its entries are cancelled exactly once, other timers stay; a second Cancel changes nothing |
| TimerProxy.Proxy.Fire | src/task_runner.cpp:52-64 | an entry whose sums fitted fires only after the deadline meant, cancelled or not |
| TimerProxy.OneEntryEach | src/task_runner.cpp:90-138 | linked, each uncancelled storage has exactly one uncancelled entry; unlinked, there is none |
| TimerProxy.QueuedAnew | src/task_runner.cpp:104-129 | after Unlink and Link a timer has an entry that is neither cancelled nor run, if and only if it is in the proxy |
| TimerProxy.Relink | src/task_runner.cpp:104-129 | the same of the two calls, for every proxy and every clock: queued anew exactly the timers that nobody cancelled |
| TimerProxy.RunAgain | src/task_runner.cpp:104-129 | any timer still in the proxy whose deadline has passed is run by the next RunOnce after the move, whether or not it ran before |
| TimerProxy.FiresAgain | src/task_runner.cpp:104-129 | a run on a clock that goes forward: a timer fires at 6, is moved by Unlink and Link, and fires again at 7 |
| TimerProxy.HugeDelayIsEarly | src/task_runner.cpp:11 | a delay near 2^63 gives an entry due in the past |
| EpollWakeup.AfterKeepsInv | src/epoller_entry.cpp:255-412 | every atomic step of triggering, Mod, Add, Del, Notify, Wait and Poll keeps the wake-up invariant |
| EpollWakeup.FlagIsBacked | src/epoller_entry.cpp:18-31 | a raised notify flag is always backed by an armed socket pair, a woken waiter or a thread about to arm it |
| EpollWakeup.PendingIsKept | src/epoller_entry.cpp:18-31 | a thread on its way to arm the socket pair stays so, or hands over to the winner of the flag |
| EpollWakeup.NoLostWakeup | src/epoller_entry.cpp:263-292 | in every run, while the waiter is in epoll_wait and a Trigger or Mod has set a deliverable bit, epoll_wait can return or a thread that can move is about to arm the socket pair |
| EpollWakeup.BitsLeaveThroughPoll | src/epoller_entry.cpp:384-412 | a bit leaves revents only by being handed to the caller or with its registration |
| EpollWakeup.BitsArriveExactly | src/event.cpp:60-97 | a bit appears, if and only if a trigger sets it, a Mod that asks for POLLOUT raises it, or StartWait found it at Add |
| EpollWakeup.RegisteredExactly | src/epoller_entry.cpp:114-253 | a registration comes with Add and goes with Del of its fd, and with nothing else |
| EpollWakeup.MaskExactly | src/epoller_entry.cpp:190-210 | a mask is what the last Add or Mod of its fd gave, and nothing else changes it |
| EpollWakeup.ModIsStored | src/epoller_entry.cpp:190-210 | in every run, when a Mod gives up the lock, its fd is registered with the mask the Mod was given |
| EpollWakeup.PollEmpties | src/epoller_entry.cpp:384-412 | Poll hands over all deliverable bits of an fd at once, counts it once, and leaves none of them |
| EpollWakeup.PollsAll | src/epoller_entry.cpp:384-412 | in every run, a Poll that is not out of room has been at every fd that was registered when it began |
| EpollWakeup.RoomIsKept | src/epoller_entry.cpp:388-392 | in every run, Poll hands over no more than maxevents |
| EpollWakeup.StagesInOrder | src/epoller_entry.cpp:255-382 | which step leads Wait where: poll, tasks, epoll_wait, receive, poll again; what returns to the caller; and that nobody else moves it |
| EpollWakeup.TriggersExactly | src/event.cpp:60-97 | the events asked for can be triggered, an error always, and nothing else |
| EpollWakeup.FlagSparesThePair | src/epoller_entry.cpp:18-31 | a notifier that finds the flag raised is done; any other raises it and arms the pair |
| EpollWakeup.ArmedPairIsReported | src/epoller_entry.cpp:281-292 | epoll_wait reports an armed socket pair and does not time out over it |
| EpollWakeup.OnlySilentOversleeps | src/epoller_entry.cpp:263-292 | in every run, with room for events, the only bits slept over are those StartWait set at Add |
| EpollWakeup.AddOversleepsExactly | src/epoller_entry.cpp:114-183 | an Add during epoll_wait with nobody about to wake the waiter is slept over, if and only if the fd was ready when it was added |
| EpollWakeup.AddIsSilent | src/epoller_entry.cpp:114-183 | Add of a readable fd during epoll_wait notifies nobody |
| EpollWakeup.NoRoomOversleeps | src/epoller_entry.cpp:384-392 | with maxevents not positive a triggered bit is slept over |
| EpollRefs.Epoller.Add | src/epoller_entry.cpp:114-183 | right counts stay right if and only if the fd is registered already, unknown or closed, or has a UDP socket, free timers and a kernel that takes the socket; which of these gives which answer; a duplicate or bad fd changes nothing |
| EpollRefs.Epoller.AddEntry | src/epoller_entry.cpp:139-183 | done exactly for an entry that can be counted; otherwise the registration is stored, the counts are not touched, and right counts are right no more; EINVAL, EBUSY and the kernel's error each in exactly its case |
| EpollRefs.Epoller.NewEntry | src/socket_entry.cpp:27-62 | a new socket or stream leaves right counts right |
| EpollRefs.Epoller.GiveUdp | src/socket_entry.cpp:100-141 | so does a socket getting its UDP socket |
| EpollRefs.AddBeforeBind | src/epoller_entry.cpp:142-153 | a socket added before Bind: EINVAL, then EEXIST, and after Bind the assertion of DelInner about the counts is false |
| EpollRefs.UncountedIsWrong | src/epoller_entry.cpp:145-173 | a registration stored and not counted makes the counts wrong |
| EpollRefs.AddLoses | src/epoller_entry.cpp:139-173 | so does one whose entry was changed on the way |
| EpollRefs.AddCounts | src/epoller_entry.cpp:139-183 | a registration stored and counted keeps them right |
| EpollRefs.CountedWith | src/epoller_entry.cpp:164-180 | counting one more registration keeps each count equal to the number of users and the kernel set equal to the sockets in use |
| EpollRefs.CountedWithout | src/epoller_entry.cpp:233-243 | removing a registration keeps both; the UDP socket is found in the table |
| EpollRefs.DelCounts | src/epoller_entry.cpp:233-250 | so does a registration removed together with the wait and the timers of its entry |
| EpollRefs.DelIsSafe | src/epoller_entry.cpp:233-239 | with right counts both assertions of DelInner hold |
| EpollRefs.Epoller.Del | src/epoller_entry.cpp:217-253 | the registration is gone, its entry is no longer waited on or linked, and right counts stay right |
| EpollRefs.Epoller.LoseFd | src/socket_entry.cpp:64-72 | an entry that gives up its descriptor leaves the counts right if and only if it was not registered |
| EpollRefs.Epoller.ClearWaitings | src/event.cpp:130-148 | tells the epoller once; right counts stay right and the entry is no longer registered; an entry without its descriptor changes no registration |
| EpollRefs.Epoller.CloseEntry | src/socket_entry.cpp:287-304 | closing and deleting an entry leaves the counts right, if and only if it is not a registered server's socket whose session reports the close back; then registration and count stay |
| EpollRefs.SelfDeleteKeepsCount | src/socket_entry.cpp:477-487 | a registered server socket that deleted itself: no entry has a descriptor, and registration and count are still there |
| FdTables.CreatedKeepsInv | src/fd_factory.h:12-18 | a new socket or stream gets a descriptor that was not live; live and free descriptors still split 1..acq and the index still names live sockets |
| FdTables.RegisteredKeepsInv | src/connection_manager.h:16-22 | registering a socket under a new connection id keeps all tables right |
| FdTables.DistinctIdsAreNeeded | src/connection_manager.h:16-22 | registering keeps the index naming each open socket, if and only if no other socket of that UDP socket has the connection id |
| FdTables.ClosedKeepsInv | src/connection_manager.h:44-61 | closing takes out the route, an inner map that became empty and the ownership, and no other route |
| FdTables.DeletedKeepsInv | src/fd_manager.h:31-39 | deleting frees the descriptor once; nothing in the index names it |
| FdTables.QueuedKeepsInv | src/socket_entry.cpp:427-433 | changing an accept queue leaves the tables alone |
| FdTables.RoutesAreLive | src/connection_manager.h:24-33 | what a lookup by UDP socket and connection id returns is live, open and registered itself there |
| FdTables.OwnersAreLive | src/connection_manager.h:35-42 | the owner of a UDP socket is live, open and bound to it |
| FdTables.Library.NewEntry | src/socket_entry.cpp:27-62 | the descriptor is the first of the free ones, which leaves them, or one above all so far if none is free; keeps the invariant |
| FdTables.FirstFreedFirstReused | src/fd_factory.h:12-26 | over any sequence of makes and deletes, the descriptors handed out again are those freed, in the order they were freed |
| FdTables.Library.SetUdpSocket | src/socket_entry.cpp:100-141 | refuses a second UDP socket; otherwise the socket owns the UDP socket and is routed to |
| FdTables.Library.OnSyn | src/socket_entry.cpp:435-440 | an incoming socket shares the UDP socket of its owner and is routed to, and the owner stays |
| FdTables.Library.PushAccept | src/socket_entry.cpp:452-467 | an accepted connection ends up last in the accept queue of the live owner |
| FdTables.Library.Accept | src/socket_entry.cpp:339-355 | takes the first of the queue |
| FdTables.Library.Close | src/socket_entry.cpp:287-304 | closes the socket, closes and deletes every socket in its accept queue, and touches no other; keeps the invariant |
| FdTables.Library.Delete | src/socket_entry.cpp:64-72 | frees the descriptor; a repeated delete changes nothing |
| FdTables.SameIdLeavesDeadOwner | src/connection_manager.h:44-61 | for every table and every owner registered under a taken id: closing the socket that had it, then closing and deleting the new one, leaves an owner whose descriptor is free |
| FdTables.DeadOwnerExactly | src/connection_manager.h:16-61 | an owner's id is new if and only if no open socket can be closed before it so that its own close and delete leave a dead owner |
| FdTables.TwoOwnersRun | src/connection_manager.h:44-61 | a run from the empty tables with two owners of one UDP socket and one id |
| NoAck.SendTracks | src/connection_visitor.cpp:101-104 | after a fresh send, lastSendTime_ is the earliest unanswered send later than the last ack |
| NoAck.AckTracks | src/connection_visitor.cpp:108-113 | after an ack nothing is unanswered |
| NoAck.WatchedExactly | src/connection_visitor.cpp:101-104 | a send is watched, if and only if some unanswered send is later than the last ack |
| NoAck.ArmedExactly | src/connection_visitor.cpp:54-66 | SetNoAckAlarm leaves the alarm set, if and only if the limit's int is not 0 and the deadline not time zero, or the int is 0 and it was set before; a newly set alarm is no later than the limit asks for |
| NoAck.Visitor.OnPacketSent | src/connection_visitor.cpp:85-105 | keeps tracking and, at any limit, the alarm bound |
| NoAck.Visitor.OnAckFrame | src/connection_visitor.cpp:108-113 | keeps tracking and, at any limit, the alarm bound |
| NoAck.Visitor.SetNoAckAlarm | src/connection_visitor.cpp:54-66 | for every limit: left alone when its int is 0, cancelled when the deadline is time zero, else set to the watched send or now plus the int |
| NoAck.Visitor.SetOpt | src/socket_entry.cpp:150-168 | through any change to any limit the alarm bound holds, and the alarm is exactly what SetNoAckAlarm makes it |
| NoAck.Visitor.Fire | src/connection_visitor.cpp:29-52 | closes for timeout only if some fresh send that no ack followed is longer ago than the limit |
| NoAck.Timely | src/connection_visitor.cpp:29-66 | until Close, at every limit whose int is not 0 and does not take the last deadline to time zero: for every unanswered send later than the last ack the alarm is set no later than that send plus the limit |
| NoAck.UnarmedExactly | src/connection_visitor.cpp:54-66 | in every state at such a limit the alarm is off, if and only if the limit's int is minus the seconds from time zero to what the last deadline was counted from, which takes a limit that is negative or at least 2^31 |
| NoAck.WatchedTimesOut | src/connection_visitor.cpp:35-38 | such a send older than the limit makes the check close the connection |
| NoAck.TruncatedLimitIsNeverArmed | src/connection_visitor.cpp:56-59 | at any limit whose int is 0, whatever is sent and acknowledged, the alarm is never set |
| NoAck.StaysUnarmed | src/connection_visitor.cpp:85-113 | without an alarm, no sequence of sends and acks sets it |
| NoAck.ZeroDeadlineIsNeverArmed | src/connection_visitor.cpp:56-65 | a limit of 2^32 - 1 seconds with a send one second after time zero: the alarm is never set, whatever follows |
| NoAck.SameTickIsNotWatched | src/connection_visitor.cpp:102-103 | a send in the microsecond of the last ack can stay unanswered beyond the limit |
| StreamRead.StreamEntry.Readv | src/stream_entry.cpp:43-84 | pieces in order, each within its buffer, as many bytes as both sides have; pieces and rest make up the old buffer; error, FIN and EAGAIN cases |
| StreamRead.StreamEntry.Scatter | src/stream_entry.cpp:61-66 | the copy loop returns the longest prefix the scatter list has room for |
| StreamRead.AfterKeepsInv | src/stream_entry.cpp:145-153 | every step of receiving, registering, waking and reading keeps the invariant |
| StreamRead.Conserved | src/stream_entry.cpp:43-84 | in every run, bytes returned followed by the buffer are the bytes received |
| StreamRead.NeverStranded | simple/connection.cpp:245-267 | in every run before FIN, a reader that keeps POLLIN, offers room and drains to EAGAIN is never idle with bytes buffered and no POLLIN pending or on its way |
| StreamRead.StrandsExactly | src/stream_entry.cpp:43-84 | in every run, a step strands a reader that was not stranded, if and only if it is a read refused for FIN, the end of a read without room, or a return of POLLIN to the mask, with bytes buffered and no event left |
| StreamRead.StrandedStays | src/stream_entry.cpp:145-153 | no step of the transport or the epoller ends it |
| StreamRead.RoomlessReadStrands | src/stream_entry.cpp:77-80 | a read with no room is told EAGAIN and strands the reader |
| StreamRead.MaskGapStrands | src/epoller_entry.cpp:190-210 | bytes that arrive while POLLIN is out of the mask leave no event |
| StreamRead.FinStopsReads | src/stream_entry.cpp:50-66 | after FIN no read gets past its test, and one that had copies at most once, in order, what it has room for |
| StreamRead.FinIsFinal | src/stream_entry.cpp:50-66 | in every run, from FIN on nothing is received, and only the read in flight at that time can still add to what was returned |
| StreamRead.ReadWholeIffDrained | src/stream_entry.cpp:50-71 | in every run, at every time after FIN, the stream has been read whole, if and only if the buffer was empty at FIN, or the read in flight then had room for it and has ended |
| StreamRead.ReadInFlightOutlivesFin | src/stream_entry.cpp:50-55 | a run in which a byte and FIN arrive while a read waits for the session mutex, and the read returns the byte after FIN |
| StreamRead.FinDropsBytes | src/stream_entry.cpp:165-172 | FIN can find bytes that arrived before it, were announced and are not yet read |
| StreamRead.FinRaises | src/stream_entry.cpp:165-172 | after FIN a reader without an event gets one, if and only if it registers anew for POLLIN on a stream that was ever readable |
| StreamRead.FinIsNotTold | src/stream_entry.cpp:165-172 | in every run, a reader that is without an event at FIN and stays registered is never told |
| StreamWrite.Quic.Write | src/stream_entry.cpp:18-41 | takes a prefix of what it is offered, or fails; what it took is appended to what arrived |
| StreamWrite.Stream.Write | simple/connection.cpp:149-168 | nothing is accepted after fin; what arrived at the transport followed by the queue is all that was accepted; the transport is asked once, and only with an empty queue |
| StreamWrite.Stream.WriteBufferedData | simple/connection.cpp:315-335 | conservation as before; the queue is what the transport's answers leave; shuts down once, and exactly when nothing is left after fin |
| StreamWrite.Stream.Flush | simple/connection.cpp:317-329 | no byte is lost or handed over twice for any transport, and the queue is what its answers leave |
| StreamWrite.LeftIsTheEnd | simple/connection.cpp:317-329 | what is left is the queue without whole slices at its front, all taken, and without the part of the next one that was taken; there it stops |
| StreamWrite.LeftIfAllTaken | simple/connection.cpp:317-329 | with a transport that takes all, the queue empties up to its first empty slice, so entirely if and only if no slice is empty |
| StreamWrite.FlushesToTheEnd | simple/connection.cpp:315-335 | after fin such a transport gets everything and the end of the stream, if and only if no slice is empty |
| StreamWrite.EmptySliceBlocksFin | simple/connection.cpp:149-168 | an empty last write queued behind other bytes keeps the end of the stream from ever being sent |
| LazyInstance.MaskTestIsCreated | libquic/base/lazy_instance_helpers.h:68-78 | the mask test tells exactly the values other than 0 and 1 |
| LazyInstance.AfterKeepsInv | libquic/base/lazy_instance_helpers.cc:14-61 | every atomic step of any thread keeps the invariant of the state word |
| LazyInstance.CreatedOnceAndShared | libquic/base/lazy_instance_helpers.h:57-95 | in every run the creator runs at most once, a caller that returns, returns what it made, neither 0 nor 1, and the destructor is registered at most once, and once when the creating call has returned |
| LazyInstance.AllCallersAgree | libquic/base/lazy_instance_helpers.h:57-95 | any two calls, by any threads at any times, return the same pointer |
| LazyInstance.SpinnerIsServed | libquic/base/lazy_instance_helpers.cc:31-45 | a spinning thread can go on, or the creating thread can move |
| LazyInstance.OnlySpinningWaits | libquic/base/lazy_instance_helpers.h:57-95 | a thread in a call that does not spin on a pointer being created has a step that moves it on |
| LazyInstance.NoNeedlessWait | libquic/base/lazy_instance_helpers.h:71-78 | once the pointer is there a call returns with its first load, and a thread that lost the race does not spin |
| LazyInstance.BothReturn | libquic/base/lazy_instance_helpers.h:57-95 | a run in which two threads race, the loser spins, and both return the one pointer |
| ObserverList.PlainRemove | libquic/base/observer_list.h:251-263 | nulling a slot and erasing it both take exactly that observer off the plain list |
| ObserverList.VisitsInOrder | libquic/base/observer_list.h:103-213 | an iteration visits in registration order, at most once, and under EXISTING_ONLY nothing added after its start |
| ObserverList.VisitsAll | libquic/base/observer_list.h:103-213 | at its end an iteration has visited every registration it was to visit except those gone before its turn |
| ObserverList.CursorGrows | libquic/base/observer_list.h:240-247 | an add during an iteration keeps what the iterator knows |
| ObserverList.CursorNulled | libquic/base/observer_list.h:251-278 | a removal or a clear during an iteration keeps it |
| ObserverList.CursorSkips | libquic/base/observer_list.h:193-198 | stepping over a null slot keeps it |
| ObserverList.CursorVisits | libquic/base/observer_list.h:193-198 | stepping onto a live slot keeps it |
| ObserverList.ObserverList.HasObserver | libquic/base/observer_list.h:266-268 | true exactly for the observers of the plain list |
| ObserverList.ObserverList.AddObserver | libquic/base/observer_list.h:240-247 | appends to the plain list unless already there; every live iterator stays valid |
| ObserverList.ObserverList.RemoveObserver | libquic/base/observer_list.h:251-263 | takes it off the plain list; with live iterators no slot moves |
| ObserverList.ObserverList.Clear | libquic/base/observer_list.h:271-278 | empties the plain list; with live iterators no slot moves |
| ObserverList.ObserverList.Compact | libquic/base/observer_list.h:284-287 | with no iterator, drops the null slots and keeps the plain list |
| ObserverList.ObserverList.Begin | libquic/base/observer_list.h:218-221 | an iterator that starts now, none for an empty vector |
| ObserverList.Iter.EnsureValidIndex | libquic/base/observer_list.h:193-198 | moves to the next slot that is not null, or the end |
| ObserverList.Iter.Advance | libquic/base/observer_list.h:157-163 | visits the next live registration |
| ObserverList.Iter.Destroy | libquic/base/observer_list.h:125-132 | the last iterator to go compacts; the plain list stays |
| Md5.F1IsF | libquic/base/md5.cc:53 | the optimised F1 is F of RFC 1321 section 3.4 |
| Md5.F2IsG | libquic/base/md5.cc:54 | F2 is G |
| Md5.MacroIsOperation | libquic/base/md5.cc:59-60 | MD5STEP is the operation [abcd k s i] for every f |
| Md5.Round1 | libquic/base/md5.cc:75-90 | the sixteen steps with their words, constants and rotations are round 1 |
| Md5.Round2 | libquic/base/md5.cc:92-107 | round 2 |
| Md5.Round3 | libquic/base/md5.cc:109-124 | round 3 |
| Md5.Round4 | libquic/base/md5.cc:126-141 | round 4 |
| Md5.RoundsAgree | libquic/base/md5.cc:67-147 | the four rounds with the macros equal the four rounds of the RFC for every state and block |
| Md5.LengthWords | libquic/base/md5.cc:252-256 | the two counter words, one after the other, are the 64-bit length, low byte first |
| Md5Stream.Transform | libquic/base/md5.cc:67-147 | MD5Transform is the compression of RFC 1321 |
| Md5Stream.BitCount | libquic/base/md5.cc:178-181 | the two-word counter with its carry is exact modulo 2^64 |
| Md5Stream.Waiting | libquic/base/md5.cc:183 | the low counter word tells how many bytes wait in the block |
| Md5Stream.Context.CountBits | libquic/base/md5.cc:176-183 | the counter stays 8 times the byte count modulo 2^64 |
| Md5Stream.Context.Update | libquic/base/md5.cc:171-215 | the context stands for the message so far followed by the data |
| Md5Stream.Context.Final | libquic/base/md5.cc:221-262 | the digest of RFC 1321 of the whole message, however it was split; the context is wiped |
| Md5Stream.Context.IntermediateFinal | libquic/base/md5.cc:264-270 | the digest so far, with the context untouched |
| Md5Stream.Sum | libquic/base/md5.cc:286-291 | the digest of RFC 1321 |
| BlockHash.AbsorbBlock | libquic/base/md5.cc:187-210 | data that completes the block folds exactly one block, and nothing waits |
| BlockHash.AbsorbPart | libquic/base/md5.cc:190-193 | data that does not leaves the state and extends what waits |
| BlockHash.PadLong | libquic/base/md5.cc:237-245 | padding over two blocks is the padding of the standard |
| BlockHash.PadShort | libquic/base/md5.cc:246-248 | so is padding in one block |
| Sha1.CodeFIsF | libquic/base/sha1.cc:68-78 | f is Ch, Parity, Maj and Parity of FIPS 180-3 section 4.1.1 |
| Sha1.TempsAgree | libquic/base/sha1.cc:180 | TEMP is the T of section 6.1.2 |
| Sha1.CodeAgrees | libquic/base/sha1.cc:155-196 | the 80 rounds equal those of the standard for every state and schedule |
| Sha1Stream.DigestsAgree | libquic/base/sha1.cc:155-196 | the digest with the step functions of the source is that of the standard |
| Sha1Stream.ProcessWords | libquic/base/sha1.cc:167-193 | the schedule loop and the round loop compute the compression |
| Sha1Stream.SwapLoads | libquic/base/sha1.cc:164-165 | byte-swapping a word in memory reads it first byte highest |
| Sha1Stream.SwapStores | libquic/base/sha1.cc:117-118 | byte-swapping a word writes it first byte highest |
| Sha1Stream.LengthBytes | libquic/base/sha1.cc:145-152 | the eight shifts write the length first byte highest |
| Sha1Stream.SecureHashAlgorithm.Process | libquic/base/sha1.cc:155-196 | one block folded, cursor back at 0 |
| Sha1Stream.SecureHashAlgorithm.Update | libquic/base/sha1.cc:121-129 | the object stands for the message so far followed by the data |
| Sha1Stream.SecureHashAlgorithm.Pad | libquic/base/sha1.cc:131-153 | one more Process gives the state of the padded message |
| Sha1Stream.SecureHashAlgorithm.Final | libquic/base/sha1.cc:113-119 | the digest of the whole message, however it was split |
| Sha1Stream.Hash | libquic/base/sha1.cc:205-212 | the digest of FIPS 180-3 |
| Bits.AlignRoundsUp | libquic/base/bits.h:25-28 | for every power of two the mask trick gives the smallest multiple not below the size, unless the sum wraps: then 0 |
| Bits.PowerOfTwoTest | libquic/base/bits.h:26 | the DCHECK accepts exactly the powers of two |
| PickleFormat.ReadsBack | libquic/base/pickle.cc:31-208 | a value laid out at the read index is read back and the index moves just past it |
| PickleFormat.AllReadBack | libquic/base/pickle.cc:31-208 | any list of typed values is read back in order, ending at the payload end |
| PickleFormat.RoundTrip | libquic/base/pickle.cc:238-255 | the same through a read-only Pickle over the written bytes, for any header size |
| PickleFormat.OpensAgain | libquic/base/pickle.cc:238-255 | a read-only Pickle over written bytes finds their header size and payload |
| PickleFormat.HeaderIsSound | libquic/base/pickle.cc:238-255 | every byte string is rejected, or has an aligned header of at least 4 bytes that with the payload size makes up the length |
| PickleFormat.AcceptedExactly | libquic/base/pickle.cc:238-255 | accepted exactly if the stated payload leaves a nonzero multiple of 4 |
| PickleFormat.Take | libquic/base/pickle.cc:43-72 | a read never moves the index back or past the end |
| PickleFormat.Read | libquic/base/pickle.cc:84-208 | nor does a typed read |
| PickleFormat.FailureIsFinal | libquic/base/pickle.cc:63-82 | a failed read leaves the index at the end, except after a unit count that gives no int |
| PickleFormat.NothingAtTheEnd | libquic/base/pickle.cc:52-72 | at the end no read of a byte or more succeeds |
| PickleFormat.ReadAfterFailure | libquic/base/pickle.cc:74-82 | after a failed ReadString16 with a negative count a ReadInt succeeds |
| PickleFormat.RejectedReadsNothing | libquic/base/pickle.cc:63-72 | no read succeeds on data the read-only constructor rejected |
| PickleFormat.PayloadExactly | libquic/base/pickle.cc:238-255 | the payload is the end of the data, as long as the header says; rejected data has none |
| PickleBytes.EncodedBytes | libquic/base/pickle.cc:402-433 | every byte of what is written for any value: little-endian numbers and lengths, text as it is, 16-bit units low byte first, zeros behind |
| PickleBytes.WrapIsModulo | libquic/base/pickle.h:326-329 | a number is written modulo the range of its width |
| PickleFormat.FindsTheSeam | libquic/base/pickle.cc:358-392 | FindNext finds the end of the first of several Pickles |
| PickleFormat.FindsNoSeam | libquic/base/pickle.cc:358-392 | and none in a Pickle cut short |
| Pickle.Pickle.constructor | libquic/base/pickle.cc:227-236 | an empty payload, the header size rounded up |
| Pickle.Pickle.Resize | libquic/base/pickle.cc:336-342 | a capacity that is a multiple of 64 and large enough; the old bytes stay |
| Pickle.Pickle.Grow | libquic/base/pickle.cc:412-418 | exactly the capacity of the growth rule, with room for the new size and never less than before; the old bytes stay |
| Pickle.Pickle.Reserve | libquic/base/pickle.cc:311-321 | contents unchanged, and exactly the capacity of its growth rule, with room for the length |
| Pickle.Pickle.Claim | libquic/base/pickle.cc:402-425 | the write offset stays aligned and within capacity, padding is zero, the header states the size |
| Pickle.Pickle.WriteBytes | libquic/base/pickle.cc:427-433 | the payload is extended by the bytes padded with zeros; the rest of the header stays |
| Pickle.Pickle.WriteNumber | libquic/base/pickle.h:326-329 | the payload is extended by the encoded value |
| Pickle.Pickle.WriteBool | libquic/base/pickle.h:189 | the same for a bool, written as an int |
| Pickle.Pickle.WriteText | libquic/base/pickle.cc:291-305 | the same for a string or a data blob |
| Pickle.Pickle.WriteString16 | libquic/base/pickle.cc:296-299 | the same for 16-bit strings |
| Pickle.Pickle.WriteAll | libquic/base/pickle.cc:291-305 | a list of values of any kinds extends the payload by their encodings in order |
| Pickle.Pickle.Data | libquic/base/pickle.h:172-176 | the bytes are the size, the rest of the header and the payload |
| Pickle.Save | libquic/base/pickle.cc:227-305 | a new Pickle given a list of values has exactly the bytes of their image |
| Pickle.PickleIterator.Advance | libquic/base/pickle.cc:43-50 | aligned and never past the end |
| Pickle.PickleIterator.TakeBytes | libquic/base/pickle.cc:63-72 | agrees with Take for every count |
| Pickle.PickleIterator.TakeElements | libquic/base/pickle.cc:74-82 | agrees with TakeUnits for every count |
| Pickle.PickleIterator.ReadBool | libquic/base/pickle.cc:84-86 | agrees with Read |
| Pickle.PickleIterator.ReadNumeric | libquic/base/pickle.cc:31-41 | agrees with ReadNumber at every width |
| Pickle.PickleIterator.ReadString | libquic/base/pickle.cc:144-166 | agrees with Read |
| Pickle.PickleIterator.ReadString16 | libquic/base/pickle.cc:168-190 | agrees with Read |
| Pickle.OpenReadOnly | libquic/base/pickle.cc:238-255 | the deduced header is 0, or aligned, at least 4, and complements the stated payload size |
| Pickle.Open | libquic/base/pickle.cc:238-255 | an iterator over those bytes stands at the start of the payload that was written |
| Pickle.PickleIterator.ReadValues | libquic/base/pickle.cc:84-190 | agrees with ReadList for every list of kinds |
| Pickle.WritesReadBack | libquic/base/pickle.cc:227-305 | through the objects themselves: any writable values, written to a Pickle of any header size, its bytes opened read-only and read through an iterator, come back, and the iterator is at the end |
| ArgvQuote.Quote | libquic/base/command_line.cc:104-149 | the index loop writes the quoted form |
| ArgvQuote.UntouchedExactly | libquic/base/command_line.cc:108-119 | an argument is left as it is, if and only if it has no space, backslash or quote and no percent sign to be protected; otherwise it comes out between quotes |
| ArgvQuote.ParseEscaped | libquic/base/command_line.cc:119-145 | inside quotes, the escaped text parses back to the text for any runs of backslashes and quotes |
| ArgvQuote.LineParses | libquic/base/command_line.cc:104-149 | a line of quoted arguments parses to the pieces of its arguments, for every list |
| ArgvQuote.RoundTripsExactly | libquic/base/command_line.cc:104-149 | the list comes back if and only if each argument is non-empty and has no tab, or also a character that makes the quoter quote it |
| ArgvQuote.SwitchRoundTrips | libquic/base/command_line.cc:458-466 | a switch whose value alone is quoted parses to one argument |
| FeatureList.RoundTrip | libquic/base/feature_list.cc:88-99 | printing both lists and registering them gives the table back, in any order the map is walked |
| FeatureList.RoundTripsExactly | libquic/base/feature_list.cc:339-376 | for valid names and findable trials it does if and only if every printed item is non-empty and has no whitespace at its ends |
| FeatureList.ItemRegisters | libquic/base/feature_list.cc:358-376 | registering a printed item adds exactly its entry, and only if the name is new |
| FeatureList.UntrimmedIsLost | libquic/base/feature_list.cc:339-356 | an item with whitespace at an end is never restored |
| FeatureList.DisabledFirst | libquic/base/feature_list.cc:88-99 | the same of the table the two lists make |
| FeatureList.FirstTokenCounts | libquic/base/feature_list.cc:339-376 | registering a list keeps what was there and adds, for each other name, what its first token asks for |
| FeatureList.TrialsExist | libquic/base/feature_list.cc:339-356 | only trials that exist get into the table |
| FeatureList.TokensOfOne | libquic/base/feature_list.cc:339-344 | a list without a comma is its trimmed text, or nothing |
| FeatureList.TokensOfTwo | libquic/base/feature_list.cc:339-344 | a comma separates a list into two read on their own |
| FeatureList.ItemsLookLike | libquic/base/feature_list.cc:378-417 | a star before a default, the trial after '<' |
| FeatureList.ListsLookLike | libquic/base/feature_list.cc:378-417 | a comma between items |
| FeatureList.FeatureList.RegisterOverride | libquic/base/feature_list.cc:358-376 | the first override of a name stays; a star means the default state |
| FeatureList.FeatureList.RegisterOverridesFromCommandLine | libquic/base/feature_list.cc:339-356 | every token in order |
| FeatureList.FeatureList.InitializeFromCommandLine | libquic/base/feature_list.cc:88-99 | for every name: what its first token in the disable list asks for, whatever the enable list holds; else its first token in the enable list; else no entry |
| FeatureList.FeatureList.GetFeatureOverrides | libquic/base/feature_list.cc:378-417 | both printed lists, for any order |
| FeatureList.CopyThroughCommandLine | libquic/base/feature_list.cc:88-99 | through the objects themselves: one list printed and another initialized from it agree, if and only if every printed item is non-empty and has no whitespace at its ends |

## Left out

- The QUIC session, framer and streams of libquic: their callbacks are steps of the environment, and a write takes some prefix.
- C++ memory ordering weaker than sequential consistency.
- System calls, apart from what a step needs: EPOLL_CTL_MOD arms the socket pair, epoll_wait consumes what it returns.
- src/clock_impl.h: time is a nondecreasing input.
- src/header_parser, src/packet_transport, src/quic_socket.cpp, src/debug: wrappers, dispatch and logging.
- Epoll2Poll and Poll2Epoll: plain bit maps, taken as the identity on the events used.
- TaskRunner: the runner's mutex, the two try-locks and the session mutex are locks with an owner; fairness of spinning is not modelled, so the progress results say that some thread can move. What a callback does besides Schedule, Cancel and session mutexes always ends.
- NoAck: the product of a limit above 2^63 / 10^6 seconds and 10^6, which overflows in the check, is taken exactly.
- StreamRead: one reader; the EBADF of a Readv whose stream is gone is not modelled, and errors set by OnClose are in StreamRead.StreamEntry.Readv but not in the runs.
- StreamWrite.Stream.Write: passes its fin flag on to QuicWrite, and what the transport does with it there is not modelled.
- TimerProxy.Proxy.Fire: one entry at a time; which entries a RunOnce collects, and in which order, is TaskRunner.FiresInOrder.
- EpollRefs.Epoller.Add: one epoller; a socket linked by another one is a socket whose timers are linked.
- FdTables.Library.Close: sequential; the locks of the three tables are not modelled.
- FdTables.Library.PushAccept: needs an owner, which the source asserts; a listener closed during a handshake has none.
- StreamRead.StreamEntry.Readv: the returned count is stated for buffers below 2^31 bytes, the range of `int`; the bytes copied are stated for all.
- LazyInstance: a creator that returns null, for which the header states an extra obligation of the caller.
- The heap addresses behind ObserverList: observers are values, and a freed list under a live iterator is not modelled.
- MD5 and SHA-1 on big-endian machines, and MD5DigestToBase16.
- Pickle: copy construction, assignment, ClaimBytes and attachments.
- ArgvQuote: the program name in argv[0], which CommandLineToArgvW parses by other rules, and the classification of switches.
- FeatureList: the command_line_only filter, shared memory, and overridden_by_field_trial, which the lists do not carry.
- base/bind, callback, optional, logging and the platform files.
