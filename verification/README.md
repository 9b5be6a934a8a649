# Teaching kernels, modelled and verified

The repository holds several small operating systems. This project models their hard core in Dafny and proves what it
promises: the blocking primitives of mtask2, the schedulers and process tables of Chinux and tpesoGuia, and the storage
code of Chinux and of the root disk driver. `dafny verify dfyconfig.toml` checks everything.

## Layout

- `Base`: small shared types.
- mtask2: `WaitOrder` (priority queue as a value), `DeltaOrder` (differential time queue as a value), `TaskQueues` (both
  as linked lists on the heap), `Semaphores`, `TimedWaits` (semaphores and the time queue together), `Mutexes` (mutex
  and monitor, statement by statement, over all interleavings), `LockObjects` (mutex, monitor and condition objects),
  `Locks` (the plain lock they implement), `Rings`, `Pipes`, `PipeCalls` (what a call does for its caller),
  `PipePriorities` (who is served next), `MsgQueues`, `MsgQueueCalls`.
- Schedulers: `AccumScheduler` and `RoundRobin` (Chinux), `AgingScheduler` (tpesoGuia), `SliceRecord` (both).
- Process table: `Processes` (waiting, waking, ending and killing on values, and what every run keeps), `ProcessList`
  (the linked list, with the recursive kill that edits it while walking it).
- Storage: `BlockBitmap`, `InodeRecords`, `FileBlocks` (Chinux), `DiskWrite` (the root driver).
- `Terminals` and `Decimal` (tpesoGuia), `KeyBuffer` (Chinux).

## How to read it

- Lists, queues, buffers and tables that the C code updates in place are classes and methods. Each method is proved
  against a function or relation on values, and the theorems are lemmas about those.
- Concurrent objects are step relations with one program counter per task. A step is one C statement, or one stretch
  with interrupts disabled; a run is any sequence of enabled steps of any number of tasks. The copying loops of the pipe
  move one byte per step, and the copy of a message is one step.
- `WaitQueueTimed`, `SignalQueue`, `FlushQueue`, `ready`, `block` and the clock interrupt follow mtask2/kernel/kernel.c
  (lines 142-171, 538-600 and 856-873).
- The monitor and mutexes inside `Pipes` and `MsgQueues` are the plain locks that `Mutexes.ImplementsLock` shows a
  mutex or monitor to be. The time stamps in `WaitOrder` and the streams of all bytes or messages ever moved are the
  model's record of history.
- One side of a pipe or message queue is open to any number of users, has one user at a time by agreement, or has a
  mutex (`Locks.Access`). The last two are called serialized. One user at a time is modelled as a mutex that is always
  found free, which only adds steps that change nothing.
- `SetPriority` is an event that can come at any moment of the runs of semaphores, mutexes, pipes and message queues.
- Integers are unbounded unless a width is named: the 16-bit sector number of the disk driver, the 32-bit words of the
  bitmap, the 32-bit fields of an inode and the signed arithmetic of `atoi2` are modelled; counters such as `use_count`,
  `acum` and `ticks` do not overflow.

## Findings

- `mt_getfirst_time` keeps the other deadlines exactly when the head was due or alone (`DeltaOrder.PopKeepsDelaysIffDue`).
- When the process that ran last has left the list, the Chinux round robin can pick idle although others are READY; one
  more call makes up for it (`RoundRobin.FirstCall`, `RoundRobin.IdleBeforeReady`, `RoundRobin.BoundedWaiting`).
- A process that waits for a pid that is not a live foreground child of its own is never woken
  (`Processes.StrandedForEver`); this happens as soon as a child ends before its parent waits for it
  (`Processes.ChildEndsFirst`).
- Killing a pid in Chinux reads a null list head exactly when the pid is unspared and not listed and every listed
  process is a doomed descendant of it (`ProcessList.Kernel.KillProcess`, `Processes.KillOfTheEnded`).
- `Destroy` of tpesoGuia follows a null pointer exactly when the pid is unknown, or belongs to a process in use whose
  parent is unknown (`AgingScheduler.Kernel.DestroyProcess`, `AgingScheduler.KillOfNobody`).
- With at least 100 free blocks counted and a positive quantity, `search_free_blocks` answers blocks past the end of the
  disk exactly when no run is long enough and the last block is free (`BlockBitmap.OnDiskIffRun`,
  `BlockBitmap.ShortTailIsHandedOut`). Extents held together stay disjoint all the same.
- The records of inode numbers from 320 on lie behind the table, soon among the data blocks; inserting one writes into
  a file exactly when the file's extent is there (`FileBlocks.InsideTable`, `FileBlocks.RecordHitsFile`).
- `write_inode` frees the blocks of the file itself when it appends in place (`FileBlocks.ExtentInUseIffMoved`,
  `FileBlocks.InPlaceAppendFreesItself`).
- The disk `write` is right exactly when offset + ((bytes - 1) mod 512 + 1) <= 512; otherwise it writes too little but
  reports all, or overruns the sector buffer. Past 32 MB it wraps to the front (`DiskWrite.RightExactlyWhenItFits`,
  `DiskWrite.FarWritesWrap`).
- `readKeyboard` asked for more than is there stops at the end of the line exactly when the line does not wrap
  (`KeyBuffer.LineBuffer.ReadKeyboard`, `KeyBuffer.WrappedLineOverrun`).
- `atoi2` gives back what `itoa2` wrote exactly below 2^31 (`Decimal.RoundTripBelow2To31`).

## Model

| member | source | states |
|---|---|---|
| TaskQueues.TaskQueue.FindPlace | mtask2/kernel/queue.c:25-28 | the walk stops at the first waiter whose priority is not below the newcomer's |
| TaskQueues.TaskQueue.Enqueue | mtask2/kernel/queue.c:20-55 | on the heap: the task joins the list at that place, every link, the ends and the queue fields stay exact, nothing else moves |
| TaskQueues.TaskQueue.SpliceBefore | mtask2/kernel/queue.c:30-42 | the four pointer updates in front of a waiter keep the doubly linked list exact |
| TaskQueues.TaskQueue.SpliceLast | mtask2/kernel/queue.c:42-52 | the same at the end of the list, or in an empty one |
| TaskQueues.TaskQueue.Unlink | mtask2/kernel/queue.c:66-84 | unlinking an inner, first, last or only task keeps the list exact and clears the task's links |
| TaskQueues.Dequeue | mtask2/kernel/queue.c:58-85 | a task leaves whatever queue holds it; a task in no queue is left alone |
| TaskQueues.TaskQueue.GetLast | mtask2/kernel/queue.c:93-107 | the last waiter is taken, none from an empty queue |
| TaskQueues.EnqueueIsInsert | mtask2/kernel/queue.c:20-55 | what the pointer surgery does is insertion by priority, then age |
| TaskQueues.DequeueIsWithout | mtask2/kernel/queue.c:58-85 | what unlinking does is removal by name |
| TaskQueues.GetLastIsFront | mtask2/kernel/queue.c:93-107 | what taking the last does is removal of the most urgent waiter |
| WaitOrder.InsertKeepsValid | mtask2/kernel/queue.c:8-55 | the queue stays sorted by priority and then by age, nobody in it twice, exactly the newcomer added |
| WaitOrder.WithoutKeepsValid | mtask2/kernel/queue.c:58-85 | removal keeps that order and removes exactly the task named |
| WaitOrder.FrontKeepsValid | mtask2/kernel/queue.c:93-107 | taking the last keeps that order and removes exactly that waiter |
| WaitOrder.LastIsMostUrgent | mtask2/kernel/queue.c:8-18 | the waiter served is of highest priority and the oldest among its equals |
| WaitOrder.NoOvertaking | mtask2/kernel/queue.c:8-18 | a later arrival never gets ahead of a waiter of at least its own priority |
| TaskQueues.TimeQueue.EnqueueTime | mtask2/kernel/queue.c:124-161 | on the heap: the new alarm takes its place, its successor pays for it, links, ends and in-queue flags stay exact |
| TaskQueues.TimeQueue.FindPlace | mtask2/kernel/queue.c:131-136 | the walk subtracts differences and stops where the rest fits |
| TaskQueues.TimeQueue.SpliceBefore | mtask2/kernel/queue.c:138-149 | the pointer updates in front of an alarm keep the time queue exact |
| TaskQueues.TimeQueue.SpliceLast | mtask2/kernel/queue.c:150-159 | the same at the end, or in an empty queue |
| TaskQueues.TimeQueue.Unlink | mtask2/kernel/queue.c:164-191 | unlinking keeps the time queue exact and clears links and flag |
| TaskQueues.TimeQueue.DequeueTime | mtask2/kernel/queue.c:164-191 | the cancelled alarm's ticks go to its successor and the rest is as it was |
| TaskQueues.TimeQueue.GetFirstTime | mtask2/kernel/queue.c:200-214 | the head leaves the queue, links and flags stay exact |
| TaskQueues.TimeQueue.WakeDue | mtask2/kernel/queue.c:194-214 | exactly the leading alarms at zero leave, in order, and the links of the rest stay exact |
| TaskQueues.TimeQueue.ClockInterrupt | mtask2/kernel/queue.c:111-122 | one clock interrupt on the heap is the value-level clock step, and wakes exactly the tasks due |
| DeltaOrder.DecodeEncode | mtask2/kernel/queue.c:109-123 | absolute delays survive the differential encoding |
| DeltaOrder.EncodeDecode | mtask2/kernel/queue.c:109-123 | a differential queue decodes to nondecreasing delays, and encodes back to itself |
| DeltaOrder.RisingIsSorted | mtask2/kernel/queue.c:109-123 | deadlines are nondecreasing along the queue |
| DeltaOrder.InsertAlarmRefines | mtask2/kernel/queue.c:124-161 | differential insertion gives the newcomer its absolute delay and leaves every other delay unchanged |
| DeltaOrder.InsertAlarmAt | mtask2/kernel/queue.c:131-136 | the place where the subtracting walk stops is where differential insertion puts the alarm |
| DeltaOrder.RemoveAlarmRefines | mtask2/kernel/queue.c:164-191 | differential removal leaves every other absolute delay unchanged |
| DeltaOrder.ClockRefines | mtask2/kernel/queue.c:111-122 | touching only the head shortens every delay by one |
| DeltaOrder.PopKeepsDelaysIffDue | mtask2/kernel/queue.c:200-214 | taking the head keeps the other delays exactly when the head was due, or alone |
| DeltaOrder.WokenIffDue | mtask2/kernel/queue.c:111-122 | a clock interrupt wakes a task exactly when its delay has run out |
| DeltaOrder.AlarmGoesOffOnTime | mtask2/kernel/queue.c:109-214 | over every run, whatever other alarms do, an alarm d ticks away goes off at clock interrupt d and at no other |
| DeltaOrder.SetAlarmIsPending | mtask2/kernel/queue.c:124-161 | an alarm set for n ticks is pending with delay n |
| TimedWaits.WaitIsTimed | mtask2/kernel/sem.c:53-66 | a wait of n ticks that finds no event queues its caller, with an alarm n ticks away |
| TimedWaits.TimedWaitEnds | mtask2/kernel/sem.c:53-114 | over every run of semaphores that share the time queue, whatever else happens, a wait with d ticks left is answered once at most, by clock interrupt d at the latest, and unless its semaphore is flushed with false it is answered false at that interrupt only |
| TimedWaits.UnsignalledTimesOut | mtask2/kernel/sem.c:53-114 | a wait whose semaphore nobody signals or flushes returns false exactly at clock interrupt d |
| TimedWaits.TrueIsGranted | mtask2/kernel/sem.c:77-114 | a signal or flush answers true exactly to the waits that the semaphore's own record counts as granted, and a flush with false answers false |
| TimedWaits.StepKeepsValid | mtask2/kernel/sem.c:53-114 | every event keeps all semaphores in order |
| Semaphores.Semaphore.WaitSemTimed | mtask2/kernel/sem.c:53-75 | the whole new state, and who is granted, refused or queued |
| Semaphores.Semaphore.SignalSem | mtask2/kernel/sem.c:77-84 | the whole new state, and whom the signal wakes |
| Semaphores.Semaphore.FlushSem | mtask2/kernel/sem.c:107-114 | value and queue are emptied and every waiter woken, most urgent first |
| Semaphores.StepKeepsValid | mtask2/kernel/sem.c:53-114 | events are stored only while nobody waits, and the queue stays in serving order |
| Semaphores.RunKeepsValid | mtask2/kernel/sem.c:53-114 | the same over every run |
| Semaphores.WaitOutcome | mtask2/kernel/sem.c:53-75 | a wait is granted exactly when an event is stored, else refused at once without patience and queued with its priority with patience |
| Semaphores.WaitersKeepTheirPriority | mtask2/kernel/sem.c:53-75 | over every run each waiter is queued with the priority it called with or was given since |
| Semaphores.EventsAreConserved | mtask2/kernel/sem.c:53-114 | over every run initial value plus signals equals final value plus granted waits, with the exact balance of flushes; a timeout consumes nothing |
| Semaphores.SignalServesMostUrgent | mtask2/kernel/sem.c:77-84 | in every run a signal serves a waiter of highest priority, the oldest among those |
| Semaphores.WaiterIsServed | mtask2/kernel/sem.c:53-84 | a waiter with n others ahead is granted by signal n + 1 at the latest, however many others of no higher priority arrive |
| LockObjects.Mutex.EnterMutexTimed | mtask2/kernel/mutex.c:57-73 | the method is the machine's steps taken without interruption; succeeds at once exactly for the owner or a free mutex |
| LockObjects.Mutex.LeaveMutex | mtask2/kernel/mutex.c:83-94 | fatal exactly when the caller is not inside; the last leave hands over to the most urgent waiter |
| LockObjects.Monitor.EnterMonitorTimed | mtask2/kernel/monitor.c:55-68 | the machine's steps; fatal exactly when the caller is inside already |
| LockObjects.Monitor.LeaveMonitor | mtask2/kernel/monitor.c:75-83 | the machine's steps; fatal exactly when the caller is not inside; afterwards the caller can enter again |
| LockObjects.Condition.WaitConditionTimed | mtask2/kernel/monitor.c:131-148 | leaves the monitor and joins the condition's queue in one stretch, or, with no time to wait, comes straight back to the monitor's gate and answers false; fatal exactly for a caller outside |
| LockObjects.Condition.BackFromWait | mtask2/kernel/monitor.c:131-148 | a caller that has waited enters the monitor again without a limit and then returns the outcome of its wait |
| LockObjects.Condition.SignalCondition | mtask2/kernel/monitor.c:162-169 | wakes the most urgent waiter, if any, and says whether there was one |
| LockObjects.Condition.BroadcastCondition | mtask2/kernel/monitor.c:182-189 | wakes every waiter, most urgent first |
| Mutexes.StepKeepsInv | mtask2/kernel/mutex.c:57-94 | every statement of every interleaving, with priority changes at any moment, keeps one holder of the event, and owner and use_count true to it |
| Mutexes.TokenLaw | mtask2/kernel/mutex.c:57-94 | stored event, task handed it, owner, and leaver about to signal always add up to one |
| Mutexes.MutualExclusion | mtask2/kernel/mutex.c:57-94 | at most one task is inside; owner names it and use_count counts its enters minus leaves |
| Mutexes.PanicsExactlyOnMisuse | mtask2/kernel/mutex.c:83-87 | a fatal error happens exactly on leaving what one has not entered or entering a monitor twice |
| Mutexes.DepthCounts | mtask2/kernel/mutex.c:57-94 | over every run a task outside any call is as deep in the mutex as it has entered it more often with success than left it, and use_count is that number |
| Mutexes.EventGoesToMostUrgent | mtask2/kernel/mutex.c:57-94 | over every run a leaver hands the event to a waiter whose priority, as given on entering or set since, nobody else that waits exceeds; a task without patience never waits |
| Mutexes.ImplementsLock | mtask2/kernel/monitor.c:55-83 | every statement of a mutex or monitor is one operation of a plain lock, or none |
| Locks.OneInside | mtask2/kernel/monitor.c:55-83 | a guarded section never holds two tasks |
| Rings.ByteRing.GetData | mtask2/kernel/pipe.c:11-26 | the copying loop moves the oldest bytes to the buffer, as many as wanted and present, and drops them from the ring |
| Rings.ByteRing.PutData | mtask2/kernel/pipe.c:37-52 | the copying loop appends as many bytes as fit |
| Rings.PushAppends | mtask2/kernel/pipe.c:43-49 | writing at tail appends to the contents |
| Rings.PopDrops | mtask2/kernel/pipe.c:17-23 | reading at head drops the oldest byte |
| Pipes.StepKeepsInv | mtask2/kernel/pipe.c:6-53 | every statement of every interleaving, with priority changes at any moment, keeps locks, condition queues, calls and ring in order |
| Pipes.StreamLaw | mtask2/kernel/pipe.c:6-53 | in every reachable state, in the middle of a copy too, bytes written are bytes read followed by the ring from head: avail bytes, corrected by those the task inside has copied and not counted; tail is in place |
| Pipes.SleepersAreStuck | mtask2/kernel/pipe.c:6-53 | with both sides serialized, by mutex or by agreement, and the monitor free, a reader sleeps only on an empty pipe, a writer only on a full one |
| Pipes.NeverBothAsleep | mtask2/kernel/pipe.c:6-53 | so the two sides never sleep together |
| Pipes.SomebodyGoesOn | mtask2/kernel/pipe.c:131-195 | no deadlock: with both sides serialized, while a get and a put call are in progress some task can execute its next statement |
| Pipes.SignalledFindsWork | mtask2/kernel/monitor.c:131-148 | a signalled task finds at least one byte, or one place, on re-entry |
| Pipes.ForeverMovesAll | mtask2/kernel/pipe.c:131-195 | with both sides serialized and no time limit PutPipe and GetPipe(get_all) move exactly size bytes |
| Pipes.WritesAreContiguous | mtask2/kernel/pipe.c:179-195 | on a serialized side a writer's bytes are contiguous in the stream |
| Pipes.ReadsAreContiguous | mtask2/kernel/pipe.c:131-160 | on a serialized side a reader receives a contiguous stretch of the stream |
| PipeCalls.VisitMovesAll | mtask2/kernel/pipe.c:6-53 | a visit to the monitor that moves anything moves all that is wanted, or leaves the pipe empty behind a get and full behind a put; a get that does not ask for all makes one such visit |
| PipeCalls.VisitIsGetData | mtask2/kernel/pipe.c:6-27 | from the test on, taken alone, a get call does what get_data promises: the oldest bytes, as many as wanted and present, move to the caller and the ring keeps the rest |
| PipeCalls.VisitIsPutData | mtask2/kernel/pipe.c:30-53 | the same for a put call and put_data |
| PipeCalls.CallEndsOrGoesOn | mtask2/kernel/pipe.c:131-195 | after a visit a call goes on exactly when it wants all, has moved something and has not got all; otherwise it returns the bytes of this visit and those before |
| PipeCalls.AnswerCountsBytes | mtask2/kernel/pipe.c:131-195 | over every run a call returns the number of bytes it has moved through the ring since it began, at most what its caller asked for; a get has them in its buffer, a put moves its caller's bytes; side, size, patience and priority are the caller's |
| PipeCalls.ForeverMovesSome | mtask2/kernel/pipe.c:131-195 | with both sides serialized a call without a time limit never returns empty-handed |
| PipeCalls.ImpatientNeverSleeps | mtask2/kernel/pipe.c:131-195 | a call without patience sleeps on no condition and waits for no mutex |
| PipeCalls.TimedOutCallEnds | mtask2/kernel/pipe.c:6-53 | a call whose time has run out makes no further attempt and returns what it had |
| PipePriorities.StepKeepsPrices | mtask2/kernel/pipe.c:6-53 | every statement keeps each waiter queued with its own current priority |
| PipePriorities.MonitorGoesToMostUrgent | mtask2/kernel/monitor.c:75-83 | the monitor goes to a waiter of the highest priority there is among those that wait for it |
| PipePriorities.MutexGoesToMostUrgent | mtask2/kernel/mutex.c:83-94 | the mutex of a side likewise |
| PipePriorities.SignalWakesMostUrgent | mtask2/kernel/monitor.c:162-169 | a signal wakes one sleeper of the other side, of the highest priority there is among them, and nobody else |
| Pipes.NeverPanics | mtask2/kernel/monitor.c:55-148 | the monitor is never misused, and no copy leaves the ring or the caller's size bytes |
| Pipes.StepKeepsWake | mtask2/kernel/pipe.c:6-53 | every statement keeps the promise that nobody sleeps in vain |
| Pipes.StepKeepsStretch | mtask2/kernel/pipe.c:131-195 | every statement keeps each call's bytes contiguous |
| Pipes.InitIsGood | mtask2/kernel/pipe.c:68-87 | a pipe just created satisfies all of it |
| MsgQueues.SlotBuffer.CopyOut | mtask2/kernel/msgqueue.c:13-13 | the memcpy of a get, at byte offsets, is the copy step on slots |
| MsgQueues.SlotBuffer.CopyIn | mtask2/kernel/msgqueue.c:26-26 | the memcpy of a put changes exactly its slot |
| MsgQueues.SlotBuffer.Bump | mtask2/kernel/msgqueue.c:14-14 | the byte pointer moves on by one message, for either side |
| MsgQueues.SlotBuffer.Wrap | mtask2/kernel/msgqueue.c:15-16 | at the end of the buffer the byte pointer goes back to the start, for either side |
| MsgQueues.StepKeepsInv | mtask2/kernel/msgqueue.c:8-32 | every statement of every interleaving, any number of users on either side and priority changes included, keeps mutexes, semaphores and tokens in order |
| MsgQueues.StepKeepsCounts | mtask2/kernel/msgqueue.c:8-32 | with both sides serialized every statement keeps tokens, pointers, slots and messages in step |
| MsgQueues.TokenLaw | mtask2/kernel/msgqueue.c:8-32 | tokens of both semaphores and those that tasks have taken and not passed on always add up to msg_max, with any number of users on either side |
| MsgQueues.FifoLaw | mtask2/kernel/msgqueue.c:8-32 | with both sides serialized messages received are a prefix of those sent, and the slots hold the rest in order |
| MsgQueues.CopiesStayInside | mtask2/kernel/msgqueue.c:13-26 | with both sides serialized every message is copied inside the buffer |
| MsgQueues.NeverBothQueued | mtask2/kernel/msgqueue.c:8-32 | with both sides serialized a getter and a putter never wait for a token at the same time |
| MsgQueues.SomebodyGoesOn | mtask2/kernel/msgqueue.c:8-32 | no deadlock: with any number of users, while a get and a put call are in progress some task can execute its next statement |
| MsgQueues.SlotsNeverShared | mtask2/kernel/msgqueue.c:8-32 | with both sides serialized a get and a put that copy at the same time use different slots |
| MsgQueues.OneUserPerSide | mtask2/kernel/msgqueue.c:103-147 | no two tasks of a serialized side are ever between taking a token and signalling |
| MsgQueueCalls.AnswerIsTrue | mtask2/kernel/msgqueue.c:103-147 | over every run a call answers true exactly when it has copied one message since it began and false exactly when it has copied none; without a time limit it never answers false; side, patience, priority and message to put are the caller's |
| MsgQueueCalls.AnswerHasTheMessage | mtask2/kernel/msgqueue.c:8-32 | with both sides serialized a get that answers true has the latest message received, and a put the latest sent |
| MsgQueueCalls.ImpatientNeverSleeps | mtask2/kernel/msgqueue.c:8-32 | a call without patience sleeps in no semaphore and waits for no mutex |
| MsgQueueCalls.TokenGoesToMostUrgent | mtask2/kernel/sem.c:77-84 | a token passed on goes to a sleeper of the highest priority there is on the other side |
| MsgQueueCalls.MutexGoesToMostUrgent | mtask2/kernel/mutex.c:83-94 | the mutex of a side goes to a waiter of the highest priority there is |
| AccumScheduler.BestIsBest | Chinux/src/scheduler2.c:86-127 | the choice has most points, then highest priority, then is last in the list; none exactly when nobody is READY |
| AccumScheduler.Scheduler.Walk | Chinux/src/scheduler2.c:97-119 | the loop over the list finds that choice and charges every READY process once |
| AccumScheduler.Scheduler.GetNextTask | Chinux/src/scheduler2.c:86-127 | the accounts after the call, the chosen process reset, idle when nobody is READY |
| AccumScheduler.Scheduler.GetNextProcess | Chinux/src/scheduler2.c:71-84 | the choice runs and is current, its terminal, or the one shown for idle, is the current one, and it is recorded in the last hundred |
| AccumScheduler.PassedOverGains | Chinux/src/scheduler2.c:116-117 | a READY process of priority at least p that is passed over k times gains at least k (p + 1) points, and exactly that while its priority is p |
| AccumScheduler.OneFewer | Chinux/src/scheduler2.c:86-127 | each call that passes a process over uses up one of its contenders |
| AccumScheduler.OpenSystemBoundedWaiting | Chinux/src/scheduler2.c:86-127 | with at most n processes and priorities up to P, a process of priority at least p that is READY at every call is chosen within (P - p)(n - 1)/(p + 1) + n + 1 calls, even as others come and go: the higher its priority, the sooner |
| AccumScheduler.ClosedSystemBoundedWaiting | Chinux/src/scheduler2.c:86-127 | with no newcomers and n >= 2, (P - p)(n - 2)/(p + 1) + n calls are enough |
| SliceRecord.HoldsTheLastHundred | Chinux/src/scheduler2.c:71-84 | the ring holds the pids of the last hundred slices, the latest just behind the place of the next |
| AgingScheduler.WinnerIsBest | tpesoGuia/sched.c:55-88 | the choice has greatest rank and lowest slot among equals |
| AgingScheduler.WinnerByAgeAndPriority | tpesoGuia/sched.c:55-88 | in the fields: somebody runnable is chosen if there is anybody; the choice is older than any other runnable process by two calls for each unit of priority it is behind; of equal age the lower priority number wins, then the lower slot |
| AgingScheduler.Kernel.NoProcesses | tpesoGuia/kernel.c:33-42 | true exactly when every slot is free |
| AgingScheduler.Kernel.GetNextTask | tpesoGuia/sched.c:55-88 | the loop ages runnable slots, counts sleepers up and finds the choice, also on the early exit for an empty table |
| AgingScheduler.Kernel.GetNextProcess | tpesoGuia/sched.c:39-52 | the chosen process is current, its age reset and its pid recorded |
| AgingScheduler.Kernel.GetProcessByPID | tpesoGuia/kernel.c:79-97 | idle for pid 0, else the first slot with the pid, null when there is none |
| AgingScheduler.Kernel.CreateProcessAt | tpesoGuia/kernel.c:157-190 | the first free slot is filled with a fresh pid and age 0 and the parent of a foreground process blocked; not safe exactly for a full table or a foreground process whose creator is unknown |
| AgingScheduler.Kernel.DestroyProcess | tpesoGuia/kernel.c:437-464 | the slot is freed and the waiting parent released; null is followed exactly when the pid, or the parent of a process in use, is unknown |
| AgingScheduler.KillOfNobody | tpesoGuia/kernel.c:437-464 | an input for which it follows null: the pid of no process |
| AgingScheduler.Kernel.WakeKeyWaiters | tpesoGuia/kernel.c:407-414 | exactly the processes waiting for a key at that terminal are released |
| AgingScheduler.EventEvolves | tpesoGuia/kernel.c:157-190 | creating, destroying, renicing, blocking and sleeping keep priorities in range and touch no age but a new process's |
| AgingScheduler.CreateEvolves | tpesoGuia/kernel.c:157-190 | the same for creation |
| AgingScheduler.DestroyEvolves | tpesoGuia/kernel.c:437-464 | the same for destruction |
| AgingScheduler.ForegroundStarts | tpesoGuia/kernel.c:157-190 | a foreground process starts runnable, with a fresh pid and its creator as parent, and the creator is blocked; nobody else changes |
| AgingScheduler.BackgroundStarts | tpesoGuia/kernel.c:157-190 | a background process starts and nobody is blocked |
| AgingScheduler.WaitsOn | tpesoGuia/kernel.c:157-190 | a process that waits for its child or a key waits on through every event but the end of a child, its own end, and a key at its terminal |
| AgingScheduler.ChildEndsWait | tpesoGuia/kernel.c:437-464 | the end of a foreground child frees its slot and makes its parent runnable, unless asleep |
| AgingScheduler.KeyEndsWait | tpesoGuia/kernel.c:407-414 | a key makes runnable exactly those that wait for one at its terminal |
| AgingScheduler.SleepLasts | tpesoGuia/kernel.c:425-434 | a process that called Sleep(n) is passed over at the next 20 n calls and runnable at the one after |
| AgingScheduler.PassedOverAges | tpesoGuia/sched.c:70 | a runnable process that is passed over ages at every call |
| AgingScheduler.BoundedWaiting | tpesoGuia/sched.c:39-88 | a process runnable at every call, with priority number p at most, is dispatched within N + 2 p calls, N slots, while the others do as they like |
| RoundRobin.GetNextTask | Chinux/src/scheduler.c:86-124 | the two-pass walk answers the first READY process after the current one in cyclic order; idle exactly when none is READY, or when an unlisted current process finds the head not READY |
| RoundRobin.NextIsUnique | Chinux/src/scheduler.c:86-124 | that answer is determined |
| RoundRobin.FirstCall | Chinux/src/scheduler.c:86-124 | although a process is READY idle is chosen exactly when the process that ran last is not idle and not listed and the head is not READY |
| RoundRobin.IdleBeforeReady | Chinux/src/scheduler.c:86-124 | an input for which that happens |
| RoundRobin.OneCallNearer | Chinux/src/scheduler.c:86-124 | a call that passes a READY process over brings its turn nearer |
| RoundRobin.BoundedWaiting | Chinux/src/scheduler.c:86-124 | over a fixed list of n a process READY at every call is chosen within n calls, n + 1 when the last process run has left the list |
| RoundRobin.TakesTurns | Chinux/src/scheduler.c:86-124 | when everybody is READY n calls serve each once in list order |
| ProcessList.Kernel.GetProcessByPID | Chinux/src/kernel.c:246-258 | the listed process with the pid, idle when there is none |
| ProcessList.Kernel.CreateProcess | Chinux/src/kernel.c:261-318 | a fresh pid, the running process as parent, at the end of the list |
| ProcessList.Kernel.SetProcessReady | Chinux/src/kernel.c:299-318 | the node is appended and the chain stays exact |
| ProcessList.Kernel.BlockPidProcess | Chinux/src/kernel.c:320-347 | exactly the process named is BLOCKED, and the slice is cut short |
| ProcessList.Kernel.AwakePidProcess | Chinux/src/kernel.c:350-359 | exactly a BLOCKED process that waits for no child becomes READY |
| ProcessList.Kernel.WaitPidInKernel | Chinux/src/kernel.c:471-477 | the running process, if listed, waits for the pid and is BLOCKED; the slice is cut short |
| ProcessList.Kernel.Sleep | Chinux/src/kernel.c:662-668 | the running process, if listed, sleeps 18 ticks a second; the slice is cut short |
| ProcessList.Kernel.IsTimeSlot | Chinux/src/scheduler2.c:35-54 | every sleep is counted down, those that end wake their process, and the slice ends every third tick |
| ProcessList.Kernel.ReleaseParent | Chinux/src/kernel.c:380-388 | exactly a parent that waits for the process is released |
| ProcessList.Kernel.Unlink | Chinux/src/kernel.c:390-398 | exactly the node of the pid leaves the chain |
| ProcessList.Kernel.EndProcess | Chinux/src/kernel.c:369-407 | the end of the running process, listed or not, whole table; a null list head is read exactly when the list is empty |
| ProcessList.Kernel.KillInKernel | Chinux/src/kernel.c:409-464 | the recursive unlinking of nodes from the list being walked terminates and removes exactly what falls with the process; survivors keep order and fields but for the released parent; a null list head is read exactly when the pid is unspared and not listed and everybody listed falls with it, so never by a recursive kill |
| ProcessList.Kernel.WalkOn | Chinux/src/kernel.c:439-445 | one round of the walk, whose next pointer stays good although the node it stands on may have been unlinked |
| ProcessList.Kernel.KillProcess | Chinux/src/kernel.c:409-464 | the whole table after a kill, and exactly when it reads a null list head |
| ProcessList.HeadLostOnTable | Chinux/src/kernel.c:447-455 | the unlinking finds no head exactly when every listed process is a doomed descendant of an unlisted, unspared pid |
| ProcessList.GoneIsDoomed | Chinux/src/kernel.c:409-464 | of the listed processes exactly the doomed are gone |
| Processes.DoomedIffDescended | Chinux/src/kernel.c:439-445 | the doomed are exactly the ends of lines of descent through listed, unspared processes |
| Processes.KillRemovesExactly | Chinux/src/kernel.c:409-464 | a kill takes exactly the process and its line of descent off the list and keeps the rest in order; a spared one costs nothing |
| Processes.KillRefusedExactly | Chinux/src/kernel.c:409-425 | in the fields of the guard: a kill of a shell while a user is logged in, of idle, or of the login or logout process changes nothing; after any other the pid is not listed |
| Processes.FallsWithParent | Chinux/src/kernel.c:439-445 | in the same fields: another process falls exactly when it is a child of the pid killed or of one that falls, and is not protected itself |
| Processes.WaiterReleasedExactly | Chinux/src/kernel.c:369-455 | in any step a process that waits for its live child goes on waiting while the child is listed, and is READY when it leaves |
| Processes.ChildLeaves | Chinux/src/kernel.c:380-388 | the end of the child, or a kill aimed at it, makes the waiting parent READY |
| Processes.ChildStays | Chinux/src/kernel.c:350-359 | no sleep expiry, key press, block or wake-up ends the wait earlier |
| Processes.StepKeepsWaiters | Chinux/src/kernel.c:471-477 | every step keeps each waiting process BLOCKED with its child listed |
| Processes.NoStrandedWaiter | Chinux/src/kernel.c:471-477 | in every state reached from start-up, each process with nonzero waitingPid is BLOCKED and its foreground child listed |
| Processes.WaitsWhileChildLives | Chinux/src/kernel.c:471-477 | over every run a process waits as long as it and its child are listed |
| Processes.StrandedForEver | Chinux/src/kernel.c:471-477 | a process that waits for anything else than a live foreground child of its own waits for ever |
| Processes.ChildEndsFirst | Chinux/src/kernel.c:471-477 | a run from start-up in which a child ends before its parent waits for it, which leaves the parent waiting for nothing |
| Processes.CreateTakesEffect | Chinux/src/kernel.c:261-318 | a process created is READY, last in the list, with a pid nobody had and the running process as parent |
| Processes.BlockTakesEffect | Chinux/src/kernel.c:320-347 | blocking makes the process named BLOCKED and changes nobody else |
| Processes.AwakeTakesEffect | Chinux/src/kernel.c:350-359 | a wake-up makes the process named READY if it is BLOCKED and waits for no child, and changes nobody else |
| Processes.WaitTakesEffect | Chinux/src/kernel.c:471-477 | a wait makes the running process BLOCKED, waiting for the pid, and changes nobody else |
| Processes.SwitchTakesEffect | Chinux/src/scheduler2.c:56-84 | after a switch exactly the process picked is RUNNING, and the one that ran is READY unless BLOCKED |
| Processes.BlockedUntilAwoken | Chinux/src/kernel.c:320-359 | over every run a process blocked for a key or by a semaphore stays as it is until it is woken or ends |
| Processes.KillOfTheEnded | Chinux/src/kernel.c:447-455 | a run from start-up after which killing the pid of an ended process reads a null list head |
| Processes.SleepsOn | Chinux/src/scheduler2.c:40-49 | over every run a sleeping process left alone stays BLOCKED while fewer ticks pass than it asked for |
| Processes.WakesOnTime | Chinux/src/scheduler2.c:40-49 | the tick that makes up the number asked for makes it READY |
| Processes.SleepEndsOnTime | Chinux/src/kernel.c:662-668 | over every run a process that calls sleep(secs) and is left alone is BLOCKED for 18 * secs - 1 timer ticks and READY after the next |
| BlockBitmap.Bitmap.SetBit | Chinux/fileSystem/newFs.c:159-169 | exactly one bit of the packed words is set |
| BlockBitmap.Bitmap.ClearBit | Chinux/fileSystem/newFs.c:171-181 | exactly one bit of the packed words is cleared |
| BlockBitmap.Bitmap.IsFree | Chinux/fileSystem/newFs.c:183-193 | the packed bit is read |
| BlockBitmap.Bitmap.FillRun | Chinux/fileSystem/newFs.c:271-273 | the loop sets or clears exactly a run of bits |
| BlockBitmap.MasksDiffer | Chinux/fileSystem/newFs.c:149-157 | masks of different bits have no bit in common |
| BlockBitmap.BlockMap.Scan | Chinux/fileSystem/newFs.c:250-269 | the scan finds the lowest start of a long enough free run, else the short free run at its end, else nothing |
| BlockBitmap.ScanEnds | Chinux/fileSystem/newFs.c:250-269 | where the scan stops it has the first fit, or else the short tail |
| BlockBitmap.BlockMap.SearchFreeBlocks | Chinux/fileSystem/newFs.c:243-284 | answer, bits and both counters after a search, refusals and short tails included; bits past the stored words are set exactly when a short tail reaches that far |
| BlockBitmap.BlockMap.FreeUsedBlocks | Chinux/fileSystem/newFs.c:286-297 | bits and counters after a release |
| BlockBitmap.OnDiskIffRun | Chinux/fileSystem/newFs.c:267-283 | the blocks answered lie on the disk exactly when a long enough run was free; else they run past its end |
| BlockBitmap.AnsweredExactlyWhen | Chinux/fileSystem/newFs.c:243-284 | a search is answered exactly when 100 blocks are counted free, something is asked for, and a run or the last block is free; a refusal changes nothing |
| BlockBitmap.ShortTailIsHandedOut | Chinux/fileSystem/newFs.c:267-283 | a run on a disk just formatted that ends with blocks past the end being answered |
| BlockBitmap.AllocationCounts | Chinux/fileSystem/newFs.c:271-276 | set bits minus usedBlocks is constant, so is freeBlocks plus usedBlocks, and release is the inverse of allocation |
| BlockBitmap.HeldExtentsNeverOverlap | Chinux/fileSystem/newFs.c:243-297 | over every run of allocations and releases, short tails included, extents held together share no block and the counts agree, for a bitmap of any length and so also when searches run on into the memory behind it |
| BlockBitmap.FormattedIsSound | Chinux/fileSystem/newFs.c:113-138 | a disk just formatted is where those runs start |
| BlockBitmap.OnePastEnd | Chinux/fileSystem/newFs.c:267-283 | at most one extent held together with others runs past the end of the disk |
| InodeRecords.RecordComesBack | Chinux/fileSystem/newFs.c:375-411 | an inode copied into its 128 bytes and back is the same inode |
| InodeRecords.FieldsInMemory | Chinux/include/fs.h:81-91 | where each field of the struct lies in the 128 bytes, least significant byte first |
| FileBlocks.RecordsArePacked | Chinux/fileSystem/newFs.c:377-384 | four records fill a sector, without gaps |
| FileBlocks.InsideTable | Chinux/fileSystem/newFs.c:377-384 | a record lies inside the table exactly for inode numbers below 320 |
| FileBlocks.InsertedIsFound | Chinux/fileSystem/newFs.c:375-411 | an inode inserted is found under its number; every other number finds what it found before |
| FileBlocks.RecordHitsFile | Chinux/fileSystem/newFs.c:394-411 | inserting inode m leaves a file's blocks alone exactly when m's record is apart from them, as all in the table are |
| FileBlocks.FileSystem.GetInode | Chinux/fileSystem/newFs.c:375-391 | the record of a number in use, also past the table; nothing for a free one |
| FileBlocks.FileSystem.InsertInode | Chinux/fileSystem/newFs.c:394-411 | the disk changes in exactly that record, also past the table, and the number is in use |
| FileBlocks.FileSystem.WriteInode | Chinux/fileSystem/newFs.c:877-914 | in place or moved, the file holds its old bytes followed by the new unless its own record lies in its blocks, fits its extent, is found under its number, and all other bytes, and all records apart from the extent, are as before; without room nothing changes; the answer is n in any case; the file leaves the disk exactly when it has to move and the search answers a short tail |
| FileBlocks.AppendedContents | Chinux/fileSystem/newFs.c:898-906 | the bytes of the file after an append |
| FileBlocks.AppendsAdd | Chinux/fileSystem/newFs.c:877-914 | appending twice is appending both |
| FileBlocks.ExtentIsTight | Chinux/fileSystem/newFs.c:879-884 | a file that is moved gets as few blocks as hold its bytes and one more; one that stays keeps its extent |
| FileBlocks.ExtentInUseIffMoved | Chinux/fileSystem/newFs.c:908 | the file's blocks are marked in use after an append exactly when it was moved |
| FileBlocks.InPlaceAppendFreesItself | Chinux/fileSystem/newFs.c:908 | an input: one byte appended to a file just created frees its block |
| DiskWrite.Disk.ReadSector | atadisk.c:156-176 | the bytes asked for, none when they would leave the sector |
| DiskWrite.Disk.WriteSector | atadisk.c:181-202 | exactly the bytes given change, in the sector numbered modulo 65536; when they do not fit the sector buffer the disk is untouched |
| DiskWrite.Disk.PieceSize | atadisk.c:285-301 | the size of each piece |
| DiskWrite.Disk.Write | atadisk.c:268-313 | the disk and position after a write: whole, cut short, or overrunning the sector buffer after the pieces before it |
| DiskWrite.RightExactlyWhenItFits | atadisk.c:268-313 | a write changes exactly its bytes, whatever the data, exactly when the last share fits behind the offset |
| DiskWrite.CutShort | atadisk.c:285-301 | a write of a sector at most that does not fit ends with the sector it starts in, and the bytes behind are as before |
| DiskWrite.StopsBeforeOverrun | atadisk.c:285-301 | of a longer one the whole sectors are written before a last piece of more than one sector and less than two overruns the buffer |
| DiskWrite.FarWritesWrap | atadisk.c:181 | past 32 MB a write lands at the front of the disk |
| Terminals.Console.constructor | tpesoGuia/kernel.c:133-137 | nine different buffers, the first terminal in video memory |
| Terminals.Console.SwitchTo | tpesoGuia/kernel.c:381-392 | buffers stay different, the shown terminal is in video memory, and every text is kept, also switching to the current one |
| Terminals.Console.Play | tpesoGuia/kernel.c:381-392 | the same over any sequence of switches and writes |
| Terminals.SwitchesLeaveNoTrace | tpesoGuia/kernel.c:381-392 | the texts are what the writes alone would have made them |
| Terminals.LastSwitchIsShown | tpesoGuia/kernel.c:381-392 | the terminal shown is the one switched to last |
| KeyBuffer.LineBuffer.Clear | Chinux/src/kernel.c:466-469 | an empty line, also with the start one past the last place |
| KeyBuffer.LineBuffer.AddChar | Chinux/src/keyboard.c:86-95 | the character is appended unless 256 are there |
| KeyBuffer.LineBuffer.DeleteChar | Chinux/src/keyboard.c:71-84 | the last character, if any, is taken back |
| KeyBuffer.LineBuffer.Type | Chinux/src/keyboard.c:71-95 | after any adds and deletes the line is the surviving characters in order, across wrap-around |
| KeyBuffer.LineBuffer.ReadKeyboard | Chinux/src/keyboard.c:43-61 | up to size, exactly the first characters of the line; beyond it, the line alone exactly when it does not wrap |
| KeyBuffer.WrappedLineOverrun | Chinux/src/keyboard.c:43-61 | inputs for which more than the line is handed over |
| KeyBuffer.DeleteUndoesAdd | Chinux/src/keyboard.c:71-95 | a deletion takes back the character typed last |
| KeyBuffer.TextTypedIsTheLine | Chinux/src/keyboard.c:86-95 | a text typed is the line, as far as it fits: its first 256 characters |
| KeyBuffer.StopsAt | Chinux/src/keyboard.c:50-57 | when the end test of the read is met |
| Decimal.Itoa2 | tpesoGuia/libc.c:63-84 | the digits, highest first, a terminator, nothing else changed, and their number |
| Decimal.ReverseInPlace | tpesoGuia/libc.c:76-81 | the two-ended swap loop reverses the digits and touches nothing else |
| Decimal.Atoi2 | tpesoGuia/libc.c:30-41 | the value of the leading digits, in signed 32-bit arithmetic |
| Decimal.DigitCount | tpesoGuia/libc.c:63-84 | no leading zero, and as many digits as the number needs |
| Decimal.DigitsHaveTheValue | tpesoGuia/libc.c:63-84 | the digits printed stand for the number |
| Decimal.RoundTripBelow2To31 | tpesoGuia/libc.c:30-84 | printing and reading back gives the number exactly when it is below 2^31 |

## Left out

- Port I/O, interrupt controllers, descriptor tables, stack switching and assembly: hardware.
- Video drawing, shells, printf and scanf, demos, login: user interface.
- Chinux FIFOs and kernel semaphores: no queueing behaviour to prove.
- `parser_path`, directory entries and links of the Chinux file system, and the earlier drafts of it.
- The copy of the block bitmap that `search_free_blocks` writes to its own sectors of the disk.
- Multi-sector `read` of the root disk driver.
- mtask2 message passing between tasks (`Send`, `Receive`), and task creation and deletion.
- The allocators; memory from `malloc` is arbitrary, memory from mtask2's `Malloc` is zeroed.
- `SetPriority` on the heap: on values it is an event of every run.
- `SaveESP` and `GetNextProcess` of Chinux on the linked list: the switch is a step of `Processes`, and the choice is
  proved in `AccumScheduler` and `RoundRobin`. The `last100` entries that a kill or an end clears are not modelled.
- `Ready` and `Suspend` of mtask2, which can take a task off any queue, also one that waits without a limit.
- A switch inside a kill: the `_Sti` that ends a recursive kill opens interrupts in the middle of the outer walk
  (Chinux/src/kernel.c:461); the model takes a whole kill as one step.
- AgingScheduler.Kernel.CreateProcessAt: the memory behind a full table and behind a null pointer is not modelled; `ok` says when it is written.
- AgingScheduler.Kernel.DestroyProcess: what happens behind a null pointer is not modelled; `ok` says when it is followed.
- ProcessList.Kernel.KillInKernel: what is read through a null list head is not modelled; `ok` says when it is read.
- BlockBitmap.BlockMap.SearchFreeBlocks: the memory behind the stored words is not modelled; `ok` says when it is written.
- FileBlocks.FileSystem.WriteInode: for a file whose extent is on the disk; the state after blocks past the disk's end are handed out is not modelled, and `ok` says when they are.
- FileBlocks.FileSystem.GetInode: for the numbers below 81920 that the inode bitmap can hold.
- DiskWrite.Disk.Write: what lies behind the sector buffer when it is overrun is not modelled, and `ok` says when it is.
- MsgQueues.FifoLaw: for serialized sides; several users of an open side can pass the end of the buffer, and what their copies do there is not modelled.
