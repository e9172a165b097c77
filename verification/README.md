# Verified model of CyberRT's stateful components

This Dafny project models the small stateful components on which CyberRT's scheduling, messaging,
timing, logging and recording rest, and proves what they keep over all runs and interleavings.

Concurrent components are transition systems. A state holds the shared words and, for every
thread, a program counter with the thread's local variables; each atomic load, store,
compare-and-swap or mutex section is one step of one thread, the number of threads is arbitrary,
and a run is a sequence of states linked by steps. Weak compare-and-swaps may fail spuriously.
Some state components only record history (which value claimed a ticket, what was accepted so
far); no step depends on them. Sequential components are classes with the fields of the source and
a ghost history or snapshot, and their methods are proved against functions on that history.

| file | component | main results |
|---|---|---|
| `BoundedQueue.dfy` | MPMC queue with tickets, in-order commits and a head compare-and-swap | linearizable to a FIFO queue of at most `size` elements; the k-th dequeue takes ticket k; when a call is refused |
| `TimingWheel.dfy` | two-level timing wheel | the 576 buckets stand for a table of deadlines; a live task is handed out at exactly one Tick, on time exactly outside one window of delays |
| `Timer.dfy` | the periodic callback | per-firing errors telescope; the next delay is exactly the interval less the rounded run time and error, within 1 ms of the ideal schedule, or the shortest one |
| `WakeUp.dfy` | Fill, notify, scan, Resume and the DATA_WAIT loop | no lost wake-up, one runner at a time; a message wakes a parked routine if and only if its callback is registered; exactly when a scan can resume the routine |
| `SchedulerClassic.dfy`, `SchedulerRuns.dfy` | DispatchTask, RemoveCRoutine, NextRoutine, Processor::Run | registered if and only if queued, where the configuration says; never resumed twice; gone after removal; exactly when a removed coroutine's code is still entered |
| `SchedulerScans.dfy`, `SchedulerLocks.dfy`, `SchedulerCalls.dfy` | what NextRoutine returns, who holds which lock, calls that run alone | every queue is scanned, from the highest priority down, and the first free READY coroutine is returned; no lock is forgotten; what dispatch and removal have done when they return |
| `RecordReader.dfy`, `RecordViewer.dfy` | chunk-skipping reader, windowed merge | a viewer shows exactly the selected messages, by ascending times, equal times in the order of the files |
| `RecordFileWriter.dfy`, `RecordFileOrder.dfy`, `RecordFileIndex.dfy`, `RecordRoundTrip.dfy` | double-buffered record writer and its index; writing, viewing and asking together | conservation, counts and index after Close, exactly when order and header are right, the round trips |
| `AsyncLogger.dfy` | double-buffered logger | conservation in order, what is accepted, what Flush guarantees, empty when Stop returns |
| `ObjectPool.dfy` | tagged lock-free free list | every node in one place, true successors in spite of ABA |
| `AtomicHashMap.dfy` | insert-only bucket lists | linearizable to a map; lists sorted and only growing |
| `DataChannel.dfy`, `FusionRuns.dfy` | CacheBuffer, ChannelBuffer, DataVisitor, AllLatest | ring and fusion agree with the full fill history; what a fused tuple holds when the channels are filled meanwhile |
| `ConditionNotifier.dfy` | shared-memory notification ring | a listener returns exactly the claimed records, in order; the exact conditions for a record to be right and for a listener to go on |
| `LockWord.dfy`, `AtomicRwLock.dfy`, `Segment.dfy` | AtomicRWLock, Block, the writable-block search | the lock word tells who is inside; writers come first; acquired blocks are exclusive; where the search goes and when a reader gives up |
| `RingIndex.dfy`, `Options.dfy` | ring arithmetic, optional values | helpers |

## What the code does that its own documentation or a reader might not expect

* `BoundedQueue::Enqueue` may refuse a queue that is not full, even an empty one, when the tail it
  compares was loaded earlier (`EmptyQueueCanRefuse`); a refusal is right exactly when the tail has
  since moved by a multiple of the pool size (`RefusalIsRightIff`).
* `TimingWheel::AddTask` tests `real != current` where it could test `real < current`: a delay d
  with 512 < d and cursor + d < 1024 fires 512 ms early (`OnTimeIff`, `AddedTaskIsHandedOut`).
* `Scheduler::CreateTask` dispatches the routine before it registers the notify callback: a
  message filled in between leaves the routine waiting until the next message
  (`DispatchWakesIff`, `MessageBeforeRegistrationIsStranded`).
* `RecordFileWriter` may swap its chunks again before the flush thread has written the first one.
  No message is lost, but when no write fails and no message is given twice, the messages then
  never are in their order in the file (`OrderIffNotOvertaken`). The file header takes its begin
  time from the first written chunk and its end time from the last one, so for strictly ascending
  nonzero times it covers the messages exactly when these chunks hold the first and the last message
  (`HeaderIff`); it may even end before it begins (`OvertakingSpoilsTheHeader`), and a viewer of that
  file alone then has an empty range. Without size and interval limits no swap overtakes
  (`NoLimitsNoOvertaking`).
* `ConditionNotifier`'s slots start with the number 0, which is also the first sequence number: a
  listener that starts at 0 may return slot 0 before anything was written to it
  (`ZeroIsReadTooEarly`, `RecordZeroIff`). The damage does not end there. While Notify number 0 is
  still stalled, the ring may come around, and its late write then spoils the record of number
  `size`, or of a later multiple (`StalledZeroSpoilsSize`); all other records are right
  (`LaterRecordsAreRight`). After such a late write, or after an overrun, the slot may show another
  number for good, and then the listener never returns a record again (`ReturnsMoreIff`).
* `AllLatest` takes the mutexes of the secondary channels one after the other: a fused tuple may
  have been the newest set of messages at no instant at all (`MixedTuple`).
* The comment of `AsyncLogger` says that writers block when the buffers are full; the code drops
  their messages.
* `CRoutine::Resume` looks at the stop flag before it enters the coroutine, and no lock keeps a
  removal away in between: the code of a coroutine may be entered once more after it was
  unregistered (`EnteredAfterUnregister`), exactly when a processor had passed that look by then
  (`EnteredAfterUnregisterIff`). RemoveCRoutine waits for it before it erases the queue entry.
* `CRoutine::Stop` is never undone: from the erase on, the code of that coroutine object is not
  entered again, not even after another dispatch (`ErasedNeverEntered`).

## Model

| member | source | states |
|---|---|---|
| `BoundedQueue.GetIndex` | cyber/base/bounded_queue.h:225-228 | the subtraction form of the index is the remainder, inside the pool |
| `BoundedQueue.StepInv` | cyber/base/bounded_queue.h:107-168 | each step of any thread keeps the inductive invariant: head < commit <= tail <= head + pool_size - 1, in-flight producers hold exactly the tickets commit..tail-1, and every committed slot holds its ticket's value until it is taken |
| `BoundedQueue.StepRefinesQueue` | cyber/base/bounded_queue.h:107-168 | a commit appends to, and a head update removes from, an abstract FIFO queue; refusals and all other steps leave it alone; it never holds more than size elements |
| `BoundedQueue.RunsAreLinearizable` | cyber/base/bounded_queue.h:93-168 | the responses of every run from Init are a legal sequential queue history ending in the abstract contents; what Size() computes when its two loads see one instant is their number and that of the claimed tickets not committed, and at most size |
| `BoundedQueue.KthDequeueTakesTicketK` | cyber/base/bounded_queue.h:107-168 | the k-th successful Dequeue returns the value of the Enqueue that claimed ticket k: FIFO, nothing twice, nothing overwritten before it is read |
| `BoundedQueue.EachCallIsAnsweredOnce` | cyber/base/bounded_queue.h:107-168 | a call keeps its value through all retries: it is what its ticket is claimed with and what it has enqueued when it returns; nothing else is ever claimed, and no other thread moves |
| `BoundedQueue.RefusedIff` | cyber/base/bounded_queue.h:111-119 | each attempt of an Enqueue works with a current tail, and it reports a full queue if and only if, as it loaded the head, the slot behind that tail was the head's |
| `BoundedQueue.EmptyIff` | cyber/base/bounded_queue.h:157-166 | each attempt of a Dequeue works with a current head, and it reports an empty queue if and only if, as it loaded the commit counter, nothing was committed behind that head |
| `BoundedQueue.EnqueueAloneSteps` | cyber/base/bounded_queue.h:108-129 | with room and nothing in flight an Enqueue that runs alone appends its value |
| `BoundedQueue.DequeueAloneSteps` | cyber/base/bounded_queue.h:155-168 | a Dequeue that runs alone on a queue with committed elements takes the first of them |
| `BoundedQueue.CurrentTailFullTest` | cyber/base/bounded_queue.h:113-116 | with a current tail the modulo comparison is true if and only if size elements are held or claimed |
| `BoundedQueue.RefusalIsRightIff` | cyber/base/bounded_queue.h:111-119 | a refusal with an earlier loaded tail is right if and only if the tail has moved by a multiple of the pool size since |
| `BoundedQueue.EmptyQueueCanRefuse` | cyber/base/bounded_queue.h:111-116 | a run in which Enqueue reports full although the queue is empty |
| `BoundedQueue.CommitNeverStuck` | cyber/base/bounded_queue.h:121-126 | while a claimed ticket is not committed there is a unique thread entitled to commit next, and it does so within two of its own steps |
| `TimerTasks.RoundToMs` | cyber/timer/timer.cc:75-81 | llround of nanoseconds over a million is the nearest whole number of milliseconds, and of two equally near ones the one farther from zero |
| `TimerTasks.TimerTask.Fire` | cyber/timer/timer.cc:67-112 | the callback's in-place update of error, last start and next delay is the function Fired of the old fields, with a delay of at least 1 ms |
| `TimerTasks.InitTimerTask` | cyber/timer/timer.cc:49-62 | a task exists exactly for periods from 1 to 32767 ms and starts with that delay and no error |
| `TimerTasks.ErrorTelescopes` | cyber/timer/timer.cc:82-91 | after n firings the accumulated error is start_n - start_1 - (n - 1) * interval |
| `TimerTasks.NextDelayIs` | cyber/timer/timer.cc:75-112 | after n firings the next delay is interval - e - a, where e and a are the whole milliseconds nearest to the run time of the callback and to start_n - start_1 - (n - 1) * interval, ties away from zero, if that leaves room, and 1 ms otherwise |
| `TimerTasks.NoDrift` | cyber/timer/timer.cc:92-112 | when room is left, the n-th callback's end plus the next delay is within 1 ms of start_1 + n * interval; otherwise the delay is 1 ms |
| `TimingWheels.MaskIsRemainder` | cyber/timer/timing_wheel.h:65-70 | masking with the wheel size less one is the remainder |
| `TimingWheels.OnTimeIff` | cyber/timer/timing_wheel.cc:75-95 | a task fires after its delay if and only if the delay avoids the early window and fits the wheels; inside the window it fires 512 ticks early |
| `TimingWheels.PlacedOnTime` | cyber/timer/timing_wheel.cc:75-95 | the bucket that AddTask chooses comes around at the promised deadline |
| `TimingWheels.SlotComesAround` | cyber/timer/timing_wheel.cc:86-88 | an assistant slot found by wrapped counting comes around after that many assistant ticks less full turns |
| `TimingWheels.HandedOutOnceAtDeadline` | cyber/timer/timing_wheel.cc:43-124 | over any interleaving of additions, ticks and advances a waiting task that stays alive is handed out once, at its deadline, and by then not before |
| `TimingWheels.NeverHandedOut` | cyber/timer/timing_wheel.cc:43-124 | a task that is not waiting and not added is never handed out |
| `TimingWheels.AddedTaskIsHandedOut` | cyber/timer/timing_wheel.cc:43-124 | for delays from 1 to 32768 a live task is handed out at exactly one Tick: after delay advances, or delay - 512 in the early window |
| `TimingWheels.CurrentBucketIsDueNow` | cyber/timer/timing_wheel.cc:43-63 | in a sound layout the current bucket holds exactly the tasks due now, each once |
| `TimingWheels.NextTickIsSound` | cyber/timer/timing_wheel.cc:116-121 | advancing the cursors past an emptied bucket keeps every task's place fitting its deadline |
| `TimingWheels.TimingWheel.AddTask` | cyber/timer/timing_wheel.cc:69-96 | filing a task in a wheel is Add on the table of deadlines |
| `TimingWheels.TimingWheel.Tick` | cyber/timer/timing_wheel.cc:43-63 | hands out exactly the live tasks due now, each once, and empties the bucket |
| `TimingWheels.AliveKeepsOrder` | cyber/timer/timing_wheel.cc:47-60 | the live tasks of a bucket are handed out in the order in which they stand in it |
| `TimingWheels.TimingWheel.Cascade` | cyber/timer/timing_wheel.cc:98-109 | moves the live tasks of an assistant bucket to work buckets that fit their deadlines and drops all its dead ones, and no others |
| `TimingWheels.TimingWheel.Advance` | cyber/timer/timing_wheel.cc:115-122 | advances time by one tick and changes no deadline of a live task |
| `TimingWheels.TimingWheel.WaitingIsWellTimed` | cyber/timer/timing_wheel.cc:43-124 | in every valid state of the wheels no deadline has been missed, which is what the theorems about runs start from |
| `TimingWheels.TimingWheel.TickFunc` | cyber/timer/timing_wheel.cc:111-124 | round k of the loop hands out exactly the live tasks due k advances after the start |
| `WakeUp.NextInv` | cyber/croutine/croutine.h:52-156 | every step of producers, processors and the routine keeps exclusivity, the match of state and code point, and that nothing is lost |
| `WakeUp.NoLostWakeUp` | cyber/croutine/routine_factory.h:55-67 | in every reachable state with unread data, no notify in flight and no notify missed before registration, the routine is about to fetch or needs only scans to do so, or its handler, which yields in READY when it returns, is not done |
| `WakeUp.NeverRunsTwice` | cyber/croutine/croutine.h:52-58 | at most one processor runs the routine, and it holds the lock flag |
| `WakeUp.ScanResumes` | cyber/scheduler/policy/classic_context.cc:49-79 | from a parked state that will fetch, one scan of a processor alone resumes the routine |
| `WakeUp.ScanResumesIff` | cyber/croutine/croutine.h:140-156 | from any state, an undisturbed scan can resume the routine if and only if its lock flag is clear and it is READY, or sleeps, or waits for data or I/O with an event pending |
| `WakeUp.ScanSteps` | cyber/croutine/croutine.h:140-156 | and every such scan that resumes it has taken the lock flag and, unless the routine slept, the pending event |
| `WakeUp.DispatchSteps` | cyber/scheduler/policy/scheduler_classic.cc:171-191 | one undisturbed Dispatch fills the cache once and sets the update flag if and only if the callback is registered and the routine waits for data or I/O; it changes nothing else |
| `WakeUp.DispatchCanRun` | cyber/data/data_dispatcher.h:92-98 | a Dispatch never has to wait for anybody |
| `WakeUp.DispatchWakesIff` | cyber/data/data_dispatcher.h:92-98 | in every reachable state with the routine parked and no notify in flight, one undisturbed Dispatch ends with unread data, no notify in flight, and a routine that will fetch if and only if the callback was registered |
| `WakeUp.MessageBeforeRegistrationIsStranded` | cyber/scheduler/scheduler.cc:42-67 | a run in which a message filled before the callback is registered leaves the routine waiting with unread data |
| `SchedulerClassic.StepInv` | cyber/scheduler/policy/scheduler_classic.cc:112-255 | every step of dispatch, removal, scan and run keeps the invariant on registry, queues, mutexes, sections and lock flags |
| `SchedulerClassic.PcKept` | cyber/scheduler/policy/scheduler_classic.cc:112-255 | what a thread knows at its point of the code survives the steps of all others |
| `SchedulerRuns.NeverResumedTwice` | cyber/scheduler/processor.cc:86-94 | no coroutine is ever being resumed by two processors |
| `SchedulerRuns.RegisteredIffQueued` | cyber/scheduler/policy/scheduler_classic.cc:112-255 | an id with a free mutex is registered if and only if it has a run-queue entry |
| `SchedulerRuns.EntryIsRegistered` | cyber/scheduler/policy/scheduler_classic.cc:156-165 | that entry is the registered coroutine, at the group and priority it has recorded, below MAX_PRIO |
| `SchedulerRuns.QueuedWhereConfigured` | cyber/scheduler/policy/scheduler_classic.cc:138-154 | in every reachable state an entry stands in its task's configured group at the configured priority, or without configuration in the default group at the priority it was constructed with, and priorities from MAX_PRIO on are lowered to MAX_PRIO - 1 |
| `SchedulerRuns.OneEntry` | cyber/scheduler/policy/scheduler_classic.cc:128-165 | there is never more than one entry with an id, over all queues |
| `SchedulerRuns.OrderIsKept` | cyber/scheduler/policy/scheduler_classic.cc:162-163 | two coroutines that stay in a queue keep their order in it: who came first is looked at first |
| `SchedulerRuns.DispatchAnswers` | cyber/scheduler/policy/scheduler_classic.cc:131-168 | DispatchTask answers true with the coroutine just put into its queue, and false only when its id was registered as it looked |
| `SchedulerCalls.DispatchAlone` | cyber/scheduler/policy/scheduler_classic.cc:112-169 | from any state that lets it in, a dispatch with nobody in the way ends with the coroutine registered and last in the queue of its configured place, and nothing else changed |
| `SchedulerCalls.RemovalAlone` | cyber/scheduler/policy/scheduler_classic.cc:202-255 | from any state of a run that lets it in, a removal with nobody in the way ends with the coroutine stopped, not registered and out of its queue, and nothing else changed |
| `SchedulerLocks.LockedIffThere` | cyber/scheduler/policy/scheduler_classic.cc:112-255 | whatever the others do, a thread holds a coroutine's flag, an id's mutex or a queue's lock exactly while it stands between the points of its code where it takes and frees it |
| `SchedulerScans.ScansEveryQueue` | cyber/scheduler/policy/classic_context.cc:54-79 | a NextRoutine that returns nothing has stood at the end of all MAX_PRIO queues of its group, one after the other, from the highest priority down, whatever the others did |
| `SchedulerScans.NothingReturned` | cyber/scheduler/policy/classic_context.cc:56-75 | as it stood there, it had found every entry of that queue taken or not READY |
| `SchedulerScans.ReturnsTheFirst` | cyber/scheduler/policy/classic_context.cc:54-65 | an undisturbed NextRoutine that returns a coroutine returns one of the highest priority with a free READY entry, no free READY entry stands before it in its queue, and it was free itself and not finished |
| `SchedulerScans.ReturnsNothingOnlyIf` | cyber/scheduler/policy/classic_context.cc:54-79 | an undisturbed NextRoutine returns nothing only if no queue of its group has a free READY entry |
| `SchedulerScans.ScanCanRun` | cyber/scheduler/policy/classic_context.cc:49-79 | from any reachable state with no writer in the queues of its group, a processor can run through NextRoutine alone, and it ends |
| `SchedulerClassic.SearchFinds` | cyber/scheduler/policy/scheduler_classic.cc:238-252 | the search in RemoveCRoutine always finds the unregistered coroutine |
| `SchedulerRuns.RemovalFailsOnlyIfNotRegistered` | cyber/scheduler/policy/scheduler_classic.cc:222-254 | RemoveCRoutine returns false only when the id was not registered as it looked |
| `SchedulerRuns.ErasedIsGone` | cyber/scheduler/policy/scheduler_classic.cc:244-250 | once the entry is erased the coroutine is in no queue and with no processor |
| `SchedulerRuns.RemovedNeverResumed` | cyber/scheduler/policy/scheduler_classic.cc:202-255 | after a removal the coroutine is not resumed again as long as it is not registered again, whatever scans and processors do |
| `SchedulerRuns.StoppedStaysStopped` | cyber/croutine/croutine.h:75-75 | a stop is never undone |
| `SchedulerRuns.FinishedNeverResumed` | cyber/croutine/croutine.cc:73-82 | a FINISHED coroutine is not resumed again |
| `SchedulerRuns.ErasedNeverEntered` | cyber/croutine/croutine.cc:73-92 | from the moment RemoveCRoutine has erased the queue entry the coroutine's code is not entered again, not even after another dispatch |
| `SchedulerRuns.EnteredAfterUnregisterIff` | cyber/croutine/croutine.cc:74-87 | after the unregistration some continuation of the run enters the code, with or without another dispatch, if and only if at the unregistration a processor had already passed the look at the stop flag |
| `SchedulerRuns.EnteredOnceAfterUnregister` | cyber/croutine/croutine.cc:74-87 | after the unregistration the code is entered at most once, by a processor that had passed the look by then |
| `SchedulerRuns.EnteredAfterUnregister` | cyber/scheduler/policy/scheduler_classic.cc:222-234 | a run from the start in which the code is entered after the unregistration |
| `SchedulerRuns.ResumeNeverRefuses` | cyber/croutine/croutine.cc:79-82 | Resume never meets a coroutine that is not READY |
| `RecordReaders.RecordReader.ReadNextChunk` | cyber/record/record_reader.cc:109-173 | skipping chunks that end too early loses nothing from the begin time on, and a stop means that the next message is after the end time |
| `RecordReaders.RecordReader.ReadMessage` | cyber/record/record_reader.cc:72-107 | the answer is the first message left from the begin time on, unless that is after the end time; the recursion terminates |
| `RecordReaders.RecordReader.Reset` | cyber/record/record_reader.cc:57-62 | everything in the file can be read again |
| `RecordReaders.RecordReader.constructor` | cyber/record/record_reader.cc:29-55 | for a complete file, the channels of the reader are those of the index, each with the number of its first entry; otherwise there are none |
| `RecordReaders.RecordReader.HeaderHolds` | cyber/record/record_reader.cc:132-146 | what a chunk header just read says about the chunk behind it |
| `RecordViewers.RecordViewer.FillBuffer` | cyber/record/record_viewer.cc:147-183 | filling moves messages from the files to the buffer and keeps the sequence of what is still to be shown; it fails only when nothing is left; the loops terminate |
| `RecordViewers.RecordViewer.ReadWindow` | cyber/record/record_viewer.cc:163-176 | all messages of one file in the window go into the buffer, and the sequence of what is still to be shown stays the same |
| `RecordViewers.RecordViewer.MoveTo` | cyber/record/record_viewer.cc:178-179 | the next window begins where everything before it has been read |
| `RecordViewers.InsertSorts` | cyber/record/record_viewer.cc:174-174 | inserting into the multimap keeps it ordered by time |
| `RecordViewers.InsertAtTime` | cyber/record/record_viewer.cc:174-174 | it puts a message behind those with the same time and moves no others |
| `RecordViewers.MergedIs` | cyber/record/record_viewer.cc:147-183 | the merge of the files is ascending and has, for each time in the range, the messages of that time file after file, each file's in their order |
| `RecordViewers.KnownByTimes` | cyber/record/record_viewer.cc:174-174 | an ascending sequence is fully determined by its messages of each time |
| `RecordViewers.RecordViewer.FinishReader` | cyber/record/record_viewer.cc:155-161 | a file that ends before the window has nothing left to give |
| `RecordViewers.RecordViewer.Update` | cyber/record/record_viewer.cc:59-74 | the result is the first message on a chosen channel of what is still to be shown, and there is none only when nothing is left |
| `RecordViewers.RecordViewer.UpdateTime` | cyber/record/record_viewer.cc:119-145 | the range is cut to the smallest begin and the largest end of the valid headers |
| `RecordViewers.EndsAreHeld` | cyber/record/record_viewer.cc:119-145 | both ends of that range are in the header of some valid file, when there is one |
| `RecordViewers.ClippingLosesNothing` | cyber/record/record_viewer.cc:119-145 | no message of an accurate file lies outside that range |
| `RecordViewers.RecordViewer.Reset` | cyber/record/record_viewer.cc:110-117 | the viewer has again everything in its range to show |
| `RecordViewers.RecordViewer.Iterate` | cyber/record/record_viewer.cc:185-212 | iterating yields exactly the chosen messages of the merge of the files in the viewer's range, in that order |
| `RecordViewers.View` | cyber/record/record_viewer.cc:39-212 | for files with ascending times and accurate headers, viewing yields exactly the messages on the requested channels in the requested range, with ascending times, and those of one time file after file in the order in which each file holds them |
| `RecordFileWriters.AddKeeps` | cyber/record/file/record_file_writer.h:55-70 | a chunk's header counts its messages and their bytes and, for nonzero times, bounds them tightly |
| `RecordFileWriters.NextInv` | cyber/record/file/record_file_writer.cc:56-232 | every step of client and flush thread keeps the ledger of messages, the counts, the sections and the header times |
| `RecordFileWriters.ClosedFileHolds` | cyber/record/file/record_file_writer.cc:185-232 | after Close every message is in the file or in a chunk that could not be written, as multisets; all are in the file if and only if no chunk was lost |
| `RecordFileWriters.ClosedFileCounts` | cyber/record/file/record_file_writer.cc:109-183 | without failed writes the closed header is complete and counts all messages and chunks |
| `RecordFileIndex.ClosedFileIndex` | cyber/record/file/record_file_writer.cc:109-183 | without failed writes the closed file ends with an index that has one entry for each section before it, in their order: for a channel its name and the number of messages given on it, for a chunk header its times and counts, for a chunk body its number of messages; the channel sections are those written, and the header counts them |
| `RecordFileIndex.ReaderKnowsChannels` | cyber/record/record_reader.cc:38-53 | a reader of that file finds in the index exactly the channels written, with the numbers of messages given on them |
| `RecordFileWriters.MessageNumberIsRight` | cyber/record/file/record_file_writer.cc:234-241 | in every reachable state the writer's GetMessageNumber is the number of messages given on the channel |
| `RecordFileWriters.HandsOverIff` | cyber/record/file/record_file_writer.cc:194-212 | WriteMessage swaps the chunks if and only if the messages of the active one span more than the configured interval or hold more bytes than the configured size |
| `RecordFileWriters.CloseCanEnd` | cyber/record/file/record_file_writer.cc:57-97 | from any reachable state between two calls of WriteMessage some continuation closes the file without any further failure: Close cannot be stuck |
| `RecordFileWriters.ClosedFileKeepsOrder` | cyber/record/file/record_file_writer.cc:185-232 | without failed writes and overtaking swaps the file holds the messages, equal ones included, in the order given |
| `RecordFileOrder.OrderIffNotOvertaken` | cyber/record/file/record_file_writer.cc:185-232 | without failed writes a closed file holds distinct messages in the order given if and only if no swap overtook the flush thread |
| `RecordFileOrder.NoLimitsNoOvertaking` | cyber/record/file/record_file_writer.cc:185-212 | with neither a chunk size nor an interval configured no swap ever overtakes |
| `RecordFileWriters.ClosedFileIsAccurate` | cyber/record/file/record_file_writer.cc:149-183 | then, for ascending nonzero times, equal ones included, chunk and file headers are accurate |
| `RecordFileOrder.HeaderIff` | cyber/record/file/record_file_writer.cc:149-183 | for strictly ascending nonzero times and no failed write the chunk headers are accurate, and the file header covers all messages if and only if the first chunk written holds the first message given and the last one written the last message |
| `RecordFileWriters.ActiveChunkIsBounded` | cyber/record/file/record_file_writer.cc:194-212 | as long as no swap overtakes, the active chunk is within the configured size and interval between two calls of WriteMessage |
| `RecordFileWriters.OvertakingSpoilsTheHeader` | cyber/record/file/record_file_writer.cc:169-173 | a run without failures, with ascending times, after which the header begins after it ends because a swap overtook the flush thread |
| `RecordRoundTrip.ClosedFileIsReadable` | cyber/record/file/record_file_writer.cc:56-97 | a file so closed is what the reader needs and holds the messages given |
| `RecordRoundTrip.WriteThenView` | cyber/record/record_viewer.cc:39-212 | writing and then viewing gives back exactly the messages given, filtered by channel and time, in the order in which they were given |
| `RecordRoundTrip.WriteThenAsk` | cyber/record/record_reader.cc:29-70 | opening a file that was closed without a failed write lists the channels written and tells for each how many messages were given on it |
| `AsyncLogger.ThreadServes` | cyber/logger/async_logger.cc:110-125 | no step of the logger thread drops what a pending Flush relies on: its messages are in the files, on their way there in a buffer to be flushed, or in an active buffer with its flag set; that the thread makes progress is not claimed |
| `AsyncLogger.NothingIsLost` | cyber/logger/async_logger.cc:66-175 | accepted messages are always forwarded ++ flushing but not yet forwarded ++ active, in order |
| `AsyncLogger.AcceptedIff` | cyber/logger/async_logger.cc:66-108 | a message is accepted, with its time, text and level, if and only if the logger runs and the records in the active buffer take at most half of the space; only then may it set the flush flag |
| `AsyncLogger.LevelOf` | cyber/logger/async_logger.cc:80-105 | the level is the place of the first character in IWEF, and -1 without such a character |
| `AsyncLogger.FlushDelivers` | cyber/logger/async_logger.cc:110-125 | a Flush that returns while the logger runs has every message accepted before it forwarded and flushed |
| `AsyncLogger.TimeoutSyncs` | cyber/logger/async_logger.cc:132-167 | when the wait times out, one undisturbed round brings every accepted message into the files |
| `AsyncLogger.BuffersAreBounded` | cyber/logger/async_logger.cc:177-180 | neither buffer outgrows half of the configured space by more than the record accepted last |
| `AsyncLogger.OneRoundIsNotEnough` | cyber/logger/async_logger.cc:117-120 | a run that shows why Flush waits for two rounds: after one, a message accepted before is not yet forwarded |
| `AsyncLogger.TwoRoundsAreEnough` | cyber/logger/async_logger.cc:117-124 | the same run continued: after the second round the Flush returns |
| `AsyncLogger.StoppedIsDrained` | cyber/logger/async_logger.cc:53-64 | when the thread has ended both buffers are empty and everything accepted was forwarded |
| `AsyncLogger.StopReturnsAtTheEnd` | cyber/logger/async_logger.cc:53-64 | Stop returns only then |
| `ObjectPool.LinkArena` | cyber/base/concurrent_object_pool.h:78-83 | the constructor links all nodes in arena order |
| `ObjectPool.StepInv` | cyber/base/concurrent_object_pool.h:98-155 | every step of pops and pushes keeps the free list acyclic, the ownership of nodes and the counts |
| `ObjectPool.StepRefinesStack` | cyber/base/concurrent_object_pool.h:98-155 | a successful pop or push is one on an abstract stack of free nodes, and an object is handed out to one holder only |
| `ObjectPool.EveryNodeOnce` | cyber/base/concurrent_object_pool.h:98-155 | in every reachable state each node is free, held or with one releasing thread, the list is acyclic, and net is the capacity less the free nodes |
| `ObjectPool.PopInstallsTrueSuccessor` | cyber/base/concurrent_object_pool.h:106-111 | a pop that succeeds installs the current second node, however often the head came back in between |
| `ObjectPool.EachCallIsAnsweredOnce` | cyber/base/concurrent_object_pool.h:98-155 | a ReleaseObject puts back the node it was called with, however often it has to try, and each call is answered once |
| `ObjectPool.EachAttemptSeesTheHead` | cyber/base/concurrent_object_pool.h:101-112 | each attempt works with the head as it was when the attempt began, and a pop gives up only when that was empty |
| `ObjectPool.PopAlone` | cyber/base/concurrent_object_pool.h:98-114 | an undisturbed pop gets the first free node |
| `ObjectPool.PushAlone` | cyber/base/concurrent_object_pool.h:142-155 | an undisturbed release puts its node in front of the list |
| `AtomicHashMap.MaskIsRemainder` | cyber/base/atomic_hash_map.h:46-79 | key & 127 is the remainder modulo 128 |
| `AtomicHashMap.StepInv` | cyber/base/atomic_hash_map.h:112-249 | every step of Has, Get and Set keeps the lists: each next pointer leads to the next larger key of its bucket, no key twice |
| `AtomicHashMap.LinkNext` | cyber/base/atomic_hash_map.h:143-150 | linking a new entry behind prev leaves every next pointer at the next larger key |
| `AtomicHashMap.StepChangesLookup` | cyber/base/atomic_hash_map.h:125-154 | a lookup changes only at the successful compare-and-swap of a Set, and to the value set |
| `AtomicHashMap.AnswersAreRight` | cyber/base/atomic_hash_map.h:112-123 | Has and Get answer what the map holds at their last load; a miss is right at the last load of a next pointer |
| `AtomicHashMap.EachCallIsAnsweredOnce` | cyber/base/atomic_hash_map.h:112-249 | a call takes effect at exactly one of its own steps, with its own key and value |
| `AtomicHashMap.RunsAreLinearizable` | cyber/base/atomic_hash_map.h:112-249 | in every run each answer is the one that the Sets finished before give for its key |
| `AtomicHashMap.LookupIsLastSet` | cyber/base/atomic_hash_map.h:125-154 | a lookup always gives the value of the last finished Set of the key |
| `AtomicHashMap.ListFrom` | cyber/base/atomic_hash_map.h:229-249 | every bucket list is finite and strictly ascending and holds exactly the linked entries of its bucket |
| `AtomicHashMap.ListsOnlyGrow` | cyber/base/atomic_hash_map.h:125-154 | entries are never taken off a list and keys never change |
| `AtomicHashMap.CallEndsAlone` | cyber/base/atomic_hash_map.h:112-249 | from any reachable state a call that goes on alone comes to its answer |
| `DataChannel.CacheBuffer.At` | cyber/data/cache_buffer.h:49-60 | a cached position reads back the value of that Fill |
| `DataChannel.CacheBuffer.Fill` | cyber/data/cache_buffer.h:67-80 | the ring keeps holding the last values of the history, each at its position |
| `DataChannel.ChannelBuffer.Fetch` | cyber/data/channel_buffer.h:64-85 | a fetch reads the history at FetchPosition of the cursor, the fill count and the size; with the cursor 0 it reads the newest value |
| `DataChannel.ChannelBuffer.Latest` | cyber/data/channel_buffer.h:87-96 | the newest value of the history, if there is one |
| `DataChannel.ChannelBuffer.FetchMulti` | cyber/data/channel_buffer.h:98-113 | appends the newest cached values, oldest first, as many as asked for |
| `DataChannel.DataVisitor.TryFetch` | cyber/data/data_visitor.h:183-189 | refines one fetch step of the visitor on the history, and the cursor stays within one past the newest value; the first fetch returns the last value of the history |
| `DataChannel.FetchesIncrease` | cyber/data/data_visitor.h:183-189 | over any interleaving with fills the fetched positions strictly increase, the cursor is one past the last of them, and the fill count is the number of fills |
| `DataChannel.FirstFetchIsNewest` | cyber/data/channel_buffer.h:72-73 | over any run a visitor's first successful fetch returns the newest position, whatever else is cached |
| `DataChannel.NextFetch` | cyber/data/channel_buffer.h:72-84 | a later fetch returns the next position, or the newest one exactly when the next has left the cache |
| `DataChannel.FetchFailsIff` | cyber/data/channel_buffer.h:68-76 | a fetch fails if and only if nothing was filled or everything was passed |
| `DataChannel.NothingSkipped` | cyber/data/channel_buffer.h:64-85 | a visitor that never falls behind the cache sees every value from its first one on |
| `DataChannel.AllLatest.FillPrimary` | cyber/data/fusion/all_latest.h:55-67 | a primary arrival extends the fused history as the callback says |
| `DataChannel.AllLatest.FillSecondary` | cyber/data/cache_buffer.h:67-80 | a secondary arrival extends its own history only |
| `DataChannel.AllLatest.Fusion` | cyber/data/fusion/all_latest.h:70-81 | a fusing fetch returns the tuple at the fetched position of the fused history |
| `DataChannel.LastOfHistoryIsLatest` | cyber/data/channel_buffer.h:87-96 | the newest value of a channel is the one whose arrival no other of that channel follows |
| `DataChannel.InstantsAreTheFusingOnes` | cyber/data/fusion/all_latest.h:60-63 | the fused positions belong, in order, to exactly the primary arrivals at which all secondary channels had messages |
| `DataChannel.FusionAgreesWithHistory` | cyber/data/fusion/all_latest.h:55-67 | fused position k is the primary message of the k-th such instant with the newest secondary messages at that instant |
| `FusionRuns.EachWasNewest` | cyber/data/fusion/all_latest.h:55-67 | with the secondary channels filled at any time, each secondary message of a fused tuple was the newest of its channel at some instant inside the primary Fill, in the order of the channels; the tuples belong to different primary messages, in their order, and their Fills do not overlap |
| `FusionRuns.QuietIsOneInstant` | cyber/data/fusion/all_latest.h:55-67 | if the first two secondary channels get nothing between their look and the last one, the tuple is what the callback fuses at the instant of the last look |
| `FusionRuns.DroppedOnlyIfMissing` | cyber/data/fusion/all_latest.h:60-63 | a primary message is dropped only if some secondary channel had no message when its Fill began |
| `FusionRuns.MixedTuple` | cyber/data/fusion/all_latest.h:55-67 | a run whose fused tuple was the newest set of messages at no instant |
| `ConditionNotifier.NotifyInv` | cyber/transport/shm/condition_notifier.cc:57-69 | claiming, writing the record and writing the number keep the ring and the window of every listener |
| `ConditionNotifier.ListenStepInv` | cyber/transport/shm/condition_notifier.cc:83-94 | so do the steps of a listener |
| `ConditionNotifier.ReturnsTheClaims` | cyber/transport/shm/condition_notifier.cc:57-104 | a listener attached at any number with no Notify under way, never overrun and never early, has returned exactly the records of the claimed numbers, in order |
| `ConditionNotifier.EarlyOnlyFromZero` | cyber/transport/shm/condition_notifier.h:34-38 | only a listener attached at number 0 can be early |
| `ConditionNotifier.LaterRecordsAreRight` | cyber/transport/shm/condition_notifier.cc:57-104 | early or not, the record returned for each number from 1 on is the claimed one, unless Notify number 0 stalled for a whole turn of the ring and the number is a multiple of the ring's size |
| `ConditionNotifier.RecordsBelowSizeAreRight` | cyber/transport/shm/condition_notifier.cc:57-104 | for a listener attached at 0 the records of the numbers 1 to size - 1 are always the claimed ones |
| `ConditionNotifier.RecordIff` | cyber/transport/shm/condition_notifier.cc:61-66 | for any listener, overrun or not: a returned record is the claimed one if and only if the write to its slot that was the last when it was copied was that number's, or wrote an equal record |
| `ConditionNotifier.RecordZeroIff` | cyber/transport/shm/condition_notifier.h:34-38 | the record returned for number 0 is right if and only if its Notify had written slot 0 when it was copied, or the zeroed record is equal to the one it would have written |
| `ConditionNotifier.ReturnsMoreIff` | cyber/transport/shm/condition_notifier.cc:84-94 | for any listener that is not copying and whose next number is claimed and its Notify done: some continuation of the run returns another record if and only if the slot shows that number |
| `ConditionNotifier.SeesWhatIsDone` | cyber/transport/shm/condition_notifier.cc:84-90 | a listener that keeps up sees its next number as soon as its Notify is done; an early one may miss only what LaterRecordsAreRight excepts |
| `ConditionNotifier.ZeroIsReadTooEarly` | cyber/transport/shm/condition_notifier.h:34-38 | a run in which a listener returns a record for number 0 that no Notify wrote |
| `ConditionNotifier.StalledZeroSpoilsSize` | cyber/transport/shm/condition_notifier.cc:63-66 | for every ring size a run in which a listener that keeps up returns for number `size` the record of number 0 |
| `LockWord.TakeKeeps` | cyber/base/atomic_rw_lock.h:73-98 | a successful compare-and-swap keeps the word the count of its holders |
| `LockWord.ReleaseKeeps` | cyber/base/atomic_rw_lock.h:110-112 | so do the releases |
| `AtomicRwLock.WordTellsHolders` | cyber/base/atomic_rw_lock.h:60-112 | in every reachable state the word is -1 if and only if exactly one writer is inside, with no reader, and otherwise the number of readers |
| `AtomicRwLock.WaitingCounts` | cyber/base/atomic_rw_lock.h:92-106 | in every reachable state the counter of waiting writers is the number of threads inside WriteLock |
| `AtomicRwLock.WritersComeFirst` | cyber/base/atomic_rw_lock.h:63-76 | with write_first, while some writer waits no reader comes in but those that had decided before the writers came |
| `AtomicRwLock.DecidesOnTheCurrentWord` | cyber/base/atomic_rw_lock.h:65-76 | each attempt to read works with the lock word of the moment in which the reader decided |
| `AtomicRwLock.ReadsAlone` | cyber/base/atomic_rw_lock.h:60-90 | with no writer inside, and with write_first none waiting, an undisturbed reader comes in |
| `AtomicRwLock.WritesAlone` | cyber/base/atomic_rw_lock.h:92-108 | a free lock lets an undisturbed writer in |
| `Segment.MaskIsRemainder` | cyber/transport/shm/segment.cc:364-368 | for all configured block numbers the mask gives the remainder |
| `Segment.Masked` | cyber/transport/shm/segment.cc:366-368 | the index that is probed is in range |
| `Segment.WordTellsHolders` | cyber/transport/shm/block.cc:33-73 | in every reachable state each block's word tells its one writer or its number of readers |
| `Segment.AcquiredIsExclusive` | cyber/transport/shm/segment.cc:361-377 | the index that GetNextWritableBlockIndex returns is in range, and nobody else reads or writes that block until it is released |
| `Segment.WroteNumCounts` | cyber/transport/shm/segment.cc:371-372 | in every reachable state wrote_num is the number of blocks acquired for writing so far, in 32 bits |
| `Segment.ProbesInTurn` | cyber/transport/shm/segment.cc:361-377 | the search begins at the block that wrote_num names and goes round the blocks one by one; it locks none that is not free |
| `Segment.SearchAlone` | cyber/transport/shm/segment.cc:361-377 | undisturbed, the search locks the first free block from there on |
| `Segment.GivesUpOnWriter` | cyber/transport/shm/block.cc:45-49 | a reader gives up at its look at the lock word if and only if the block is being written |
| `Segment.GivesUpOnlyAfterFive` | cyber/transport/shm/block.cc:51-68 | a reader that gives up has found the block being written or has made exactly five attempts |
| `Segment.ReadAlone` | cyber/transport/shm/block.cc:44-71 | undisturbed, a reader of a block that nobody writes gets it with its first attempt |

## Left out

- Wrap-around of 64-bit counters and times: queue tickets, pool update counts, sequence numbers, flush counts and nanoseconds are unbounded. Lock words do not overflow 32 bits.
- Weak memory orders: all accesses are sequentially consistent.
- Liveness of waiting on condition variables, and termination of retry loops under contention.
- Heap reclamation, in particular the value pointer that `AtomicHashMap::Get` returns and a concurrent `Set` may free; a reused value cell is modelled as a compare-and-swap that succeeds.
- AddTask calls that are cut by the timer thread: one atomic method each are AddTask, a Tick, and a cursor advance with its cascade. In the code AddTask loads the cursor before it files the task, with no lock around both; a task with delay 1 that is filed only after an advance and the Tick behind it is handed out a whole turn of the work wheel late. A call may also land between the updates of the two cursors.
- `Size()` of BoundedQueue loads the tail and the head one after the other; while others move them its result may lie outside of 0 to size.
- The hand-off of the callback to a coroutine.
- Rounding of doubles in the timer: quotients are exact before they are rounded to milliseconds.
- The transition systems are predicates on values, not mutable objects: a step relates two states, and aliasing between the shared structures and other memory is not modelled.
- `UpdateState` inside SchedulerClassic may turn any waiting state into READY; which notify does so is the subject of WakeUp, which follows one routine without removal.
- Data dispatch to several buffers and notifiers: WakeUp follows one buffer and one notifier, so that Dispatch is one Fill and one Notify; fetches that fuse several channels are covered by the fusion results only.
- `AllLatest` with fewer than three secondary channels: the same callback with fewer Latest calls.
- `RecordViewer::Init` sorts the readers by the times of their headers: the sequence of readers in the model is the sorted one. A reader given twice is not modelled.
- Times within one second of 2^64 ns, where the window arithmetic of the viewer would wrap.
- Record files as bytes: sections are typed values, damaged sections are not modelled, and `flush_mode_` is ignored. Of the index, the entries are modelled and the positions are not.
- File offsets and section sizes in the record index, message types and descriptors of channels, the viewer's own channel list; segmentation of record files by RecordWriter; a Close concurrent with WriteMessage.
- `FindModuleName` removes a module tag from the forwarded log text and chooses the log file: the forwarded sequence is over all files, with the text unchanged. A log file may flush by itself for messages above level 0; `synced` knows only the flushes of the rounds.
- Shared-memory creation, remapping and recreation of segments.
- Copies that tear: a notification record and an element of BoundedQueue (plain assignments of T, of which a slow Dequeue's may overlap the Enqueue that reuses the slot) are each read or written in one step.
- `TaskManager`, `SchedulerChoreography`, `UnboundedQueue`, `ReentrantRWLock`, `Rate`, `Duration`, `Time`, parameter and topology services, RTPS, poller and sessions: other components or plain plumbing.
- `ClassicContext`'s sleep bookkeeping, and the shutdown flags of scheduler, logger files and notifier.
- TimingWheels.TimingWheel.AddTask: requires a task that is not waiting in a wheel and a delay of at least 1 ms; the timer adds a task only when it starts or has fired, with a delay of at least 1 ms.
- DataChannel.AllLatest.FillPrimary: takes the three Latest calls as one step, without Fills of the secondary channels between them; FusionRuns covers these.
- DataChannel.AllLatest.Fusion: requires a cursor of at most one past the newest fused position, for with a larger one the code may take the tuple of an empty slot apart.
- RecordReaders.RecordReader.ReadNextChunk: as ReadMessage, for accurate headers only.
- RecordReaders.RecordReader.Reset: the object's validity, which it establishes, includes accurate headers; that the position goes back to the start does not depend on them.
- RecordReaders.RecordReader.ReadMessage: states its answer for files with accurate chunk and file headers only; with inaccurate ones the code skips or stops by what the headers say.
- DataChannel.DataVisitor.TryFetch: requires a cursor of at most one past the newest value, which FetchesIncrease shows for every run that starts with a fresh visitor.
- RecordViewers.View: needs ascending times and accurate headers in every file, as RecordFileWriters.ClosedFileIsAccurate gives them.
