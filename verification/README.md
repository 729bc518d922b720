# Verified model of the durable task queue

The queue keeps its state in memory and every logged operation in a write-ahead log, appended before memory changes.
This project models both and proves that they describe the same queue, through every interleaving, batching and crash.

The layers, bottom up:

- **Bytes.** `ByteStrings`, `Codec` (record.go) and `Framing` (wal.go): record bodies and frames as printer and parser
  pairs over unbounded byte strings. The checksum is a parameter: every result holds for any function from bytes to 32 bits.
- **Writer.** `GroupCommit` is the writer goroutine as a state machine over one request FIFO; `WalFile` is the same code
  as a class with its loops.
- **Heap.** `ReadyHeap` gives push, pop and init on a sequence; `TaskHeap` does them in place on task objects.
- **Queue.** `LiveQueue` says what each live operation does to memory, `Replay` what `applyRecord` does, and both what is
  durable: the live and dead tasks with their payloads, retry counts and failure times, and the key bindings.
  `Outcomes` says the same of live operations field by field, as their callers see it.
  `QueueObject` is queue.go as a class with task pointers, proved against those functions.
- **Runs.** `Machine` interleaves any number of Enqueue callers (check, send, commit), one operation that holds the
  mutex while it waits for the disk, Dequeue, the writer's steps and crashes. `Agreement`, `CrashSafety`, `Answers`,
  `Durability`, `Conservation`, `Dedup`, `Accounting`, `LeaseDiscipline`, `Leases`, `BoundedWork`, `Sweep`, `KeyOrder`,
  `KeyRace`, `Lives`, `Reopening`, `Submissions`, `Statuses`, `Order` and `RecoveryOrder` are the theorems about its
  runs; `Reachable` states them for every run from an empty log.
- **Load test.** `EffectLedger` (store.go), `Workload` (workload.go as clients of the machine) and `Drain` (its inner
  loop over the objects).

## Findings

- **Two concurrent Enqueues with one key can make the log unreadable.** Memory keeps the caller that retakes the lock
  first, replay keeps the record that comes first. When these differ, the next Retry of the live task writes a record
  that replay dereferences without its task. `KeyRace.RaceBreaksRecovery` builds such a run from every quiet state;
  `KeyOrder.AgreesIffInOrder` gives the exact condition under which log and memory agree,
  `Lives.OpensIffNoShadowUsed` the exact condition under which the file opens, in every run, and
  `KeyOrder.OnePerKeyIsInOrder` a discipline that callers can keep.
- **A torn tail is not truncated on reopen.** `Framing.ReopenSafeIffBoundary`: records appended after a restart are all
  readable if and only if the cut fell between frames. The crash theorem is therefore stated for one recovery at any
  byte, and for any number of restarts at frame boundaries.
- **Opening the file does not sync it.** A process restart reads back bytes that a later power loss can still take away;
  an Enqueue answered from them on the fast path is then forgotten, and its task lost (`Reopening.UnsyncedStartForgets`).
  A crash cannot do that if and only if those bytes have been synced (`GroupCommit.CrashKeepsSettledIffFirm`), which the
  first sync after the start does. What was answered after an append is never lost (`Answers.ReturnedSurvives`), and
  agreement, crash safety and accounting hold without this condition; conservation and deduplication across restarts are
  stated with it.
- **An append error must stop the process.** A refused operation leaves memory and file in agreement if and only if its
  frame did not go out whole (`Durability.RefusedHarmlessIffTorn`), and later records are all readable if and only if it
  left no part of a frame (`WalFile.GoesOnIffClean`), so only a frame of which nothing was written is harmless.
  `WalFile.SyncedButUnreadable` is a record answered nil and synced that is never read, and
  `KeyRace.RefusedEnqueueSplits` shows that repeating a refused Enqueue does not deduplicate.
- **Ack and Retry trust their caller.** Called on a task that is ready and not leased, they leave a stale or duplicate
  heap entry; `LeaseDiscipline.PartitionIffLeased` says that this is the only way to break the partition through them.
  A Retry of the ready root also moves its time in place, and Dequeue then hands out nothing although other tasks are
  due, unless the new time has come (`LeaseDiscipline.RetryOfRootStallsDequeue`).
- The repository's README draws `ready` as a FIFO slice; the code is a heap, and the model follows the code.

## Model

| member | source | states |
|---|---|---|
| `ByteStrings.BigEndian` | internal/queue/record.go:79-88 | a length is printed as four bytes, the most significant first |
| `ByteStrings.BigEndian64` | internal/queue/record.go:90-94 | a time is printed as eight bytes in two's complement, the most significant first |
| `Codec.EnqueueFormat` | internal/queue/record.go:71-102 | where each field of an Enqueue record lies on disk |
| `Codec.WireFormat` | internal/queue/record.go:25-33 | the number of every other operation, and where its fields lie on disk |
| `Framing.FrameFormat` | internal/queue/wal.go:188-206 | the length and the checksum, each in four bytes, then the record |
| `Codec.ReadPrefixedSound` | internal/queue/record.go:115-133 | a length-prefixed field that is read is exactly the bytes that would be printed for it, from the position on, and the position advances by them |
| `Codec.DecodeInvertsEncode` | internal/queue/record.go:364-404 | for all seven operations within bounds, decoding an encoded record followed by any suffix gives the record back |
| `Codec.RoundTripIffInBounds` | internal/queue/record.go:71-155 | a record survives encoding and decoding if and only if its lengths, retry count, priority and times fit their fixed-width fields |
| `Codec.EncodeInvertsDecode` | internal/queue/record.go:368-404 | whatever body decodes, re-encoding the result gives a prefix of that body |
| `Codec.StrictPrefixRejected` | internal/queue/record.go:16-21 | every strict prefix of an encoded record is refused with an error |
| `Framing.DecodeFrame` | internal/queue/wal.go:213-240 | an accepted frame consumes exactly its header and its record, so Replay's loop ends |
| `Framing.AnyCutRecovery` | internal/queue/wal.go:157-240 | for every list of records and every byte at which their frames are cut, the reader yields exactly the records whose frames fit before the cut |
| `Framing.WholeFramesFit` | internal/queue/wal.go:168-180 | that number of records is the largest whose frames fit |
| `Framing.ParseInvertsFrames` | internal/queue/wal.go:189-240 | reading what was written gives the records back |
| `Framing.ParseIsMaximalPrefix` | internal/queue/wal.go:168-240 | on arbitrary bytes, the accepted records re-encode to a prefix of the input, and what remains does not start with a valid frame |
| `Framing.ParseAppend` | internal/queue/wal.go:168-184 | reading goes through whole frames whatever follows them |
| `Framing.TornTailHidesLaterFrames` | internal/queue/wal.go:44-44 | frames appended behind a torn frame whose announced length covers them are never read |
| `Framing.ReopenSafeIffBoundary` | internal/queue/wal.go:41-66 | after a cut at any byte, everything appended later is read back if and only if the cut fell between two frames |
| `GroupCommit.StepKeepsInv` | internal/queue/wal.go:74-125 | every receive, write, sync, failure and reply keeps the file equal to the frames in channel order (plus at most one torn frame after a failure) with every answered request inside the synced bytes |
| `GroupCommit.SurvivorsIncludeAnswered` | internal/queue/wal.go:108-123 | whatever the batching, any surviving byte prefix that contains the synced bytes reads back a prefix of the requests that includes every one answered nil |
| `GroupCommit.CrashKeepsSettledIffFirm` | internal/queue/wal.go:41-66 | since opening syncs nothing: no crash can take back what this start has read if and only if those bytes have been synced |
| `Agreement.FirmStays` | internal/queue/wal.go:108-111 | only a restart leaves such bytes unsynced, and the first sync after it covers them |
| `GroupCommit.RefusedIsReadBackIffWhole` | internal/queue/wal.go:92-123 | after a failed write or sync, a request of the refused batch is read back if and only if its frame went out whole |
| `WalFile.Wal.WriteBatch` | internal/queue/wal.go:92-111 | all frames in order and one sync, or an error with a prefix of them in the file and nothing newly synced; it fails only if one of those calls did, and stops there |
| `WalFile.Wal.Run` | internal/queue/wal.go:74-125 | for every cut of the requests into batches, one reply per request, nil exactly if every write and the sync of its batch succeeded; a nil reply means the whole frame lies in the synced bytes; the batches account for every request, reply and byte, also after errors |
| `WalFile.GoesOnIffClean` | internal/queue/wal.go:93-120 | the reader yields the whole frames and everything appended later if and only if no failed batch left part of a frame behind |
| `WalFile.SyncedButUnreadable` | internal/queue/wal.go:100-123 | a torn header followed by a successful batch: the second record is answered nil and synced, and the reader yields nothing |
| `WalFile.Wal.Append` | internal/queue/wal.go:129-139 | nil exactly if the write and the sync succeeded, and then the frame is appended and synced; an error leaves any part of it, the whole included, and nothing newly synced |
| `WalFile.Wal.Replay` | internal/queue/wal.go:157-186 | the loop hands over exactly the parsed records, in order |
| `ReadyHeap.PushKeepsHeap` | internal/queue/heap.go:17-26 | push keeps heap order under Less and adds exactly the new element |
| `ReadyHeap.PopKeepsHeap` | internal/queue/heap.go:17-35 | pop keeps heap order and removes exactly the root |
| `ReadyHeap.InitBuildsHeap` | internal/queue/queue.go:73-75 | init turns any listing into a heap of the same elements |
| `ReadyHeap.RootIsMinimum` | internal/queue/heap.go:3-12 | no element of a heap precedes its root |
| `TaskHeap.Heap.Push` | internal/queue/heap.go:24-26 | the in-place push rearranges the task pointers as the sequence-level one does |
| `TaskHeap.Heap.Pop` | internal/queue/heap.go:24-35 | the in-place pop returns the root and leaves the rest as the sequence-level one does |
| `TaskHeap.Heap.Init` | internal/queue/queue.go:75-75 | the in-place heapify, likewise |
| `Outcomes.OpIsDone` | internal/queue/queue.go:307-394 | field by field, what Ack, Retry, death, RequeueDead and PurgeDeadTask have done to their task, and that nothing else changed |
| `Outcomes.FinishDoes` | internal/queue/queue.go:307-507 | the same of the step of every run in which such an operation gets its reply |
| `Outcomes.DequeueDelivers` | internal/queue/queue.go:297-303 | field by field, what Dequeue does to the task it hands out |
| `Outcomes.CommitCreates` | internal/queue/queue.go:234-279 | the task an Enqueue creates carries the caller's payload and key and the time, has no history, and its ID is returned, for the empty key as well |
| `Submissions.SubmissionIsKept` | internal/queue/queue.go:234-250 | in every run, restarts included, wherever an ID appears it stands for the payload, key and time its caller submitted |
| `Submissions.EnqueueGivesBack` | internal/queue/queue.go:224-280 | in every crash-free run a call that returns gives the ID of its own task, which is there as submitted, or, for a non-empty key only, the ID its key was bound to |
| `Statuses.StatusesAgree` | internal/queue/queue.go:297-303 | in every disciplined run, restarts included, a task's status says where the queue has it |
| `Replay.ReplayHasEffect` | internal/queue/queue.go:88-174 | applyRecord changes durable state exactly by the effect of its record, and fails exactly when that effect is undefined |
| `Replay.LiveOpHasEffect` | internal/queue/queue.go:307-394 | Ack, Retry, death, RequeueDead and PurgeDeadTask change durable state exactly by the effect of the record they log |
| `Replay.LiveEnqueueHasEffect` | internal/queue/queue.go:265-279 | so does the commit of an Enqueue |
| `Replay.DequeueIsNotDurable` | internal/queue/queue.go:287-304 | Dequeue, which is not logged, changes nothing durable |
| `Replay.PendingCommutes` | internal/queue/queue.go:257-279 | an operation moves past every enqueue on another ID that is logged but not committed |
| `Replay.CommitFromMiddle` | internal/queue/queue.go:257-279 | committing out of the middle of the pending records leaves the replayed state as it was |
| `Recovery.ReplayRebuilds` | internal/queue/queue.go:88-174 | on every produced log, replay and the fold of record effects agree, failures included, and nothing is in flight |
| `Recovery.RecoveryRedelivers` | internal/queue/queue.go:69-75 | recovery leaves nothing in flight, lists each live task once in a heap, and makes each of them due at once |
| `Machine.EventKeepsInv` | internal/queue/queue.go:224-394 | every step of every run keeps the structural invariants: IDs drawn once, log entries either finished or pending, the holder's record still right |
| `Agreement.EventKeepsAgreement` | internal/queue/queue.go:224-394 | every step except an out-of-order binding commit keeps agreement of log and memory |
| `Agreement.ReplayRefinesLive` | internal/queue/queue.go:88-280 | at every point of every in-order run, replaying the log up to any record not yet answered is defined (no missing task is dereferenced) and gives the live durable state plus exactly the operations pending before it |
| `CrashSafety.AnyCutRecoversLiveState` | internal/queue/queue.go:46-83 | opening any surviving byte prefix that contains the synced bytes succeeds and recovers the effect of a log prefix past every answered record, all live tasks due; when all that was settled is synced, that is the live durable state plus pending operations |
| `CrashSafety.EndToEndCrashSafety` | internal/queue/wal.go:74-186 | the same at the end of every in-order run from an empty log, restarts included |
| `Answers.EventKeepsAnswered` | internal/queue/wal.go:113-139 | every step keeps: who waits for a settled record has been answered |
| `Answers.AnswersStay` | internal/queue/wal.go:108-123 | no step, restarts included, takes an answered record back or changes the log before it |
| `Answers.ReturnedIsAnswered` | internal/queue/queue.go:256-279 | an Enqueue that commits and a logged operation that returns nil have their record among those answered |
| `Answers.ReturnedSurvives` | internal/queue/queue.go:224-394 | an operation that returned success stays returned: after any continuation of the run, restarts included, and any crash, the file opens to the effect of a log prefix that contains its record |
| `Answers.RunReaches` | internal/queue/queue.go:224-394 | the invariants this rests on hold at the end of every in-order run from an empty log |
| `Answers.OneProcessRecovers` | internal/queue/queue.go:46-83 | a process that starts on an empty or synced file and crashes after any in-order run: the next start recovers its live durable state plus exactly the pending operations, past every answered record |
| `Answers.InitialIsFirm` | internal/queue/wal.go:41-66 | the empty file is such a start |
| `CrashSafety.TaskComesBack` | internal/queue/queue.go:307-394 | each task is recovered as memory held it, or as it would had the one operation waiting on it finished; an unknown task is at most a fresh enqueue |
| `CrashSafety.KeysComeBack` | internal/queue/queue.go:105-111 | a bound key comes back bound to the same task |
| `CrashSafety.RestartRecovers` | internal/queue/queue.go:64-75 | a restart that keeps everything settled recovers the live state plus the pending operations before the cut |
| `KeyOrder.ReplayKeepsFirst` | internal/queue/queue.go:105-111 | in replay the first record with a key wins it |
| `KeyOrder.AgreesIffInOrder` | internal/queue/queue.go:265-279 | a crash-free run ends with log and memory in agreement if and only if no Enqueue bound a key past an earlier logged rival |
| `KeyOrder.OnePerKeyIsInOrder` | internal/queue/queue.go:256-271 | if no two Enqueues with one key overlap, every run is in order |
| `KeyRace.ShadowedIsNeverCreated` | internal/queue/queue.go:105-108 | replay never creates a task all of whose enqueues follow another with the same key |
| `KeyRace.SplitTaskBreaksReplay` | internal/queue/queue.go:129-165 | once log and memory name different winners, a Retry, Dead or Requeue record of memory's task makes opening the file panic |
| `KeyRace.RaceBreaksRecovery` | internal/queue/queue.go:256-279 | from every quiet state two concurrent Enqueues that both return the same ID and a Retry of it that succeeds lead to a fully synced file that cannot be opened |
| `KeyRace.RefusedEnqueueSplits` | internal/queue/wal.go:115-120 | going on after a refused Enqueue whose frame stayed, and repeating it, binds the key to different tasks in memory and in replay, and the next Retry cannot be replayed |
| `Lives.EventKeepsLives` | internal/queue/queue.go:224-507 | in every run, restarts included, the records of each task that no earlier Enqueue with its key shadows form a possible life, ending where memory has the task or will have it |
| `Lives.ReplayableIffNoShadowUsed` | internal/queue/queue.go:88-174 | a log of possible lives can be replayed if and only if no Retry, Dead or Requeue record is about a task that another Enqueue with its key preceded |
| `Lives.OpensIffNoShadowUsed` | internal/queue/queue.go:46-83 | so for every run from an empty log, restarts included: the file opens if and only if that holds, and panics otherwise |
| `Reopening.UnsyncedStartForgets` | internal/queue/queue.go:227-231 | from every quiet state: a record read back but never synced answers a repeated Enqueue, and a power loss then drops it; the answer is forgotten and a committed task is in no place any more |
| `Durability.OpStaysRecoverable` | internal/queue/queue.go:307-394 | a logged operation that succeeds leaves the file describing the queue |
| `Durability.EnqueueStaysRecoverable` | internal/queue/queue.go:256-279 | so does an Enqueue that commits |
| `Durability.DequeueStaysRecoverable` | internal/queue/queue.go:287-304 | and a Dequeue, which writes nothing |
| `Durability.RecoverableRecovers` | internal/queue/queue.go:46-83 | opening such a file rebuilds the durable state with every live task due |
| `Durability.OpenedIsRecoverable` | internal/queue/queue.go:46-83 | and the queue just opened is again described by its file |
| `Durability.RefusedHarmlessIffTorn` | internal/queue/wal.go:115-120 | after a failed append the file opens to memory's durable state if and only if the refused frame did not go out whole |
| `Durability.RefusedOpHarmlessIffTorn` | internal/queue/queue.go:307-394 | that condition for Ack, Retry, death, RequeueDead and PurgeDeadTask |
| `Durability.RefusedEnqueueHarmlessIffTorn` | internal/queue/queue.go:256-263 | and for Enqueue |
| `QueueObject.Queue.EnqueueCheck` | internal/queue/queue.go:224-258 | the first critical section returns the bound ID, or builds an unpublished task with the caller's payload and key, the time and no history; it changes nothing |
| `QueueObject.Queue.EnqueueCommit` | internal/queue/queue.go:265-280 | the second rechecks the key: it publishes the task and returns its ID, or returns the ID the key is bound to |
| `QueueObject.Queue.Enqueue` | internal/queue/queue.go:224-280 | an undisturbed call: a bound key gives its ID and writes nothing; otherwise one append decides: on nil the new task is live under the returned ID with the caller's payload, key and time, on an error memory is untouched; the file still describes the queue |
| `QueueObject.Queue.Dequeue` | internal/queue/queue.go:287-304 | returns a task exactly when the root is due: the foremost ready one by (AvailableAt, EnqueuedAt), with the payload it was submitted with, leased until now plus the visibility timeout; otherwise nothing is due; the file still describes the queue |
| `QueueObject.Queue.Ack` | internal/queue/queue.go:307-329 | not found: an error and nothing written; otherwise one append decides: on nil the task is done and gone from index and in-flight, on an error memory is untouched; the file still describes the queue |
| `QueueObject.Queue.Retry` | internal/queue/queue.go:335-394 | likewise: one more retry, and dead with its time of failure when the retries are used up, or on ready for its next time |
| `QueueObject.Queue.RequeueDead` | internal/queue/queue.go:459-485 | likewise: from the dead-letter queue back to ready with a clean history, due at any time since the zero time |
| `QueueObject.Queue.PurgeDeadTask` | internal/queue/queue.go:489-507 | likewise, out of the dead-letter queue |
| `QueueObject.Queue.Sweeper` | internal/queue/queue.go:177-191 | the loop over the map it deletes from performs one visit per entry, each one lease test and retry; it gives up only when an append is refused or an expired task is not in index; if the records fit their fields the file still describes the queue |
| `QueueObject.Queue.Apply` | internal/queue/queue.go:94-173 | applyRecord on the objects does what the value-level one does, and reports where it would dereference nil |
| `QueueObject.Queue.ApplyBody` | internal/queue/queue.go:88-92 | a body that does not decode is refused with its decode error; otherwise its record is applied |
| `QueueObject.Queue.Load` | internal/queue/queue.go:46-83 | NewQueue on a file ends as the value-level opening does: a queue, a decode error or a panic; on a produced file the queue is recoverable again, and every task is available when the log says and is the one its enqueue record submitted |
| `Conservation.EveryRunConserves` | internal/queue/queue.go:307-394 | in every crash-free run, disciplined or not, the IDs ever committed are the disjoint union of index, dlq, acked and purged, and acked and purged only grow |
| `Conservation.RestartsConserve` | internal/queue/queue.go:459-507 | the same across restarts, for in-order runs in which no restart loses what an earlier one read back |
| `Conservation.AckedOnce` | internal/queue/queue.go:307-329 | a successful Ack is the only one its task ever gets |
| `Dedup.EnqueueIsAtomic` | internal/queue/queue.go:224-280 | under every interleaving each non-empty key is bound at most once, to one task, its binding never changes, and every caller that returned was given that task |
| `Dedup.BindingsOutliveRestarts` | internal/queue/queue.go:105-111 | the same across restarts, for in-order runs in which no restart loses what an earlier one read back |
| `Dedup.SameKeySameId` | internal/queue/queue.go:227-231 | any two calls that returned for one key returned one ID |
| `Accounting.RetriesAccounted` | internal/queue/queue.go:352-391 | live tasks have between 0 and maxRetries retries and dead ones exactly one more, in every in-order run and after every replay, whatever the cut |
| `Accounting.CrashFreeAccounted` | internal/queue/queue.go:352-391 | the same in every crash-free run, in order or not |
| `Accounting.OperationsAreEncodable` | internal/queue/record.go:271-284 | so no logged operation outgrows its record's fields |
| `LeaseDiscipline.DisciplinedRunsStayWellFormed` | internal/queue/queue.go:275-392 | in every run where only leased tasks are acked or retried, ready has no duplicates, ready and in-flight partition index, index and dlq are disjoint, and ready is a heap |
| `LeaseDiscipline.RanksStay` | internal/queue/queue.go:386-388 | no heap key changes while its task is on the heap |
| `LeaseDiscipline.DequeueAgreesWithScan` | internal/queue/queue.go:282-297 | Dequeue hands out a task exactly when some ready task is due |
| `Order.DequeueTakesForemost` | internal/queue/heap.go:17-22 | the task handed out has the least AvailableAt, and among those the least EnqueuedAt |
| `Order.EarlierComesFirst` | internal/queue/heap.go:3-12 | over runs: of two tasks on ready, the earlier by these fields is delivered first |
| `Order.FifoAmongFresh` | internal/queue/heap.go:8-12 | over runs: of two tasks never retried, the one enqueued before is delivered first |
| `Order.RevivedIsHandedOut` | internal/queue/queue.go:476-483 | after RequeueDead something is handed out at any time since the zero time, and no such task precedes the revived one |
| `RecoveryOrder.RecoveredTimes` | internal/queue/queue.go:94-165 | a recovered task is available at the time its last Retry was replayed, or since the zero time if it was not retried in this life, and is as its enqueue record submitted it |
| `RecoveryOrder.NotRetriedPrecedes` | internal/queue/queue.go:135-136 | a task not retried stands before every retried one |
| `RecoveryOrder.NotRetriedByEnqueue` | internal/queue/queue.go:97-104 | tasks not retried stand by the times of their enqueue records |
| `RecoveryOrder.RecoveredOrder` | internal/queue/queue.go:73-75 | and after a restart they are delivered in that order |
| `LeaseDiscipline.RetryOfRootStallsDequeue` | internal/queue/queue.go:386-388 | after a Retry of the root while it is ready, Dequeue agrees with a scan if and only if the root's new time has come or no other ready task is due; otherwise it hands out nothing although tasks are due |
| `LeaseDiscipline.PartitionIffLeased` | internal/queue/queue.go:324-392 | Ack and Retry, the dying Retry included, keep the partition if and only if the task is in flight |
| `LeaseDiscipline.AckOfReadyLeavesStaleEntry` | internal/queue/queue.go:324-326 | acking a ready task leaves it on the heap |
| `LeaseDiscipline.RetryOfReadyDuplicates` | internal/queue/queue.go:386-388 | retrying a ready task puts it there twice |
| `LeaseDiscipline.DeathOfReadyLeavesStaleEntry` | internal/queue/queue.go:370-373 | a ready task that dies stays on the heap while it is in the dead-letter queue |
| `BoundedWork.WorkIsBounded` | internal/queue/queue.go:287-394 | with no new task, revival or restart, a disciplined run has at most as many successful Dequeue, Ack and Retry steps as the work measure at its start |
| `BoundedWork.DeliveriesAreBounded` | internal/queue/queue.go:352-391 | in every disciplined run of one process that does not revive the task, whatever happens to others, it is delivered at most maxRetries + 1 times |
| `Sweep.SweeperPass` | internal/queue/queue.go:176-191 | every lease expired before the pass is reclaimed exactly once, to ready with one more retry or to dlq, with times drawn during the pass; valid leases and other tasks are untouched; the number of tasks is conserved |
| `Sweep.LeaseIsHonoured` | internal/queue/queue.go:301-302 | a task delivered at t survives a pass that ends by t plus the visibility timeout and is reclaimed by a pass that starts later |
| `Leases.LeaseIsExclusive` | internal/queue/queue.go:176-191 | over whole runs: if its worker does not give it back and the sweeper retries it only past its own lease test, a task delivered at t is not delivered again by t plus the visibility timeout |
| `Reachable.InOrderStates` | internal/queue/queue.go:224-507 | agreement and accounting, for every in-order run from an empty log, with any restarts |
| `Reachable.LastingStates` | internal/queue/queue.go:224-507 | conservation and deduplication across restarts as well, for every such run whose crashes find the bytes read at the last start synced |
| `Reachable.CrashFreeStates` | internal/queue/queue.go:224-507 | conservation, deduplication and accounting, and agreement exactly when in order, for every crash-free run from an empty log |
| `Reachable.DisciplinedStates` | internal/queue/queue.go:287-304 | partition, heap order, statuses, and Dequeue handing out the foremost ready task exactly when one is due, for every disciplined run from an empty log |
| `EffectLedger.TallyAddsOne` | cmd/loadtest/store.go:25-30 | one application adds one to the sum of tallies, and an effect exactly when the key is new |
| `EffectLedger.EffectStore.Apply` | cmd/loadtest/store.go:25-30 | total and the key's tally grow by one, other tallies stay, and total remains the sum of tallies |
| `EffectLedger.EffectStore.Distinct` | cmd/loadtest/store.go:34-38 | the number of keys applied, at most the total |
| `EffectLedger.EffectStore.Deliveries` | cmd/loadtest/store.go:42-46 | the sum of the tallies, at least one per effect |
| `Workload.ProducerKeysAreUnique` | cmd/loadtest/workload.go:92-107 | the keys of two different enqueues differ |
| `Workload.ActionKeepsInv` | cmd/loadtest/workload.go:95-240 | every action of producers, consumers, drain and sweeper keeps: an effect lands before its task is acked, only committed tasks have effects, the counters count |
| `Workload.EffectsBetween` | cmd/loadtest/workload.go:79-82 | acks never exceed effects, effects never exceed tasks; when all are acked nothing is live or dead |
| `Workload.VerdictStrength` | cmd/loadtest/workload.go:79-88 | once every Enqueue is counted, the verdict passes if and only if acked == produced, and then the queue is empty |
| `Workload.DeliveriesAddUp` | cmd/loadtest/store.go:40-46 | the delivery total is the sum of the tallies, and every delivery was applied, refused before its effect or is still in hand |
| `Drain.DrainReady` | cmd/loadtest/workload.go:207-225 | the inner loop ends; the queue and the ledger have seen one delivery, one effect and one ack per round, and on success nothing is due; it fails only when an Ack is refused or finds no task, and then there is one delivery and one effect more |
| `Drain.DrainAcksExactlyTheDue` | cmd/loadtest/workload.go:207-225 | in a well-formed queue it acks exactly the ready tasks due by its end: a live task remains if and only if it was leased out or not due |

## Left out

- Files, permissions, real fsync and bufio: the file is a byte sequence with a synced length; read errors other than an early end are not modelled.
- Mutexes, goroutines, channels and tickers as runtime objects: the model has atomic steps and one request FIFO, with no bound on its capacity. `runSweeper` is not modelled.
- `Close`: shutting down with a request outstanding (the inner drain receives from a closed channel) is not modelled.
- CRC-32 and UUID internals: the checksum is an arbitrary function and IDs are fresh 16-byte strings; nothing is claimed about detecting corruption.
- `generateBackoff`: a retried task's availability time is arbitrary, so every result holds for any delay.
- The replay branch of Dequeue records is modelled and no live code writes such a record, so produced logs hold none; its codec is covered.
- `Owner`, `ListDeadTasks`, `DeadTask`, `DLQLen` and the `String` methods: accessors and formatting.
- Clock readings are integers of nanoseconds; monotonic readings and time zones are not modelled.
- The binding of the empty key, which no code reads, is not part of durable state.
- QueueObject.Queue.Apply: requires that an enqueue record's ID is new, because task objects are identified by their IDs.
- QueueObject.Queue.ApplyBody: requires the same of the record in the body.
- QueueObject.Queue.Load: requires that no two bodies enqueue the same ID.
- QueueObject.Queue.Enqueue: is the call that meets no other; interleaved calls are the steps of `Machine`.
- WalFile.Wal.Append: is the request that shares its batch with no other; shared batches are those of `WalFile.Wal.Run`.
- Machine.EventKeepsInv: the writer stops at its first error and a restart in a run falls on a frame boundary; the class `Wal` goes on after errors, and `CrashSafety` cuts the last file at any byte.
- Conservation.RestartsConserve: needs that no restart loses what an earlier one read back; the counterexample is `Reopening.UnsyncedStartForgets`.
- Dedup.BindingsOutliveRestarts: needs the same.
- Reachable.LastingStates: needs the same, in the form of crashes that find the bytes read at the last start synced.
- Framing.TornTailHidesLaterFrames: gives one family of lost records; `Framing.ReopenSafeIffBoundary` is the exact condition.
- KeyRace.SplitTaskBreaksReplay: is one way only; `Lives.OpensIffNoShadowUsed` is the exact condition.
- drain's outer loop, its deadline and its walk over the dead-letter queue as code: the clients of `Workload` may do those steps at any time, and nothing is claimed about termination within the deadline.
- The load test's main, flags, printing, latency metrics and result files, and cmd/taskq.
