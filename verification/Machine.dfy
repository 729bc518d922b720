/**
  * The queue as interleaved atomic steps: any number of Enqueue callers between their two critical
  * sections, at most one logged operation holding the mutex while it waits for its reply, the WAL
  * writer, and crashes.
  */
module Machine {
  import opened ByteStrings
  import opened Codec
  import opened Framing
  import opened Tasks
  import opened LiveQueue
  import opened Replay
  import opened Recovery
  import opened GroupCommit
  import ReadyHeap

  datatype Config = Config(crc: Checksum, maxRetries: int, visibility: Time)

  /** How far an Enqueue call has got. */
  datatype Call =
    | Checked(id: Id, task: Task)              // task built, lock released, record not sent yet
    | Logged(id: Id, task: Task, pos: nat)     // record sent: it is entry pos of the log
    | Returned(key: Key, id: Id)               // returned id, nil

  /** A logged operation that holds the mutex; its record is entry pos of the log. */
  datatype Holder = Holder(op: Op, now: Time, record: Record, pos: nat)

  /**
    * log is every record sent to the writer, in channel order. done holds the log positions whose
    * operation has finished in memory. used is every ID ever drawn. committed, acked and purged
    * are the IDs that ever entered the queue, were acknowledged, and were purged.
    */
  datatype Sys = Sys(
    mem: Mem,
    log: seq<Record>,
    wal: Writer,
    done: set<nat>,
    calls: map<nat, Call>,
    holder: Option<Holder>,
    used: set<Id>,
    committed: set<Id>,
    acked: set<Id>,
    purged: set<Id>)

  datatype Event =
    | Check(c: nat, key: Key, payload: Bytes, id: Id, now: Time)  // Enqueue up to the first unlock
    | Send(c: nat)                                                // its send on the request channel
    | Commit(c: nat)                                              // Enqueue from the second lock on
    | Begin(op: Op, now: Time)                                    // lock, look up, send the record
    | Finish(availableAt: Time)                                   // reply received: memory, unlock
    | Deliver(now: Time)                                          // Dequeue
    | Disk(step: WriterStep)
    | CrashRestart(k: nat, synced: nat, clock: seq<Time>)         // the first k records survive, synced bytes on disk

  function EncodeAll(log: seq<Record>): seq<Bytes> {
    seq(|log|, i requires 0 <= i < |log| => EncodeRecord(log[i]))
  }

  function Initial(): Sys {
    Sys(EMPTY, [], Fresh(), {}, map[], None, {}, {}, {}, {})
  }

  /** The record's fields and its length fit their fixed-width encodings. */
  predicate Encodable(r: Record) {
    InBounds(r) && IsUint32(|EncodeRecord(r)|)
  }

  predicate InPhase(s: Sys, c: nat, logged: bool) {
    c in s.calls && (if logged then s.calls[c].Logged? else s.calls[c].Checked?)
  }

  /** The surviving bytes after a crash that cuts the file after the k-th frame. */
  predicate CutAfter(cfg: Config, w: Writer, k: nat) {
    && k <= |w.requests|
    && var disk := Frames(cfg.crc, w.requests[..k]);
       disk <= w.file && w.synced <= |disk|
  }

  ghost predicate Enabled(cfg: Config, s: Sys, e: Event) {
    match e
    case Check(c, key, payload, id, now) =>
      s.holder.None? && c !in s.calls && id !in s.used && Encodable(EnqueueRecord(id, NewTask(key, payload, now)))
    case Send(c) => InPhase(s, c, false)
    case Commit(c) => s.holder.None? && InPhase(s, c, true) && s.calls[c].pos < s.wal.replied
    case Begin(op, now) =>
      s.holder.None? && Found(s.mem, op) && Encodable(OpRecord(s.mem, op, now, cfg.maxRetries))
    case Finish(_) => s.holder.Some? && s.holder.value.pos < s.wal.replied && s.holder.value.record.id in s.mem.tasks
    case Deliver(_) => s.holder.None?
    case Disk(step) => CanStep(cfg.crc, s.wal, step)
    case CrashRestart(k, synced, clock) =>
      && CutAfter(cfg, s.wal, k) && s.wal.synced <= synced <= |Frames(cfg.crc, s.wal.requests[..k])|
      && k <= |s.log| && |clock| == k && Recover(s.log[..k], clock).Some?
  }

  function SendRecord(s: Sys, r: Record): Sys {
    s.(log := s.log + [r], wal := Submit(s.wal, EncodeRecord(r)))
  }

  function FinishOp(s: Sys, h: Holder, availableAt: Time): Sys
    requires h.record.id in s.mem.tasks
  {
    s.(mem := OpMem(s.mem, h.record, availableAt),
       done := s.done + {h.pos},
       holder := None,
       acked := if h.op.AckOp? then s.acked + {h.op.id} else s.acked,
       purged := if h.op.PurgeOp? then s.purged + {h.op.id} else s.purged)
  }

  function CommitCall(s: Sys, c: nat): Sys
    requires InPhase(s, c, true)
  {
    var Logged(id, task, pos) := s.calls[c];
    s.(mem := CommitEnqueue(s.mem, id, task),
       done := s.done + {pos},
       calls := s.calls[c := Returned(task.key, EnqueueResult(s.mem, id, task.key))],
       committed := if Bound(s.mem, task.key) then s.committed else s.committed + {id})
  }

  function CheckCall(s: Sys, c: nat, key: Key, payload: Bytes, id: Id, now: Time): Sys {
    if Bound(s.mem, key) then s.(calls := s.calls[c := Returned(key, s.mem.keys[key])])
    else s.(calls := s.calls[c := Checked(id, NewTask(key, payload, now))], used := s.used + {id})
  }

  function PositionsBelow(k: nat): (ps: set<nat>)
    ensures forall p: nat :: p in ps <==> p < k
  {
    if k == 0 then {} else PositionsBelow(k - 1) + {k - 1}
  }

  /** A holder whose record survived the crash has taken effect. */
  predicate Survived(s: Sys, k: nat) {
    s.holder.Some? && s.holder.value.pos < k
  }

  function Restart(cfg: Config, s: Sys, k: nat, synced: nat, clock: seq<Time>): Sys
    requires k <= |s.log| && k <= |s.wal.requests| && |clock| == k && Recover(s.log[..k], clock).Some?
  {
    var mem := Recover(s.log[..k], clock).value;
    s.(mem := mem,
       log := s.log[..k],
       wal := Reopen(cfg.crc, s.wal, k, synced),
       done := PositionsBelow(k),
       calls := (map c | c in s.calls && s.calls[c].Returned? :: s.calls[c]),
       holder := None,
       committed := s.committed + mem.index + mem.dlq,
       acked := if Survived(s, k) && s.holder.value.op.AckOp? then s.acked + {s.holder.value.op.id} else s.acked,
       purged := if Survived(s, k) && s.holder.value.op.PurgeOp? then s.purged + {s.holder.value.op.id} else s.purged)
  }

  ghost function Next(cfg: Config, s: Sys, e: Event): Sys
    requires Enabled(cfg, s, e)
  {
    match e
    case Check(c, key, payload, id, now) => CheckCall(s, c, key, payload, id, now)
    case Send(c) =>
      var Checked(id, task) := s.calls[c];
      SendRecord(s, EnqueueRecord(id, task)).(calls := s.calls[c := Logged(id, task, |s.log|)])
    case Commit(c) => CommitCall(s, c)
    case Begin(op, now) =>
      var r := OpRecord(s.mem, op, now, cfg.maxRetries);
      SendRecord(s, r).(holder := Some(Holder(op, now, r, |s.log|)))
    case Finish(availableAt) => FinishOp(s, s.holder.value, availableAt)
    case Deliver(now) => s.(mem := DequeueMem(s.mem, now, cfg.visibility))
    case Disk(step) => s.(wal := Step(cfg.crc, s.wal, step))
    case CrashRestart(k, synced, clock) => Restart(cfg, s, k, synced, clock)
  }

  // --- runs ---

  /** es can be executed from s, every step satisfying P. */
  ghost predicate RunOf(cfg: Config, s: Sys, es: seq<Event>, P: (Config, Sys, Event) -> bool)
    decreases |es|
  {
    es != [] ==> Enabled(cfg, s, es[0]) && P(cfg, s, es[0]) && RunOf(cfg, Next(cfg, s, es[0]), es[1..], P)
  }

  ghost function Final(cfg: Config, s: Sys, es: seq<Event>, P: (Config, Sys, Event) -> bool): Sys
    requires RunOf(cfg, s, es, P)
    decreases |es|
  {
    if es == [] then s else Final(cfg, Next(cfg, s, es[0]), es[1..], P)
  }

  lemma {:induction false} RunConcat(
    cfg: Config, s: Sys, es: seq<Event>, es': seq<Event>, P: (Config, Sys, Event) -> bool)
    requires RunOf(cfg, s, es, P) && RunOf(cfg, Final(cfg, s, es, P), es', P)
    ensures RunOf(cfg, s, es + es', P)
    ensures Final(cfg, s, es + es', P) == Final(cfg, Final(cfg, s, es, P), es', P)
    decreases |es|
  {
    hide Enabled, Next;
    if es == [] {
      assert [] + es' == es';
    } else {
      assert (es + es')[1..] == es[1..] + es';
      RunConcat(cfg, Next(cfg, s, es[0]), es[1..], es', P);
    }
  }

  lemma RunOfOne(cfg: Config, s: Sys, e: Event, P: (Config, Sys, Event) -> bool)
    requires Enabled(cfg, s, e) && P(cfg, s, e)
    ensures RunOf(cfg, s, [e], P) && Final(cfg, s, [e], P) == Next(cfg, s, e)
  {
    hide Enabled, Next;
    assert [e][1..] == [];
    assert RunOf(cfg, Next(cfg, s, e), [], P);
  }

  lemma RunOfTwo(cfg: Config, s: Sys, e: Event, e': Event, P: (Config, Sys, Event) -> bool)
    requires Enabled(cfg, s, e) && P(cfg, s, e)
    requires Enabled(cfg, Next(cfg, s, e), e') && P(cfg, Next(cfg, s, e), e')
    ensures RunOf(cfg, s, [e, e'], P) && Final(cfg, s, [e, e'], P) == Next(cfg, Next(cfg, s, e), e')
  {
    hide Enabled, Next;
    RunOfOne(cfg, s, e, P);
    RunOfOne(cfg, Next(cfg, s, e), e', P);
    RunConcat(cfg, s, [e], [e'], P);
    assert [e] + [e'] == [e, e'];
  }

  // --- what the steps that change memory make of it ---

  lemma CommitIs(cfg: Config, s: Sys, e: Event)
    requires Enabled(cfg, s, e) && e.Commit?
    ensures InPhase(s, e.c, true) && s.holder.None?
    ensures Next(cfg, s, e).mem == CommitEnqueue(s.mem, s.calls[e.c].id, s.calls[e.c].task)
    ensures Next(cfg, s, e).holder.None?
  {
    hide CommitEnqueue;
  }

  lemma FinishIs(cfg: Config, s: Sys, e: Event)
    requires Enabled(cfg, s, e) && e.Finish?
    ensures s.holder.Some? && s.holder.value.record.id in s.mem.tasks
    ensures Next(cfg, s, e).mem == OpMem(s.mem, s.holder.value.record, e.availableAt)
    ensures Next(cfg, s, e).holder.None?
  {
    hide OpMem;
  }

  lemma RestartIs(cfg: Config, s: Sys, e: Event)
    requires Enabled(cfg, s, e) && e.CrashRestart?
    ensures e.k <= |s.log| && |e.clock| == e.k && Recover(s.log[..e.k], e.clock).Some?
    ensures Next(cfg, s, e).mem == Recover(s.log[..e.k], e.clock).value && Next(cfg, s, e).log == s.log[..e.k]
    ensures Next(cfg, s, e).holder.None?
  {
    hide Recover, Frames;
  }

  // --- structural invariants, kept by every step of every run ---

  ghost predicate LogInv(cfg: Config, s: Sys) {
    && WriterInv(cfg.crc, s.wal)
    && s.wal.requests == EncodeAll(s.log)
    && (forall r :: r in s.log ==> Encodable(r))
    && DistinctEnqueues(s.log)
    && NoDequeues(s.log)
  }

  /** IDs are drawn once. */
  ghost predicate IdInv(s: Sys) {
    && (forall id :: id in s.mem.tasks ==> id in s.used)
    && (forall i :: 0 <= i < |s.log| && s.log[i].Enqueue? ==> s.log[i].id in s.used)
    && (forall c :: c in s.calls && s.calls[c].Checked? ==>
          && s.calls[c].id in s.used
          && s.calls[c].id !in s.mem.tasks
          && !Enqueued(s.log, s.calls[c].id))
    && (forall c, c' :: c in s.calls && c' in s.calls && c != c' && s.calls[c].Checked? && s.calls[c'].Checked? ==>
          s.calls[c].id != s.calls[c'].id)
  }

  /** A log entry whose operation is not finished is an enqueue not yet in memory, or the holder's. */
  ghost predicate PendingInv(s: Sys) {
    && (forall p :: p in s.done ==> p < |s.log|)
    && (forall p :: 0 <= p < |s.log| && p !in s.done ==>
          || (s.log[p].Enqueue? && s.log[p].id !in s.mem.tasks)
          || (s.holder.Some? && s.holder.value.pos == p))
  }

  ghost predicate FreshTask(t: Task) {
    t.retries == 0 && t.failedAt == ZERO_TIME && t.status == StateReady && t.availableAt == ZERO_TIME
  }

  ghost predicate CallInv(s: Sys) {
    && (forall c :: c in s.calls && s.calls[c].Checked? ==>
          FreshTask(s.calls[c].task) && Encodable(EnqueueRecord(s.calls[c].id, s.calls[c].task)))
    && (forall c :: c in s.calls && s.calls[c].Logged? ==>
          && s.calls[c].pos < |s.log| && s.calls[c].pos !in s.done
          && s.log[s.calls[c].pos] == EnqueueRecord(s.calls[c].id, s.calls[c].task)
          && FreshTask(s.calls[c].task))
    && (forall c, c' :: c in s.calls && c' in s.calls && c != c' && s.calls[c].Logged? && s.calls[c'].Logged? ==>
          s.calls[c].pos != s.calls[c'].pos)
  }

  ghost predicate HolderInv(cfg: Config, s: Sys) {
    s.holder.Some? ==>
      var h := s.holder.value;
      && h.pos < |s.log| && h.pos !in s.done && s.log[h.pos] == h.record
      && Found(s.mem, h.op) && h.record == OpRecord(s.mem, h.op, h.now, cfg.maxRetries)
  }

  ghost predicate Inv(cfg: Config, s: Sys) {
    && Sound(s.mem)
    && LogInv(cfg, s)
    && IdInv(s)
    && PendingInv(s)
    && CallInv(s)
    && HolderInv(cfg, s)
  }

  lemma InitialInv(cfg: Config)
    ensures Inv(cfg, Initial())
  {
    assert Frames(cfg.crc, []) == [];
    assert EncodeAll([]) == [];
  }

  lemma EncodeAllSnoc(log: seq<Record>, r: Record)
    ensures EncodeAll(log + [r]) == EncodeAll(log) + [EncodeRecord(r)]
  {
  }

  lemma SendKeepsLogInv(cfg: Config, s: Sys, r: Record)
    requires LogInv(cfg, s) && Encodable(r) && !r.Dequeue?
    requires r.Enqueue? ==> !Enqueued(s.log, r.id)
    ensures LogInv(cfg, SendRecord(s, r))
  {
    hide EncodeRecord, Frames;
    SubmitKeepsInv(cfg.crc, s.wal, EncodeRecord(r));
    EncodeAllSnoc(s.log, r);
  }

  lemma CheckKeepsInv(cfg: Config, s: Sys, e: Event)
    requires Inv(cfg, s) && Enabled(cfg, s, e) && e.Check?
    ensures Inv(cfg, Next(cfg, s, e))
  {
    hide EncodeRecord, WriterInv, EncodeAll, Sound;
    forall i | 0 <= i < |s.log| && s.log[i].Enqueue?
      ensures s.log[i].id != e.id
    {
    }
  }

  lemma SendKeepsInv(cfg: Config, s: Sys, e: Event)
    requires Inv(cfg, s) && Enabled(cfg, s, e) && e.Send?
    ensures Inv(cfg, Next(cfg, s, e))
  {
    hide EncodeRecord, WriterInv, EncodeAll, Sound;
    var Checked(id, task) := s.calls[e.c];
    var r := EnqueueRecord(id, task);
    SendKeepsLogInv(cfg, s, r);
    var s' := Next(cfg, s, e);
    forall c | c in s'.calls && s'.calls[c].Checked?
      ensures !Enqueued(s'.log, s'.calls[c].id)
    {
      assert s.calls[c].Checked? && !Enqueued(s.log, s.calls[c].id);
    }
  }

  lemma BeginKeepsInv(cfg: Config, s: Sys, e: Event)
    requires Inv(cfg, s) && Enabled(cfg, s, e) && e.Begin?
    ensures Inv(cfg, Next(cfg, s, e))
  {
    hide EncodeRecord, WriterInv, EncodeAll, Sound;
    var r := OpRecord(s.mem, e.op, e.now, cfg.maxRetries);
    SendKeepsLogInv(cfg, s, r);
    var s' := Next(cfg, s, e);
    forall c | c in s'.calls && s'.calls[c].Checked?
      ensures !Enqueued(s'.log, s'.calls[c].id)
    {
      assert !Enqueued(s.log, s.calls[c].id);
    }
  }

  lemma CommitKeepsInv(cfg: Config, s: Sys, e: Event)
    requires Inv(cfg, s) && Enabled(cfg, s, e) && e.Commit?
    ensures Inv(cfg, Next(cfg, s, e))
  {
    hide EncodeRecord, WriterInv, EncodeAll, ReadyHeap.Push;
    var Logged(id, task, pos) := s.calls[e.c];
    assert s.log[pos].id == id && id !in s.mem.tasks;
    CommitKeepsSound(s.mem, id, task);
    hide Sound;
    forall c | c in s.calls && s.calls[c].Checked?
      ensures s.calls[c].id != id
    {
      assert Enqueued(s.log, id);
    }
  }

  lemma FinishKeepsInv(cfg: Config, s: Sys, e: Event)
    requires Inv(cfg, s) && Enabled(cfg, s, e) && e.Finish?
    ensures Inv(cfg, Next(cfg, s, e))
  {
    hide EncodeRecord, WriterInv, EncodeAll, ReadyHeap.Push;
    var h := s.holder.value;
    OpKeepsSound(s.mem, h.op, h.now, cfg.maxRetries, e.availableAt);
    OpKeepsTasks(s.mem, h.record, e.availableAt);
    hide Sound, OpMem;
    NotAnEnqueue(s.mem, h.op, h.now, cfg.maxRetries);
  }

  lemma OpKeepsTasks(m: Mem, r: Record, availableAt: Time)
    requires r.id in m.tasks
    ensures forall id :: id in OpMem(m, r, availableAt).tasks <==> id in m.tasks
  {
  }

  lemma NotAnEnqueue(m: Mem, op: Op, now: Time, maxRetries: int)
    requires Found(m, op)
    ensures var r := OpRecord(m, op, now, maxRetries); !r.Enqueue? && !r.Dequeue? && r.id == op.id && r.id in m.tasks
  {
  }

  lemma LogIsProduced(cfg: Config, s: Sys)
    requires Inv(cfg, s)
    ensures DistinctEnqueues(s.log) && NoDequeues(s.log)
  {
    hide Sound, IdInv, CallInv, HolderInv, PendingInv, WriterInv;
  }

  /** What the waiting operation found is still there. */
  lemma HolderFound(cfg: Config, s: Sys)
    requires Inv(cfg, s) && s.holder.Some?
    ensures var h := s.holder.value;
            Found(s.mem, h.op) && h.record == OpRecord(s.mem, h.op, h.now, cfg.maxRetries) && s.mem.index !! s.mem.dlq
  {
    hide LogInv, IdInv, CallInv, PendingInv;
  }

  /** What a call about to commit brings: a task in the log that memory does not know, with no retries. */
  lemma LoggedCallIsPending(cfg: Config, s: Sys, c: nat)
    requires Inv(cfg, s) && InPhase(s, c, true)
    ensures s.calls[c].id !in s.mem.tasks && Enqueued(s.log, s.calls[c].id) && s.calls[c].task.retries == 0
  {
    hide Sound, LogInv, IdInv;
    if s.holder.Some? {
      NotAnEnqueue(s.mem, s.holder.value.op, s.holder.value.now, cfg.maxRetries);
    }
    hide HolderInv;
    var r := s.log[s.calls[c].pos];
    assert r.Enqueue? && r.id == s.calls[c].id;
  }

  lemma DeliverKeepsInv(cfg: Config, s: Sys, e: Event)
    requires Inv(cfg, s) && Enabled(cfg, s, e) && e.Deliver?
    ensures Inv(cfg, Next(cfg, s, e))
  {
    hide EncodeRecord, WriterInv, EncodeAll, ReadyHeap.Pop;
    DequeueKeepsSound(s.mem, e.now, cfg.visibility);
    hide Sound;
  }

  lemma DiskKeepsInv(cfg: Config, s: Sys, e: Event)
    requires Inv(cfg, s) && Enabled(cfg, s, e) && e.Disk?
    ensures Inv(cfg, Next(cfg, s, e))
  {
    hide EncodeRecord, WriterInv, EncodeAll, Sound, Frames, EncodeFrame;
    StepKeepsInv(cfg.crc, s.wal, e.step);
    assert Step(cfg.crc, s.wal, e.step).requests == s.wal.requests;
  }

  lemma PrefixFacts(log: seq<Record>, k: nat)
    requires k <= |log| && DistinctEnqueues(log) && NoDequeues(log)
    ensures DistinctEnqueues(log[..k]) && NoDequeues(log[..k])
    ensures EncodeAll(log[..k]) == EncodeAll(log)[..k]
    ensures forall r :: r in log[..k] ==> r in log
  {
  }

  lemma RestartKeepsInv(cfg: Config, s: Sys, e: Event)
    requires Inv(cfg, s) && Enabled(cfg, s, e) && e.CrashRestart?
    ensures Inv(cfg, Next(cfg, s, e))
  {
    hide EncodeRecord, WriterInv, EncodeAll, Recover, Frames;
    var k := e.k;
    var log := s.log[..k];
    PrefixFacts(s.log, k);
    ReopenIsInv(cfg.crc, s.wal, k, e.synced);
    RecoveryRedelivers(log, e.clock, LatestOf(e.clock));
    var m := Recover(log, e.clock).value;
    forall id | id in m.tasks
      ensures id in s.used
    {
      EnqueuedPrefix(s.log, k, id);
    }
    assert Sound(m);
    hide Sound;
  }

  /** A time no earlier than any in the list. */
  function LatestOf(clock: seq<Time>): (late: Time)
    ensures ZERO_TIME <= late && forall t :: t in clock ==> t <= late
  {
    if clock == [] then ZERO_TIME else
    var late := LatestOf(clock[1..]);
    assert forall t :: t in clock ==> t == clock[0] || t in clock[1..];
    if late < clock[0] then clock[0] else late
  }

  lemma EventKeepsInv(cfg: Config, s: Sys, e: Event)
    requires Inv(cfg, s) && Enabled(cfg, s, e)
    ensures Inv(cfg, Next(cfg, s, e))
  {
    match e
    case Check(_, _, _, _, _) => CheckKeepsInv(cfg, s, e);
    case Send(_) => SendKeepsInv(cfg, s, e);
    case Commit(_) => CommitKeepsInv(cfg, s, e);
    case Begin(_, _) => BeginKeepsInv(cfg, s, e);
    case Finish(_) => FinishKeepsInv(cfg, s, e);
    case Deliver(_) => DeliverKeepsInv(cfg, s, e);
    case Disk(_) => DiskKeepsInv(cfg, s, e);
    case CrashRestart(_, _, _) => RestartKeepsInv(cfg, s, e);
  }

  lemma {:induction false} RunKeepsInv(cfg: Config, s: Sys, es: seq<Event>, P: (Config, Sys, Event) -> bool)
    requires Inv(cfg, s) && RunOf(cfg, s, es, P)
    ensures Inv(cfg, Final(cfg, s, es, P))
    decreases |es|
  {
    hide Inv, Enabled, Next;
    if es != [] {
      EventKeepsInv(cfg, s, es[0]);
      RunKeepsInv(cfg, Next(cfg, s, es[0]), es[1..], P);
    }
  }
}
