/** Runs in which only leased tasks are acked or retried: the partition, the heap order, and what Dequeue hands out. */
module LeaseDiscipline {
  import opened Codec
  import opened Framing
  import opened Tasks
  import opened LiveQueue
  import opened Replay
  import opened Recovery
  import opened Machine
  import ReadyHeap

  /** Ack and Retry are called on in-flight tasks only. */
  ghost predicate Disciplined(cfg: Config, s: Sys, e: Event) {
    e.Begin? && (e.op.AckOp? || e.op.RetryOp?) ==> e.op.id in s.mem.inflight
  }

  /** The same of an operation while it waits. */
  ghost predicate HolderLeased(s: Sys) {
    s.holder.Some? && (s.holder.value.op.AckOp? || s.holder.value.op.RetryOp?) ==>
      s.holder.value.op.id in s.mem.inflight
  }

  ghost predicate DisciplineInv(s: Sys) {
    WellFormed(s.mem) && HolderLeased(s)
  }

  /** Pushing a task that is not on the heap, whose own fields may just have changed. */
  lemma PushNewcomer(m: Mem, ts: Store, id: Id, xs: set<Id>)
    requires ReadyHeap.Ordered(m.tasks, m.ready) && multiset(m.ready) == multiset(xs) && id !in xs
    requires forall x :: x != id ==> RankOf(ts, x) == RankOf(m.tasks, x)
    ensures ReadyHeap.Ordered(ts, ReadyHeap.Push(ts, m.ready, id))
    ensures multiset(ReadyHeap.Push(ts, m.ready, id)) == multiset(xs + {id})
    ensures forall x :: x in ReadyHeap.Push(ts, m.ready, id) ==> x in xs || x == id
  {
    hide ReadyHeap.Push, RankOf;
    InReady(m.ready, xs);
    ReadyHeap.OrderedSameRanks(m.tasks, ts, m.ready);
    ReadyHeap.PushKeepsHeap(ts, m.ready, id);
    PushMembers(ts, m.ready, id);
  }

  lemma CommitKeepsWellFormed(m: Mem, id: Id, t: Task)
    requires WellFormed(m) && id !in m.tasks
    ensures WellFormed(CommitEnqueue(m, id, t))
  {
    hide ReadyHeap.Push, ReadyHeap.Ordered;
    if !Bound(m, t.key) {
      var xs := m.index - m.inflight;
      PushNewcomer(m, m.tasks[id := t], id, xs);
      assert (m.index + {id}) - m.inflight == xs + {id};
    }
  }

  lemma DequeueKeepsWellFormed(m: Mem, now: Time, visibility: Time)
    requires WellFormed(m)
    ensures WellFormed(DequeueMem(m, now, visibility))
    ensures RootDue(m, now) ==> m.ready[0] in m.index && m.ready[0] !in m.inflight
  {
    hide ReadyHeap.Pop;
    if RootDue(m, now) {
      var id := m.ready[0];
      var xs := m.index - m.inflight;
      InReady(m.ready, xs);
      assert id in m.ready;
      var m' := DequeueMem(m, now, visibility);
      ReadyHeap.PopKeepsHeap(m.tasks, m.ready);
      ReadyHeap.OrderedSameRanks(m.tasks, m'.tasks, m'.ready);
      DequeueKeepsSound(m, now, visibility);
      hide Sound;
      SetAsMultiset(xs, id);
      assert m'.index - m'.inflight == xs - {id};
    }
  }

  lemma RetryKeepsWellFormed(m: Mem, id: Id, availableAt: Time)
    requires WellFormed(m) && id in m.inflight
    ensures WellFormed(RetryMem(m, id, availableAt))
  {
    hide ReadyHeap.Push, ReadyHeap.Ordered;
    var xs := m.index - m.inflight;
    PushNewcomer(m, RetryMem(m, id, availableAt).tasks, id, xs);
    assert m.index - (m.inflight - {id}) == xs + {id};
  }

  lemma RequeueKeepsWellFormed(m: Mem, id: Id)
    requires WellFormed(m) && id in m.dlq
    ensures WellFormed(RequeueMem(m, id))
  {
    hide ReadyHeap.Push, ReadyHeap.Ordered;
    var xs := m.index - m.inflight;
    PushNewcomer(m, RequeueMem(m, id).tasks, id, xs);
    assert (m.index + {id}) - m.inflight == xs + {id};
  }

  lemma LeavingKeepsWellFormed(m: Mem, id: Id, failedAt: Time)
    requires WellFormed(m) && id in m.inflight
    ensures WellFormed(AckMem(m, id)) && WellFormed(DeadMem(m, id, failedAt))
  {
    var xs := m.index - m.inflight;
    assert (m.index - {id}) - (m.inflight - {id}) == xs;
    ReadyHeap.OrderedSameRanks(m.tasks, AckMem(m, id).tasks, m.ready);
    ReadyHeap.OrderedSameRanks(m.tasks, DeadMem(m, id, failedAt).tasks, m.ready);
    hide ReadyHeap.Ordered;
  }

  lemma FinishKeepsWellFormed(cfg: Config, s: Sys, e: Event)
    requires Inv(cfg, s) && DisciplineInv(s) && Enabled(cfg, s, e) && e.Finish?
    ensures WellFormed(Next(cfg, s, e).mem)
  {
    hide LogInv, IdInv, CallInv, PendingInv, WellFormed;
    var h := s.holder.value;
    match h.record
    case Ack(id) => LeavingKeepsWellFormed(s.mem, id, 0);
    case Dead(id, _, failedAt) => LeavingKeepsWellFormed(s.mem, id, failedAt);
    case Retry(id) => RetryKeepsWellFormed(s.mem, id, e.availableAt);
    case Requeue(id) => RequeueKeepsWellFormed(s.mem, id);
    case Purge(id) => PurgeKeepsWellFormed(s.mem, id);
  }

  lemma PurgeKeepsWellFormed(m: Mem, id: Id)
    requires WellFormed(m)
    ensures WellFormed(PurgeMem(m, id))
  {
    hide ReadyHeap.Ordered;
  }

  lemma CommitKeepsDiscipline(cfg: Config, s: Sys, e: Event)
    requires Inv(cfg, s) && DisciplineInv(s) && Enabled(cfg, s, e) && e.Commit?
    ensures DisciplineInv(Next(cfg, s, e))
  {
    hide Inv, Enabled, Next, WellFormed, CommitEnqueue;
    CommitIs(cfg, s, e);
    LoggedCallIsPending(cfg, s, e.c);
    CommitKeepsWellFormed(s.mem, s.calls[e.c].id, s.calls[e.c].task);
  }

  lemma RestartIsDisciplined(cfg: Config, s: Sys, e: Event)
    requires Inv(cfg, s) && Enabled(cfg, s, e) && e.CrashRestart?
    ensures DisciplineInv(Next(cfg, s, e))
  {
    hide Inv, Enabled, Next, WellFormed, Recover, EncodeAll;
    RestartIs(cfg, s, e);
    LogIsProduced(cfg, s);
    PrefixFacts(s.log, e.k);
    RecoveryRedelivers(s.log[..e.k], e.clock, LatestOf(e.clock));
  }

  /** The holder keeps its lease: Dequeue only adds leases, and no one else runs while it waits. */
  lemma QuietKeepsDiscipline(cfg: Config, s: Sys, e: Event)
    requires DisciplineInv(s) && Enabled(cfg, s, e) && Disciplined(cfg, s, e)
    requires e.Check? || e.Send? || e.Begin? || e.Deliver? || e.Disk?
    ensures DisciplineInv(Next(cfg, s, e))
  {
    if e.Deliver? {
      DequeueKeepsWellFormed(s.mem, e.now, cfg.visibility);
    }
    hide WellFormed, DequeueMem, EncodeRecord, Encodable, EncodeFrame;
  }

  lemma EventKeepsDiscipline(cfg: Config, s: Sys, e: Event)
    requires Inv(cfg, s) && DisciplineInv(s) && Enabled(cfg, s, e) && Disciplined(cfg, s, e)
    ensures DisciplineInv(Next(cfg, s, e))
  {
    hide Inv, Enabled, Next, WellFormed, Disciplined;
    match e
    case Commit(_) => CommitKeepsDiscipline(cfg, s, e);
    case Finish(_) =>
      FinishIs(cfg, s, e);
      FinishKeepsWellFormed(cfg, s, e);
    case CrashRestart(_, _, _) => RestartIsDisciplined(cfg, s, e);
    case _ => QuietKeepsDiscipline(cfg, s, e);
  }

  /**
    * In every disciplined run, restarts included, ready has no duplicates, ready and in-flight IDs are disjoint and
    * together are exactly index, index and dlq are disjoint, and ready is a heap.
    */
  lemma {:induction false} DisciplinedRunsStayWellFormed(cfg: Config, s: Sys, es: seq<Event>)
    requires Inv(cfg, s) && DisciplineInv(s) && RunOf(cfg, s, es, Disciplined)
    ensures DisciplineInv(Final(cfg, s, es, Disciplined))
    decreases |es|
  {
    if es != [] {
      EventKeepsInv(cfg, s, es[0]);
      EventKeepsDiscipline(cfg, s, es[0]);
      DisciplinedRunsStayWellFormed(cfg, Next(cfg, s, es[0]), es[1..]);
    }
  }

  /** No heap key changes under the heap: a task that stays on it through a disciplined step keeps its rank. */
  lemma RanksStay(cfg: Config, s: Sys, e: Event, id: Id)
    requires Inv(cfg, s) && DisciplineInv(s) && Enabled(cfg, s, e) && !e.CrashRestart? && id in s.mem.ready
    ensures RankOf(Next(cfg, s, e).mem.tasks, id) == RankOf(s.mem.tasks, id)
  {
    hide ReadyHeap.Push, ReadyHeap.Pop, ReadyHeap.Ordered, LogInv, IdInv, EncodeRecord, Frames, EncodeFrame;
    InReady(s.mem.ready, s.mem.index - s.mem.inflight);
    if e.Commit? {
      assert s.log[s.calls[e.c].pos].id !in s.mem.tasks;
    }
  }

  // --- Dequeue against a scan of the ready tasks ---

  predicate Due(m: Mem, id: Id, now: Time) {
    id in m.tasks && m.tasks[id].availableAt <= now
  }

  /**
    * Looking at the root alone is as good as scanning every ready task: Dequeue hands out a task exactly when some
    * ready task is due, and the one it hands out is due and minimal by (AvailableAt, EnqueuedAt).
    */
  lemma DequeueAgreesWithScan(m: Mem, now: Time)
    requires WellFormed(m)
    ensures RootDue(m, now) <==> exists id :: id in m.ready && Due(m, id, now)
    ensures RootDue(m, now) ==>
              && m.ready[0] in m.index && m.ready[0] !in m.inflight && Due(m, m.ready[0], now)
              && forall id :: id in m.ready ==> !Less(RankOf(m.tasks, id), RankOf(m.tasks, m.ready[0]))
  {
    InReady(m.ready, m.index - m.inflight);
    forall id | id in m.ready
      ensures !Less(RankOf(m.tasks, id), RankOf(m.tasks, m.ready[0]))
    {
      var j :| 0 <= j < |m.ready| && m.ready[j] == id;
      ReadyHeap.RootIsMinimum(m.tasks, m.ready, j);
    }
    if m.ready != [] {
      assert m.ready[0] in m.ready;
    }
  }

  // --- why the discipline is needed ---

  /** Acking a task that is ready, not leased, leaves its entry on the heap: it will be handed out again. */
  lemma AckOfReadyLeavesStaleEntry(m: Mem, id: Id)
    requires WellFormed(m) && id in m.index && id !in m.inflight
    ensures var m' := AckMem(m, id); id in m'.ready && id !in m'.index && !Partitioned(m')
  {
    InReady(m.ready, m.index - m.inflight);
    var m' := AckMem(m, id);
    assert id in m'.ready;
    if multiset(m'.ready) == multiset(m'.index - m'.inflight) {
      InReady(m'.ready, m'.index - m'.inflight);
    }
  }

  /** Retrying a task that is ready puts it on the heap twice. */
  lemma RetryOfReadyDuplicates(m: Mem, id: Id, availableAt: Time)
    requires WellFormed(m) && id in m.index && id !in m.inflight
    ensures multiset(RetryMem(m, id, availableAt).ready)[id] == 2 && !Partitioned(RetryMem(m, id, availableAt))
  {
    var m' := RetryMem(m, id, availableAt);
    assert id in multiset(m.index - m.inflight);
    ReadyHeap.PushPermutes(m'.tasks, m.ready, id);
  }

  /** A ready task whose retries are used up goes to the dead-letter queue, and its entry stays on the heap. */
  lemma DeathOfReadyLeavesStaleEntry(m: Mem, id: Id, failedAt: Time)
    requires WellFormed(m) && id in m.index && id !in m.inflight
    ensures var m' := DeadMem(m, id, failedAt); id in m'.ready && id in m'.dlq && !Partitioned(m')
  {
    InReady(m.ready, m.index - m.inflight);
    var m' := DeadMem(m, id, failedAt);
    assert id in m'.ready;
    if multiset(m'.ready) == multiset(m'.index - m'.inflight) {
      InReady(m'.ready, m'.index - m'.inflight);
    }
  }

  /** Exactly the calls of Ack and Retry that the discipline allows keep the partition. */
  lemma PartitionIffLeased(m: Mem, op: Op, now: Time, maxRetries: int, availableAt: Time)
    requires WellFormed(m) && Found(m, op) && (op.AckOp? || op.RetryOp?)
    ensures Partitioned(OpMem(m, OpRecord(m, op, now, maxRetries), availableAt)) <==> op.id in m.inflight
  {
    hide WellFormed, Partitioned, ReadyHeap.Push;
    var id := op.id;
    if id in m.inflight {
      LeavingKeepsWellFormed(m, id, now);
      RetryKeepsWellFormed(m, id, availableAt);
      WellFormedIsPartitioned(AckMem(m, id));
      WellFormedIsPartitioned(DeadMem(m, id, now));
      WellFormedIsPartitioned(RetryMem(m, id, availableAt));
    } else {
      AckOfReadyLeavesStaleEntry(m, id);
      DeathOfReadyLeavesStaleEntry(m, id, now);
      RetryOfReadyDuplicates(m, id, availableAt);
    }
  }

  /** The scan that the root test stands for. */
  ghost predicate SomeDue(m: Mem, now: Time) {
    exists id :: id in m.ready && Due(m, id, now)
  }

  /** Retrying the root while it is ready moves its time under the heap's feet, and leaves it at the root. */
  lemma RetriedRootStays(m: Mem, now: Time, availableAt: Time)
    requires WellFormed(m) && m.ready != []
    ensures m.ready[0] in m.tasks
    ensures var m' := RetryMem(m, m.ready[0], availableAt);
            && (RootDue(m', now) <==> availableAt <= now)
            && (forall id :: id in m'.ready <==> id in m.ready)
            && (forall id :: id in m.ready ==>
                  (Due(m', id, now) <==> if id == m.ready[0] then availableAt <= now else Due(m, id, now)))
  {
    var root := m.ready[0];
    assert root in m.ready;
    var m' := RetryMem(m, root, availableAt);
    var pushed := m.ready + [root];
    assert !ReadyHeap.Precedes(m'.tasks, pushed[|m.ready|], pushed[0]);
    ReadyHeap.UpKeepsRoot(m'.tasks, pushed, |m.ready|);
    PushMembers(m'.tasks, m.ready, root);
  }

  /**
    * Exactly when Dequeue still agrees with a scan after an unleased Retry of the root: its new time has come, or
    * no other ready task is due. Otherwise tasks that are ready and due stay so, and nothing is handed out.
    */
  lemma RetryOfRootStallsDequeue(m: Mem, now: Time, availableAt: Time)
    requires WellFormed(m) && m.ready != []
    ensures m.ready[0] in m.tasks
    ensures var m' := RetryMem(m, m.ready[0], availableAt);
            && (RootDue(m', now) ==> SomeDue(m', now))
            && ((RootDue(m', now) <==> SomeDue(m', now))
                <==> availableAt <= now || forall y :: y in m.ready && y != m.ready[0] ==> !Due(m, y, now))
  {
    RetriedRootStays(m, now, availableAt);
    hide RetryMem, RootDue, Due, WellFormed;
    var root, m' := m.ready[0], RetryMem(m, m.ready[0], availableAt);
    assert root in m.ready;
    if y :| y in m.ready && y != root && Due(m, y, now) {
      assert y in m'.ready && Due(m', y, now);
    }
    if availableAt <= now {
      assert root in m'.ready && Due(m', root, now);
    }
  }

  lemma WellFormedIsPartitioned(m: Mem)
    requires WellFormed(m)
    ensures Partitioned(m)
  {
  }
}
