/** A task's status says where the queue has it. */
module Statuses {
  import opened Codec
  import opened Tasks
  import opened LiveQueue
  import opened Replay
  import Recovery
  import RecoveryOrder
  import opened Machine
  import opened LeaseDiscipline
  import opened BoundedWork
  import opened Outcomes
  import ReadyHeap

  /** In flight while leased, ready while live and not leased, dead in the dead-letter queue. */
  ghost predicate StatusId(m: Mem, id: Id) {
    && (id in m.index ==> id in m.tasks && m.tasks[id].status == if id in m.inflight then StateInflight else StateReady)
    && (id in m.dlq ==> id in m.tasks && m.tasks[id].status == StateDead)
  }

  ghost predicate StatusInv(m: Mem) {
    forall id :: StatusId(m, id)
  }

  lemma OpKeepsStatus(m: Mem, op: Op, now: Time, maxRetries: int, availableAt: Time)
    requires WellFormed(m) && StatusInv(m) && Found(m, op)
    ensures StatusInv(OpMem(m, OpRecord(m, op, now, maxRetries), availableAt))
  {
    OpIsDone(m, op, now, maxRetries, availableAt);
    assert m.inflight <= m.index && m.index !! m.dlq;
    var m' := OpMem(m, OpRecord(m, op, now, maxRetries), availableAt);
    hide OpMem, OpRecord, WellFormed;
    forall id
      ensures StatusId(m', id)
    {
      assert StatusId(m, id);
      DoneKeepsStatus(m, m', op, now, availableAt, maxRetries, id);
    }
  }

  lemma DoneKeepsStatus(m: Mem, m': Mem, op: Op, now: Time, availableAt: Time, maxRetries: int, id: Id)
    requires Done(m, m', op, now, availableAt, maxRetries) && StatusId(m, id) && Found(m, op)
    requires m.inflight <= m.index && m.index !! m.dlq
    ensures StatusId(m', id)
  {
    assert SameElsewhere(m, m', op.id);
  }

  lemma DequeueKeepsStatus(m: Mem, now: Time, visibility: Time)
    requires WellFormed(m) && StatusInv(m)
    ensures StatusInv(DequeueMem(m, now, visibility))
  {
    var m' := DequeueMem(m, now, visibility);
    if RootDue(m, now) {
      DequeueAgreesWithScan(m, now);
      DequeueDelivers(m, now, visibility);
      assert m.ready[0] !in m.dlq;
      hide WellFormed, DequeueMem;
      forall id
        ensures StatusId(m', id)
      {
        assert StatusId(m, id);
      }
    }
  }

  lemma CommitKeepsStatus(m: Mem, x: Id, t: Task)
    requires WellFormed(m) && StatusInv(m) && x !in m.tasks && t.status == StateReady
    ensures StatusInv(CommitEnqueue(m, x, t))
  {
    assert x !in m.inflight && x !in m.dlq;
    hide WellFormed, ReadyHeap.Push;
    forall id
      ensures StatusId(CommitEnqueue(m, x, t), id)
    {
      assert StatusId(m, id);
    }
  }

  /** Replay leaves nothing in flight: what is live is ready, what is dead is dead. */
  ghost predicate ReplayedId(m: Mem, id: Id) {
    && (id in m.index ==> id in m.tasks && m.tasks[id].status == StateReady)
    && (id in m.dlq ==> id in m.tasks && m.tasks[id].status == StateDead)
    && !(id in m.index && id in m.dlq)
  }

  lemma {:induction false} ReplayedStatus(log: seq<Record>, clock: seq<Time>)
    requires |log| == |clock| && Recovery.DistinctEnqueues(log) && Recovery.NoDequeues(log)
    requires ReplayLog(log, clock).Some?
    ensures forall id :: ReplayedId(ReplayLog(log, clock).value, id)
  {
    if log != [] {
      var n := |log| - 1;
      RecoveryOrder.LastStep(log, clock);
      ReplayedStatus(log[..n], clock[..n]);
      assert log[n] in log;
      var m := ReplayLog(log[..n], clock[..n]).value;
      ApplyKeepsStatus(m, log[n], clock[n]);
    }
  }

  lemma ApplyKeepsStatus(m: Mem, r: Record, now: Time)
    requires (forall id :: ReplayedId(m, id)) && ApplyRecord(m, r, now).Some? && !r.Dequeue?
    requires r.Enqueue? ==> r.id !in m.tasks
    ensures forall id :: ReplayedId(ApplyRecord(m, r, now).value, id)
  {
    hide Drop;
    forall id
      ensures ReplayedId(ApplyRecord(m, r, now).value, id)
    {
      assert ReplayedId(m, id) && ReplayedId(m, r.id);
    }
  }

  lemma RestartHasStatus(cfg: Config, s: Sys, e: Event)
    requires Inv(cfg, s) && Enabled(cfg, s, e) && e.CrashRestart?
    ensures StatusInv(Next(cfg, s, e).mem)
  {
    hide Inv, Enabled, Next, EncodeAll, WellFormed;
    RestartIs(cfg, s, e);
    LogIsProduced(cfg, s);
    PrefixFacts(s.log, e.k);
    var log := s.log[..e.k];
    Recovery.RecoveryRedelivers(log, e.clock, LatestOf(e.clock));
    var m, m' := ReplayLog(log, e.clock).value, Next(cfg, s, e).mem;
    ReplayedStatus(log, e.clock);
    hide ReplayLog, ReadyHeap.Init;
    forall id
      ensures StatusId(m', id)
    {
      assert ReplayedId(m, id);
    }
  }

  /** Every disciplined step keeps it, restarts included. */
  lemma EventKeepsStatus(cfg: Config, s: Sys, e: Event)
    requires Inv(cfg, s) && DisciplineInv(s) && StatusInv(s.mem) && Enabled(cfg, s, e)
    ensures StatusInv(Next(cfg, s, e).mem)
  {
    hide Inv, StatusInv, WellFormed, OpMem, OpRecord, CommitEnqueue, DequeueMem, Recover;
    match e
    case Deliver(now) => DequeueKeepsStatus(s.mem, now, cfg.visibility);
    case Finish(availableAt) =>
      FinishIs(cfg, s, e);
      HolderFound(cfg, s);
      var h := s.holder.value;
      OpKeepsStatus(s.mem, h.op, h.now, cfg.maxRetries, availableAt);
    case Commit(c) =>
      CommitIs(cfg, s, e);
      LoggedCallIsPending(cfg, s, c);
      CallIsReady(cfg, s, c);
      CommitKeepsStatus(s.mem, s.calls[c].id, s.calls[c].task);
    case CrashRestart(_, _, _) => RestartHasStatus(cfg, s, e);
    case _ => QuietDelivers(cfg, s, e);
  }

  lemma CallIsReady(cfg: Config, s: Sys, c: nat)
    requires Inv(cfg, s) && InPhase(s, c, true)
    ensures s.calls[c].task.status == StateReady
  {
    hide Sound, LogInv, IdInv, HolderInv, PendingInv;
  }

  /** In every disciplined run, restarts included, every task's status says where it is. */
  lemma {:induction false} StatusesAgree(cfg: Config, s: Sys, es: seq<Event>)
    requires Inv(cfg, s) && DisciplineInv(s) && StatusInv(s.mem) && RunOf(cfg, s, es, Disciplined)
    ensures StatusInv(Final(cfg, s, es, Disciplined).mem)
    decreases |es|
  {
    hide Inv, DisciplineInv, StatusInv, Enabled, Next, Disciplined;
    if es != [] {
      EventKeepsInv(cfg, s, es[0]);
      EventKeepsDiscipline(cfg, s, es[0]);
      EventKeepsStatus(cfg, s, es[0]);
      StatusesAgree(cfg, Next(cfg, s, es[0]), es[1..]);
    }
  }
}
