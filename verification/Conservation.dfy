/** What no interleaving and no crash can lose, duplicate or miscount. */
module Conservation {
  import opened Codec
  import opened Framing
  import opened LiveQueue
  import opened Replay
  import opened Recovery
  import opened GroupCommit
  import opened Machine
  import opened Agreement
  import opened CrashSafety
  import opened KeyOrder
  import ReadyHeap

  // --- every task is in exactly one place ---

  /** The IDs ever committed are the disjoint union of index, dlq, acked and purged. */
  ghost predicate Conserved(s: Sys) {
    forall id :: ConservedId(s, id)
  }

  ghost predicate ConservedId(s: Sys, id: Id) {
    && (id in s.committed <==> id in s.mem.index || id in s.mem.dlq || id in s.acked || id in s.purged)
    && !(id in s.mem.index && id in s.mem.dlq)
    && (id in s.acked ==> id !in s.mem.index && id !in s.mem.dlq && id !in s.purged)
    && (id in s.purged ==> id !in s.mem.index && id !in s.mem.dlq)
  }

  /** An enqueue on its way is not committed yet. */
  ghost predicate NotYetCommitted(s: Sys) {
    && s.committed <= s.used
    && (forall p :: 0 <= p < |s.log| && p !in s.done && s.log[p].Enqueue? ==> s.log[p].id !in s.committed)
    && (forall c :: c in s.calls && s.calls[c].Checked? ==> s.calls[c].id !in s.committed)
  }

  ghost predicate ConservationInv(s: Sys) {
    Conserved(s) && NotYetCommitted(s)
  }

  lemma UncommittedStep(cfg: Config, s: Sys, e: Event)
    requires Inv(cfg, s) && ConservationInv(s) && Enabled(cfg, s, e) && !e.CrashRestart?
    ensures NotYetCommitted(Next(cfg, s, e))
  {
    hide EncodeRecord, ReadyHeap.Push, ReadyHeap.Pop, Frames, EncodeFrame, WriterInv, Conserved, Sound;
    match e
    case Commit(c) =>
      var Logged(id, task, pos) := s.calls[c];
      forall c' | c' in s.calls && s.calls[c'].Checked?
        ensures s.calls[c'].id != id
      {
        assert Enqueued(s.log, id);
      }
    case Begin(op, now) => NotAnEnqueue(s.mem, op, now, cfg.maxRetries);
    case _ =>
  }

  lemma ConservedCommit(cfg: Config, s: Sys, e: Event)
    requires Inv(cfg, s) && ConservationInv(s) && Enabled(cfg, s, e) && e.Commit?
    ensures Conserved(Next(cfg, s, e))
  {
    hide EncodeRecord, ReadyHeap.Push, WriterInv, Sound, IdInv, HolderInv;
    var Logged(id, task, pos) := s.calls[e.c];
    assert s.log[pos].id == id && id !in s.committed;
    forall id
      ensures ConservedId(Next(cfg, s, e), id)
    {
      assert ConservedId(s, id);
    }
  }

  lemma ConservedFinish(cfg: Config, s: Sys, e: Event)
    requires Inv(cfg, s) && ConservationInv(s) && Enabled(cfg, s, e) && e.Finish?
    ensures Conserved(Next(cfg, s, e))
  {
    hide EncodeRecord, ReadyHeap.Push, WriterInv, IdInv, CallInv, PendingInv;
    forall id
      ensures ConservedId(Next(cfg, s, e), id)
    {
      assert ConservedId(s, id);
    }
  }

  lemma ConservedQuiet(cfg: Config, s: Sys, e: Event)
    requires Conserved(s) && Enabled(cfg, s, e)
    requires e.Check? || e.Send? || e.Begin? || e.Deliver? || e.Disk?
    ensures Conserved(Next(cfg, s, e))
  {
    hide EncodeRecord, ReadyHeap.Pop, Frames, EncodeFrame;
    forall id
      ensures ConservedId(Next(cfg, s, e), id)
    {
      assert ConservedId(s, id);
    }
  }

  /** Where a restart finds a task, by where memory had it. */
  ghost predicate Fate(s: Sys, s': Sys, k: nat, id: Id) {
    && (id in s.mem.tasks ==>
          if Survived(s, k) && s.holder.value.op.id == id then
            match s.holder.value.record
            case Ack(_) => id in s.mem.index && id !in s'.mem.index && id !in s'.mem.dlq
            case Retry(_) => id in s.mem.index && id in s'.mem.index && id !in s'.mem.dlq
            case Dead(_, _, _) => id in s.mem.index && id !in s'.mem.index && id in s'.mem.dlq
            case Requeue(_) => id in s.mem.dlq && id in s'.mem.index && id !in s'.mem.dlq
            case Purge(_) => id in s.mem.dlq && id !in s'.mem.index && id !in s'.mem.dlq
            case _ => false
          else (id in s'.mem.index <==> id in s.mem.index) && (id in s'.mem.dlq <==> id in s.mem.dlq))
    && (id !in s.mem.tasks ==> id !in s'.mem.dlq && (id in s'.mem.index ==> PendingEnqueue(s, id)))
  }

  /** What the waiting operation found when it took the lock. */
  lemma HolderPlace(cfg: Config, s: Sys)
    requires Inv(cfg, s) && s.holder.Some?
    ensures var h := s.holder.value;
            && h.record.id == h.op.id
            && (h.op.AckOp? <==> h.record.Ack?) && (h.op.PurgeOp? <==> h.record.Purge?)
            && (h.record.Ack? || h.record.Retry? || h.record.Dead? ==> h.op.id in s.mem.index && h.op.id !in s.mem.dlq)
            && (h.record.Requeue? || h.record.Purge? ==> h.op.id in s.mem.dlq && h.op.id !in s.mem.index)
            && !h.record.Enqueue? && !h.record.Dequeue?
  {
    hide LogInv, IdInv, CallInv, PendingInv;
  }

  lemma FateOfKnown(cfg: Config, s: Sys, s': Sys, k: nat, id: Id)
    requires Inv(cfg, s) && k <= |s.log| && id in s.mem.tasks
    requires WithWaiter(s, k, id).Some? && SameEntry(WithWaiter(s, k, id).value, DurableOf(s'.mem), id)
    ensures Fate(s, s', k, id)
  {
    hide PendingEnqueue;
    MembersOf(s.mem);
    MembersOf(s'.mem);
    if s.holder.Some? {
      HolderPlace(cfg, s);
    }
    hide DurableOf, Inv;
  }

  lemma FateOf(cfg: Config, s: Sys, s': Sys, k: nat, id: Id)
    requires Inv(cfg, s) && k <= |s.log|
    requires EffectsFrom(DurableOf(s.mem), Pending(s.log, s.done, k)) == Some(DurableOf(s'.mem))
    ensures Fate(s, s', k, id)
  {
    hide EffectsFrom, Pending, PendingEnqueue, WithWaiter, SameEntry;
    TaskComesBack(cfg, s, k, DurableOf(s'.mem), id);
    MembersOf(s'.mem);
    if id in s.mem.tasks {
      FateOfKnown(cfg, s, s', k, id);
    }
    hide DurableOf, Inv;
  }

  lemma ConservedRestart(cfg: Config, s: Sys, e: Event)
    requires Inv(cfg, s) && Agrees(s) && ConservationInv(s) && Enabled(cfg, s, e) && e.CrashRestart?
    requires s.wal.replied <= e.k
    ensures Conserved(Next(cfg, s, e))
  {
    hide EncodeRecord, Frames, EncodeAll, Recover, DurableOf, EffectsFrom, Agrees;
    RestartRecovers(cfg, s, e);
    var s' := Next(cfg, s, e);
    if s.holder.Some? {
      HolderPlace(cfg, s);
    }
    assert Sound(s.mem);
    hide Inv;
    forall id
      ensures ConservedId(s', id)
    {
      FateOf(cfg, s, s', e.k, id);
      assert ConservedId(s, id);
    }
  }

  lemma UncommittedRestart(cfg: Config, s: Sys, e: Event)
    requires Inv(cfg, s) && NotYetCommitted(s) && Enabled(cfg, s, e) && e.CrashRestart?
    ensures NotYetCommitted(Next(cfg, s, e))
  {
    hide EncodeRecord, Frames, EncodeAll, Recover, WriterInv;
    EventKeepsInv(cfg, s, e);
  }

  lemma EventConserves(cfg: Config, s: Sys, e: Event)
    requires Inv(cfg, s) && ConservationInv(s) && Enabled(cfg, s, e)
    requires e.CrashRestart? ==> Agrees(s) && s.wal.replied <= e.k
    ensures ConservationInv(Next(cfg, s, e))
  {
    match e
    case CrashRestart(_, _, _) =>
      ConservedRestart(cfg, s, e);
      UncommittedRestart(cfg, s, e);
    case Commit(_) =>
      ConservedCommit(cfg, s, e);
      UncommittedStep(cfg, s, e);
    case Finish(_) =>
      ConservedFinish(cfg, s, e);
      UncommittedStep(cfg, s, e);
    case _ =>
      ConservedQuiet(cfg, s, e);
      UncommittedStep(cfg, s, e);
  }

  /** In every crash-free run, whatever its interleaving and whoever acks what, no task is lost or revived. */
  lemma {:induction false} EveryRunConserves(cfg: Config, s: Sys, es: seq<Event>)
    requires Inv(cfg, s) && ConservationInv(s) && RunOf(cfg, s, es, NoCrash)
    ensures ConservationInv(Final(cfg, s, es, NoCrash))
    ensures s.acked <= Final(cfg, s, es, NoCrash).acked && s.purged <= Final(cfg, s, es, NoCrash).purged
    decreases |es|
  {
    if es != [] {
      EventKeepsInv(cfg, s, es[0]);
      EventConserves(cfg, s, es[0]);
      TerminalStays(cfg, s, es[0]);
      EveryRunConserves(cfg, Next(cfg, s, es[0]), es[1..]);
    }
  }

  /** The same across any number of restarts, for lasting runs. */
  lemma {:induction false} RestartsConserve(cfg: Config, s: Sys, es: seq<Event>)
    requires Inv(cfg, s) && Agrees(s) && ConservationInv(s) && RunOf(cfg, s, es, Lasting)
    ensures ConservationInv(Final(cfg, s, es, Lasting))
    ensures s.acked <= Final(cfg, s, es, Lasting).acked && s.purged <= Final(cfg, s, es, Lasting).purged
    decreases |es|
  {
    if es != [] {
      EventKeepsInv(cfg, s, es[0]);
      EventKeepsAgreement(cfg, s, es[0]);
      EventConserves(cfg, s, es[0]);
      TerminalStays(cfg, s, es[0]);
      RestartsConserve(cfg, Next(cfg, s, es[0]), es[1..]);
    }
  }

  lemma TerminalStays(cfg: Config, s: Sys, e: Event)
    requires Enabled(cfg, s, e)
    ensures s.acked <= Next(cfg, s, e).acked && s.purged <= Next(cfg, s, e).purged
  {
    hide EncodeRecord, ReadyHeap.Push, ReadyHeap.Pop, Frames, EncodeFrame, Recover;
  }

  /** A successful Ack is the only one its task ever gets. */
  lemma AckedOnce(cfg: Config, s: Sys, e: Event)
    requires Inv(cfg, s) && ConservationInv(s) && Enabled(cfg, s, e) && e.Finish? && s.holder.value.op.AckOp?
    ensures var id := s.holder.value.op.id;
            id !in s.acked && id in Next(cfg, s, e).acked && id !in Next(cfg, s, e).mem.index
  {
    HolderPlace(cfg, s);
    hide Inv, ReadyHeap.Push;
    assert ConservedId(s, s.holder.value.op.id);
  }
}
