/** The order of delivery: by time of availability, then by time of enqueue; also after a recovery. */
module Order {
  import opened Codec
  import opened Tasks
  import opened LiveQueue
  import opened Replay
  import opened Machine
  import opened LeaseDiscipline
  import opened BoundedWork
  import opened Leases
  import opened Outcomes
  import ReadyHeap

  /** Available sooner, or at the same time and enqueued before. */
  predicate Earlier(t: Task, u: Task) {
    t.availableAt < u.availableAt || (t.availableAt == u.availableAt && t.enqueuedAt < u.enqueuedAt)
  }

  predicate NotLater(t: Task, u: Task) {
    t.availableAt < u.availableAt || (t.availableAt == u.availableAt && t.enqueuedAt <= u.enqueuedAt)
  }

  /** id is on ready, and no task there is earlier. */
  ghost predicate Foremost(m: Mem, id: Id) {
    && id in m.ready && id in m.tasks
    && forall x :: x in m.ready ==> x in m.tasks && NotLater(m.tasks[id], m.tasks[x])
  }

  /** What Dequeue hands out, in the terms of the tasks' own fields: the foremost task, unless nothing is due. */
  lemma DequeueTakesForemost(m: Mem, now: Time)
    requires WellFormed(m)
    ensures RootDue(m, now) ==> Foremost(m, m.ready[0]) && m.tasks[m.ready[0]].availableAt <= now
    ensures !RootDue(m, now) ==> forall x :: x in m.ready ==> x in m.tasks && now < m.tasks[x].availableAt
  {
    DequeueAgreesWithScan(m, now);
    InReady(m.ready, m.index - m.inflight);
    assert forall x :: x in m.ready ==> x in m.tasks;
    if RootDue(m, now) {
      assert m.ready[0] in m.ready;
      forall x | x in m.ready
        ensures NotLater(m.tasks[m.ready[0]], m.tasks[x])
      {
        assert !Less(RankOf(m.tasks, x), RankOf(m.tasks, m.ready[0]));
      }
    } else {
      assert forall x :: x in m.ready ==> !Due(m, x, now);
    }
  }

  /** A revived task is due at once: at any time since the zero time something is handed out, nothing before it. */
  lemma RevivedIsHandedOut(m: Mem, id: Id, now: Time)
    requires WellFormed(m) && id in m.dlq && ZERO_TIME <= now
    ensures id in m.tasks
    ensures var m' := RequeueMem(m, id);
            && id in m'.ready && Due(m', id, now) && RootDue(m', now)
            && forall x :: x in m'.ready && x in m'.tasks && ZERO_TIME <= m'.tasks[x].availableAt ==>
                 m'.tasks[id].availableAt <= m'.tasks[x].availableAt
  {
    RequeueKeepsWellFormed(m, id);
    RequeueIsDone(m, id);
    PushMembers(RequeueMem(m, id).tasks, m.ready, id);
    var m' := RequeueMem(m, id);
    assert id in m'.ready;
    hide WellFormed, ReadyHeap.Push;
    DequeueAgreesWithScan(m', now);
  }

  // --- over runs ---

  /** A disciplined step of one process. */
  ghost predicate InPlace(cfg: Config, s: Sys, e: Event) {
    Disciplined(cfg, s, e) && !e.CrashRestart?
  }

  /** Both tasks are on ready, and a is the earlier one. */
  ghost predicate Before(m: Mem, a: Id, b: Id) {
    && a in m.ready && b in m.ready && a in m.tasks && b in m.tasks
    && Earlier(m.tasks[a], m.tasks[b])
  }

  /** They are still there, as they were. */
  ghost predicate StillWaiting(m: Mem, m': Mem, id: Id) {
    id in m.ready && id in m.tasks ==> id in m'.ready && id in m'.tasks && m'.tasks[id] == m.tasks[id]
  }

  lemma DeliveryLeavesOthers(m: Mem, now: Time, visibility: Time, id: Id)
    requires WellFormed(m) && RootDue(m, now) && id != m.ready[0]
    ensures StillWaiting(m, DequeueMem(m, now, visibility), id)
  {
    DequeueAgreesWithScan(m, now);
    DequeueDelivers(m, now, visibility);
    hide WellFormed, ReadyHeap.Pop;
    var m' := DequeueMem(m, now, visibility);
    assert id in m.ready <==> id in multiset(m.ready);
    assert id in m'.ready <==> id in multiset(m'.ready);
  }

  lemma OpLeavesWaiting(m: Mem, op: Op, now: Time, maxRetries: int, availableAt: Time, id: Id)
    requires Found(m, op) && op.id != id
    ensures StillWaiting(m, OpMem(m, OpRecord(m, op, now, maxRetries), availableAt), id)
  {
    OpIsDone(m, op, now, maxRetries, availableAt);
    var m' := OpMem(m, OpRecord(m, op, now, maxRetries), availableAt);
    hide OpMem, OpRecord;
    assert SameElsewhere(m, m', op.id);
    assert id in m.ready <==> id in multiset(m.ready);
    assert id in m'.ready <==> id in multiset(m'.ready);
  }

  lemma CommitLeavesWaiting(m: Mem, x: Id, t: Task, id: Id)
    requires x !in m.tasks
    ensures StillWaiting(m, CommitEnqueue(m, x, t), id)
  {
    PushMembers(m.tasks[x := t], m.ready, x);
    hide ReadyHeap.Push;
  }

  /** In a disciplined step a task leaves ready only by being delivered. */
  lemma StepLeavesWaiting(cfg: Config, s: Sys, e: Event, id: Id)
    requires Inv(cfg, s) && DisciplineInv(s) && Enabled(cfg, s, e) && InPlace(cfg, s, e)
    requires id in s.mem.ready && !Delivers(s, e, id)
    ensures StillWaiting(s.mem, Next(cfg, s, e).mem, id)
  {
    InReady(s.mem.ready, s.mem.index - s.mem.inflight);
    assert id in s.mem.index && id !in s.mem.inflight && id !in s.mem.dlq;
    hide Inv, WellFormed, OpMem, OpRecord, CommitEnqueue, DequeueMem;
    if e.Deliver? {
      if RootDue(s.mem, e.now) {
        DeliveryLeavesOthers(s.mem, e.now, cfg.visibility, id);
      } else {
        QuietDelivers(cfg, s, e);
      }
    } else if e.Finish? {
      HolderFound(cfg, s);
      var h := s.holder.value;
      FinishIs(cfg, s, e);
      assert h.op.id != id;
      OpLeavesWaiting(s.mem, h.op, h.now, cfg.maxRetries, e.availableAt, id);
    } else if e.Commit? {
      CommitIs(cfg, s, e);
      LoggedCallIsPending(cfg, s, e.c);
      CommitLeavesWaiting(s.mem, s.calls[e.c].id, s.calls[e.c].task, id);
    } else {
      QuietDelivers(cfg, s, e);
    }
  }

  lemma LaterIsNotDelivered(s: Sys, e: Event, a: Id, b: Id)
    requires WellFormed(s.mem) && Before(s.mem, a, b)
    ensures !Delivers(s, e, b)
  {
    if Delivers(s, e, b) {
      DequeueTakesForemost(s.mem, e.now);
    }
  }

  /** The earlier of two tasks on ready comes first: a run that does not deliver it does not deliver the other. */
  lemma {:induction false} EarlierComesFirst(cfg: Config, s: Sys, es: seq<Event>, a: Id, b: Id)
    requires Inv(cfg, s) && DisciplineInv(s) && Before(s.mem, a, b) && RunOf(cfg, s, es, InPlace)
    requires NeverDelivers(cfg, s, es, InPlace, a)
    ensures NeverDelivers(cfg, s, es, InPlace, b)
    decreases |es|
  {
    hide Inv, Enabled, Next, WellFormed, Delivers, Earlier;
    if es != [] {
      var e := es[0];
      LaterIsNotDelivered(s, e, a, b);
      StepLeavesWaiting(cfg, s, e, a);
      StepLeavesWaiting(cfg, s, e, b);
      EventKeepsInv(cfg, s, e);
      EventKeepsDiscipline(cfg, s, e);
      EarlierComesFirst(cfg, Next(cfg, s, e), es[1..], a, b);
    }
  }

  // --- tasks never retried ---

  /** A live task without a retry has been due since the zero time. */
  ghost predicate FreshInv(m: Mem) {
    forall id :: FreshId(m, id)
  }

  ghost predicate FreshId(m: Mem, id: Id) {
    id in m.index ==>
      && id in m.tasks && 0 <= m.tasks[id].retries
      && (m.tasks[id].retries == 0 ==> m.tasks[id].availableAt == ZERO_TIME)
  }

  lemma {:induction false} ReplayedIsFresh(log: seq<Record>, clock: seq<Time>)
    requires |log| == |clock| && ReplayLog(log, clock).Some?
    ensures FreshInv(ReplayLog(log, clock).value)
  {
    if log != [] {
      var n := |log| - 1;
      ReplayedIsFresh(log[..n], clock[..n]);
      ApplyKeepsFresh(ReplayLog(log[..n], clock[..n]).value, log[n], clock[n]);
    }
  }

  lemma ApplyKeepsFresh(m: Mem, r: Record, now: Time)
    requires FreshInv(m) && ApplyRecord(m, r, now).Some?
    ensures FreshInv(ApplyRecord(m, r, now).value)
  {
    hide Drop;
    forall id
      ensures FreshId(ApplyRecord(m, r, now).value, id)
    {
      assert FreshId(m, id);
    }
  }

  lemma OpKeepsFresh(m: Mem, op: Op, now: Time, maxRetries: int, availableAt: Time)
    requires FreshInv(m) && Found(m, op)
    ensures FreshInv(OpMem(m, OpRecord(m, op, now, maxRetries), availableAt))
  {
    OpIsDone(m, op, now, maxRetries, availableAt);
    var m' := OpMem(m, OpRecord(m, op, now, maxRetries), availableAt);
    hide OpMem, OpRecord;
    forall id
      ensures FreshId(m', id)
    {
      assert FreshId(m, id);
      assert id != op.id ==> (id in m'.index <==> id in m.index);
    }
  }

  lemma CommitKeepsFresh(m: Mem, x: Id, t: Task)
    requires FreshInv(m) && FreshTask(t)
    ensures FreshInv(CommitEnqueue(m, x, t))
  {
    hide ReadyHeap.Push;
    forall id
      ensures FreshId(CommitEnqueue(m, x, t), id)
    {
      assert FreshId(m, id);
    }
  }

  lemma DequeueKeepsFresh(m: Mem, now: Time, visibility: Time)
    requires FreshInv(m)
    ensures FreshInv(DequeueMem(m, now, visibility))
  {
    hide ReadyHeap.Pop;
    forall id
      ensures FreshId(DequeueMem(m, now, visibility), id)
    {
      assert FreshId(m, id);
    }
  }

  /** Every step of every run keeps it, restarts included. */
  lemma EventKeepsFresh(cfg: Config, s: Sys, e: Event)
    requires Inv(cfg, s) && FreshInv(s.mem) && Enabled(cfg, s, e)
    ensures FreshInv(Next(cfg, s, e).mem)
  {
    hide Inv, FreshInv, OpMem, OpRecord, CommitEnqueue, DequeueMem, Recover;
    match e
    case Deliver(now) => DequeueKeepsFresh(s.mem, now, cfg.visibility);
    case Finish(availableAt) =>
      FinishIs(cfg, s, e);
      HolderFound(cfg, s);
      var h := s.holder.value;
      OpKeepsFresh(s.mem, h.op, h.now, cfg.maxRetries, availableAt);
    case Commit(c) =>
      CommitIs(cfg, s, e);
      CallIsFresh(cfg, s, c);
      CommitKeepsFresh(s.mem, s.calls[c].id, s.calls[c].task);
    case CrashRestart(k, _, clock) =>
      RestartIs(cfg, s, e);
      RecoveredIsFresh(s.log[..k], clock);
    case _ => QuietDelivers(cfg, s, e);
  }

  lemma {:induction false} RunStaysFresh(cfg: Config, s: Sys, es: seq<Event>, P: (Config, Sys, Event) -> bool)
    requires Inv(cfg, s) && FreshInv(s.mem) && RunOf(cfg, s, es, P)
    ensures FreshInv(Final(cfg, s, es, P).mem)
    decreases |es|
  {
    hide Inv, FreshInv, Enabled, Next;
    if es != [] {
      EventKeepsInv(cfg, s, es[0]);
      EventKeepsFresh(cfg, s, es[0]);
      RunStaysFresh(cfg, Next(cfg, s, es[0]), es[1..], P);
    }
  }

  lemma CallIsFresh(cfg: Config, s: Sys, c: nat)
    requires Inv(cfg, s) && InPhase(s, c, true)
    ensures FreshTask(s.calls[c].task)
  {
    hide Sound, LogInv, IdInv, HolderInv, PendingInv;
  }

  lemma RecoveredIsFresh(log: seq<Record>, clock: seq<Time>)
    requires |log| == |clock| && Recover(log, clock).Some?
    ensures FreshInv(Recover(log, clock).value)
  {
    ReplayedIsFresh(log, clock);
    hide ReplayLog, ReadyHeap.Init;
    var m, m' := ReplayLog(log, clock).value, Recover(log, clock).value;
    forall id
      ensures FreshId(m', id)
    {
      assert FreshId(m, id);
    }
  }

  /** First in, first out, among tasks never retried: of two on ready, the one enqueued before is delivered first. */
  lemma FifoAmongFresh(cfg: Config, s: Sys, es: seq<Event>, a: Id, b: Id)
    requires Inv(cfg, s) && DisciplineInv(s) && FreshInv(s.mem) && RunOf(cfg, s, es, InPlace)
    requires a in s.mem.ready && b in s.mem.ready && a in s.mem.tasks && b in s.mem.tasks
    requires s.mem.tasks[a].retries == 0 == s.mem.tasks[b].retries
    requires s.mem.tasks[a].enqueuedAt < s.mem.tasks[b].enqueuedAt && NeverDelivers(cfg, s, es, InPlace, a)
    ensures NeverDelivers(cfg, s, es, InPlace, b)
  {
    assert WellFormed(s.mem);
    InReady(s.mem.ready, s.mem.index - s.mem.inflight);
    assert FreshId(s.mem, a) && FreshId(s.mem, b);
    hide Inv, DisciplineInv, RunOf, NeverDelivers;
    EarlierComesFirst(cfg, s, es, a, b);
  }
}
