/** With no new tasks, no revivals and no restarts, a disciplined queue runs down. */
module BoundedWork {
  import opened Codec
  import opened Framing
  import opened Tasks
  import opened LiveQueue
  import opened Machine
  import opened LeaseDiscipline
  import opened Conservation
  import opened Accounting
  import ReadyHeap

  /** A disciplined step that brings no task into index: no binding Enqueue, no RequeueDead, no restart. */
  ghost predicate Winding(cfg: Config, s: Sys, e: Event) {
    && Disciplined(cfg, s, e)
    && !e.CrashRestart?
    && (e.Commit? && InPhase(s, e.c, true) ==> Bound(s.mem, s.calls[e.c].task.key))
    && (e.Finish? && s.holder.Some? ==> !s.holder.value.record.Requeue?)
  }

  /** A successful Dequeue, Ack or Retry. */
  ghost predicate Progress(s: Sys, e: Event) {
    || (e.Deliver? && RootDue(s.mem, e.now))
    || (e.Finish? && s.holder.Some? && !s.holder.value.record.Purge?)
  }

  /** Twice the attempts a live task has left, less one if an attempt is under way. */
  function Weight(cfg: Config, m: Mem, id: Id): int {
    if id !in m.tasks then 0 else
    2 * (cfg.maxRetries + 1 - m.tasks[id].retries) - (if id in m.inflight then 1 else 0)
  }

  ghost function Work(cfg: Config, m: Mem, ids: set<Id>): int {
    if ids == {} then 0 else
    var id :| id in ids;
    Weight(cfg, m, id) + Work(cfg, m, ids - {id})
  }

  lemma {:induction false} WorkWithout(cfg: Config, m: Mem, ids: set<Id>, id: Id)
    requires id in ids
    ensures Work(cfg, m, ids) == Weight(cfg, m, id) + Work(cfg, m, ids - {id})
    decreases |ids|
  {
    hide Weight;
    var x :| x in ids && Work(cfg, m, ids) == Weight(cfg, m, x) + Work(cfg, m, ids - {x});
    if x != id {
      WorkWithout(cfg, m, ids - {x}, id);
      WorkWithout(cfg, m, ids - {id}, x);
      assert ids - {x} - {id} == ids - {id} - {x};
    }
  }

  lemma {:induction false} WorkFrame(cfg: Config, m: Mem, m': Mem, ids: set<Id>)
    requires forall id :: id in ids ==> Weight(cfg, m', id) == Weight(cfg, m, id)
    ensures Work(cfg, m', ids) == Work(cfg, m, ids)
    decreases |ids|
  {
    hide Weight;
    if ids != {} {
      var x :| x in ids;
      WorkWithout(cfg, m, ids, x);
      WorkWithout(cfg, m', ids, x);
      WorkFrame(cfg, m, m', ids - {x});
    }
  }

  lemma {:induction false} WorkIsNonNegative(cfg: Config, m: Mem, ids: set<Id>)
    requires Accounted(cfg, m) && ids <= m.index
    ensures 0 <= Work(cfg, m, ids)
    decreases |ids|
  {
    if ids != {} {
      var x :| x in ids;
      WorkWithout(cfg, m, ids, x);
      assert AccountedId(cfg, m, x);
      WorkIsNonNegative(cfg, m, ids - {x});
    }
  }

  /** A change confined to one live task moves the total by that task's share. */
  lemma OneTaskChanges(cfg: Config, m: Mem, m': Mem, id: Id)
    requires id in m.index && (m'.index == m.index || m'.index == m.index - {id})
    requires forall x :: x in m.index && x != id ==> Weight(cfg, m', x) == Weight(cfg, m, x)
    ensures Work(cfg, m', m'.index) - Work(cfg, m, m.index) ==
            (if id in m'.index then Weight(cfg, m', id) else 0) - Weight(cfg, m, id)
  {
    hide Weight;
    WorkWithout(cfg, m, m.index, id);
    WorkFrame(cfg, m, m', m.index - {id});
    if id in m'.index {
      WorkWithout(cfg, m', m'.index, id);
    } else {
      assert m'.index == m.index - {id};
    }
  }

  lemma DeliverWorks(cfg: Config, m: Mem, now: Time)
    requires WellFormed(m) && RootDue(m, now)
    ensures var m' := DequeueMem(m, now, cfg.visibility);
            Work(cfg, m', m'.index) == Work(cfg, m, m.index) - 1
  {
    DequeueKeepsWellFormed(m, now, cfg.visibility);
    hide ReadyHeap.Pop, ReadyHeap.Ordered;
    OneTaskChanges(cfg, m, DequeueMem(m, now, cfg.visibility), m.ready[0]);
  }

  lemma FinishWorks(cfg: Config, s: Sys, e: Event)
    requires Inv(cfg, s) && DisciplineInv(s) && Accounted(cfg, s.mem) && 0 <= cfg.maxRetries
    requires Enabled(cfg, s, e) && e.Finish? && Winding(cfg, s, e)
    ensures var m' := Next(cfg, s, e).mem;
            Work(cfg, m', m'.index) <= Work(cfg, s.mem, s.mem.index) - (if Progress(s, e) then 1 else 0)
  {
    hide Inv, Enabled, Next, ReadyHeap.Push, ReadyHeap.Ordered;
    FinishIs(cfg, s, e);
    var h := s.holder.value;
    HolderPlace(cfg, s);
    HolderCount(cfg, s);
    var m, m' := s.mem, Next(cfg, s, e).mem;
    assert AccountedId(cfg, m, h.op.id);
    if h.record.Purge? {
      WorkFrame(cfg, m, m', m.index);
    } else {
      OneTaskChanges(cfg, m, m', h.op.id);
    }
  }

  lemma QuietWorks(cfg: Config, s: Sys, e: Event)
    requires Enabled(cfg, s, e) && Winding(cfg, s, e) && !e.Finish? && !(e.Deliver? && RootDue(s.mem, e.now))
    ensures Next(cfg, s, e).mem == s.mem
  {
    hide EncodeRecord, Frames, EncodeFrame;
  }

  /** How many steps of a run made progress. */
  ghost function Achieved(cfg: Config, s: Sys, es: seq<Event>): nat
    requires RunOf(cfg, s, es, Winding)
    decreases |es|
  {
    if es == [] then 0 else
    (if Progress(s, es[0]) then 1 else 0) + Achieved(cfg, Next(cfg, s, es[0]), es[1..])
  }

  lemma StepWorks(cfg: Config, s: Sys, e: Event)
    requires Inv(cfg, s) && DisciplineInv(s) && Accounted(cfg, s.mem) && 0 <= cfg.maxRetries
    requires Enabled(cfg, s, e) && Winding(cfg, s, e)
    ensures var m' := Next(cfg, s, e).mem;
            Work(cfg, m', m'.index) <= Work(cfg, s.mem, s.mem.index) - (if Progress(s, e) then 1 else 0)
  {
    if e.Finish? {
      FinishWorks(cfg, s, e);
    } else if e.Deliver? && RootDue(s.mem, e.now) {
      DeliverWorks(cfg, s.mem, e.now);
    } else {
      QuietWorks(cfg, s, e);
    }
  }

  /** A winding run makes at most as many successful Dequeue, Ack and Retry steps as there was work at its start. */
  lemma {:induction false} WorkIsBounded(cfg: Config, s: Sys, es: seq<Event>)
    requires Inv(cfg, s) && DisciplineInv(s) && Accounted(cfg, s.mem) && 0 <= cfg.maxRetries
    requires RunOf(cfg, s, es, Winding)
    ensures Achieved(cfg, s, es) <= Work(cfg, s.mem, s.mem.index)
    decreases |es|
  {
    if es == [] {
      WorkIsNonNegative(cfg, s.mem, s.mem.index);
    } else {
      StepWorks(cfg, s, es[0]);
      EventKeepsInv(cfg, s, es[0]);
      EventKeepsDiscipline(cfg, s, es[0]);
      AccountedStep(cfg, s, es[0]);
      WorkIsBounded(cfg, Next(cfg, s, es[0]), es[1..]);
    }
  }

  // --- one task's deliveries ---

  /** Deliveries a task may still get in this life, if it has begun, or in its first. */
  function DeliveriesLeft(cfg: Config, m: Mem, id: Id): int {
    if id !in m.tasks then cfg.maxRetries + 1
    else if id !in m.index then 0
    else cfg.maxRetries + 1 - m.tasks[id].retries - (if id in m.inflight then 1 else 0)
  }

  /** A disciplined step of one process that does not revive this task; other tasks come, go and return as they like. */
  ghost predicate OneLife(cfg: Config, s: Sys, e: Event, id: Id) {
    && Disciplined(cfg, s, e) && !e.CrashRestart?
    && (e.Finish? && s.holder.Some? ==> s.holder.value.record != Requeue(id))
  }

  ghost function LifeOf(id: Id): (Config, Sys, Event) -> bool {
    (cfg, s, e) => OneLife(cfg, s, e, id)
  }

  ghost predicate Delivers(s: Sys, e: Event, id: Id) {
    e.Deliver? && RootDue(s.mem, e.now) && s.mem.ready[0] == id
  }

  ghost function Deliveries(cfg: Config, s: Sys, es: seq<Event>, id: Id): nat
    requires RunOf(cfg, s, es, LifeOf(id))
    decreases |es|
  {
    if es == [] then 0 else
    (if Delivers(s, es[0], id) then 1 else 0) + Deliveries(cfg, Next(cfg, s, es[0]), es[1..], id)
  }

  lemma DeliverSpends(cfg: Config, m: Mem, now: Time, id: Id)
    requires WellFormed(m) && RootDue(m, now)
    ensures DeliveriesLeft(cfg, DequeueMem(m, now, cfg.visibility), id) + (if m.ready[0] == id then 1 else 0)
            == DeliveriesLeft(cfg, m, id)
  {
    DequeueKeepsWellFormed(m, now, cfg.visibility);
    hide ReadyHeap.Pop, ReadyHeap.Ordered;
  }

  lemma OpSpends(cfg: Config, m: Mem, r: Record, availableAt: Time, id: Id)
    requires r.id in m.tasks && (r.Ack? || r.Retry? || r.Dead? || r.Purge? || r.Requeue?)
    requires r.Retry? ==> r.id in m.inflight
    requires r != Requeue(id) && 0 <= DeliveriesLeft(cfg, m, r.id)
    ensures DeliveriesLeft(cfg, OpMem(m, r, availableAt), id) <= DeliveriesLeft(cfg, m, id)
  {
    hide ReadyHeap.Push;
  }

  /** A task enters with as many deliveries as it was credited with before. */
  lemma CommitSpends(cfg: Config, m: Mem, id: Id, x: Id, t: Task)
    requires WellFormed(m) && x !in m.tasks && t.retries == 0
    ensures DeliveriesLeft(cfg, CommitEnqueue(m, x, t), id) == DeliveriesLeft(cfg, m, id)
  {
    hide ReadyHeap.Push, ReadyHeap.Ordered;
  }

  lemma FinishSpends(cfg: Config, s: Sys, e: Event, id: Id)
    requires Inv(cfg, s) && DisciplineInv(s) && Accounted(cfg, s.mem) && 0 <= cfg.maxRetries
    requires Enabled(cfg, s, e) && OneLife(cfg, s, e, id) && e.Finish?
    ensures DeliveriesLeft(cfg, Next(cfg, s, e).mem, id) <= DeliveriesLeft(cfg, s.mem, id)
  {
    hide Inv, Enabled, Next, WellFormed, OpMem, OpRecord;
    FinishIs(cfg, s, e);
    var h := s.holder.value;
    HolderPlace(cfg, s);
    HolderCount(cfg, s);
    HolderFound(cfg, s);
    NotAnEnqueue(s.mem, h.op, h.now, cfg.maxRetries);
    DeliveriesLeftBounds(cfg, s.mem, h.op.id);
    RetryIsLeased(s, h, cfg.maxRetries);
    OpSpends(cfg, s.mem, h.record, e.availableAt, id);
  }

  lemma RetryIsLeased(s: Sys, h: Holder, maxRetries: int)
    requires HolderLeased(s) && s.holder == Some(h) && Found(s.mem, h.op)
    requires h.record == OpRecord(s.mem, h.op, h.now, maxRetries)
    ensures h.record.Retry? ==> h.record.id in s.mem.inflight
  {
  }

  lemma StepSpends(cfg: Config, s: Sys, e: Event, id: Id)
    requires Inv(cfg, s) && DisciplineInv(s) && Accounted(cfg, s.mem) && 0 <= cfg.maxRetries
    requires Enabled(cfg, s, e) && OneLife(cfg, s, e, id)
    ensures DeliveriesLeft(cfg, Next(cfg, s, e).mem, id) + (if Delivers(s, e, id) then 1 else 0)
            <= DeliveriesLeft(cfg, s.mem, id)
  {
    hide Inv, DeliveriesLeft, DequeueMem, CommitEnqueue, WellFormed, EncodeRecord, Frames, EncodeFrame;
    if e.Deliver? && RootDue(s.mem, e.now) {
      DeliverSpends(cfg, s.mem, e.now, id);
    } else if e.Finish? {
      FinishSpends(cfg, s, e, id);
    } else if e.Commit? {
      LoggedCallIsPending(cfg, s, e.c);
      CommitSpends(cfg, s.mem, id, s.calls[e.c].id, s.calls[e.c].task);
    } else {
      QuietDelivers(cfg, s, e);
    }
  }

  lemma QuietDelivers(cfg: Config, s: Sys, e: Event)
    requires Enabled(cfg, s, e) && !e.Finish? && !e.Commit? && !e.CrashRestart?
    requires !(e.Deliver? && RootDue(s.mem, e.now))
    ensures Next(cfg, s, e).mem == s.mem
  {
    hide EncodeRecord, Frames, EncodeFrame;
  }

  /**
    * A task is delivered at most maxRetries + 1 times in one life: in every disciplined run of one process that does
    * not revive it, whatever happens to other tasks.
    */
  lemma {:induction false} DeliveriesAreBounded(cfg: Config, s: Sys, es: seq<Event>, id: Id)
    requires Inv(cfg, s) && DisciplineInv(s) && Accounted(cfg, s.mem) && 0 <= cfg.maxRetries
    requires RunOf(cfg, s, es, LifeOf(id))
    ensures Deliveries(cfg, s, es, id) <= DeliveriesLeft(cfg, s.mem, id) <= cfg.maxRetries + 1
    decreases |es|
  {
    DeliveriesLeftBounds(cfg, s.mem, id);
    hide Inv, DisciplineInv, Accounted, Enabled, Next, DeliveriesLeft, Delivers;
    if es != [] {
      var e := es[0];
      assert OneLife(cfg, s, e, id);
      StepSpends(cfg, s, e, id);
      EventKeepsInv(cfg, s, e);
      EventKeepsDiscipline(cfg, s, e);
      AccountedStep(cfg, s, e);
      DeliveriesAreBounded(cfg, Next(cfg, s, e), es[1..], id);
    }
  }

  lemma DeliveriesLeftBounds(cfg: Config, m: Mem, id: Id)
    requires Accounted(cfg, m) && 0 <= cfg.maxRetries
    ensures 0 <= DeliveriesLeft(cfg, m, id) <= cfg.maxRetries + 1
  {
    assert AccountedId(cfg, m, id);
  }
}
