/** A lease is exclusive: until it runs out, no one else is handed the task. */
module Leases {
  import opened Codec
  import opened LiveQueue
  import opened Machine
  import opened LeaseDiscipline
  import opened BoundedWork
  import opened Sweep
  import ReadyHeap

  /** The clock an event reads, if it reads it. */
  predicate ReadsBy(e: Event, until: Time) {
    match e
    case Check(_, _, _, _, now) => now <= until
    case Begin(_, now) => now <= until
    case Deliver(now) => now <= until
    case _ => true
  }

  /** The sweeper has found the lease expired, at some reading of the clock before the retry. */
  ghost predicate PassedTest(s: Sys, id: Id, now: Time) {
    exists v: Visit :: v.id == id && v.now <= now && Expired(s.mem, v)
  }

  /**
    * A disciplined step of one process, at a time no later than until, in which the worker does not give the task back:
    * only the sweeper retries it, and only past its own lease test.
    */
  ghost predicate UnderLease(cfg: Config, s: Sys, e: Event, id: Id, until: Time) {
    && Disciplined(cfg, s, e) && !e.CrashRestart? && ReadsBy(e, until)
    && (e.Begin? && e.op == RetryOp(id) ==> PassedTest(s, id, e.now))
  }

  ghost function LeaseOf(id: Id, until: Time): (Config, Sys, Event) -> bool {
    (cfg, s, e) => UnderLease(cfg, s, e, id, until)
  }

  /** The task is leased until then, with at most an Ack on its way; or it has been acked. */
  ghost predicate Exclusive(s: Sys, id: Id, until: Time) {
    && id in s.mem.tasks
    && if id in s.mem.inflight
       then s.mem.tasks[id].leaseUntil == until && (OnHold(s, id) ==> s.holder.value.op.AckOp?)
       else id !in s.mem.index && id !in s.mem.dlq && !OnHold(s, id)
  }

  ghost predicate OnHold(s: Sys, id: Id) {
    s.holder.Some? && s.holder.value.op.id == id
  }

  lemma NotOnReady(s: Sys, id: Id, until: Time)
    requires WellFormed(s.mem) && Exclusive(s, id, until)
    ensures id !in s.mem.ready
  {
    InReady(s.mem.ready, s.mem.index - s.mem.inflight);
  }

  lemma DeliverIsElsewhere(cfg: Config, s: Sys, e: Event, id: Id, until: Time)
    requires DisciplineInv(s) && Exclusive(s, id, until) && Enabled(cfg, s, e) && e.Deliver?
    ensures Exclusive(Next(cfg, s, e), id, until) && !Delivers(s, e, id)
  {
    NotOnReady(s, id, until);
    hide WellFormed, ReadyHeap.Pop;
    if RootDue(s.mem, e.now) {
      assert s.mem.ready[0] in s.mem.ready;
    }
  }

  lemma BeginIsElsewhere(cfg: Config, s: Sys, e: Event, id: Id, until: Time)
    requires DisciplineInv(s) && Exclusive(s, id, until) && Enabled(cfg, s, e) && UnderLease(cfg, s, e, id, until)
    requires e.Begin?
    ensures Exclusive(Next(cfg, s, e), id, until)
  {
    assert s.mem.inflight <= s.mem.index && s.mem.index !! s.mem.dlq;
    hide WellFormed, EncodeRecord, Encodable;
  }

  lemma OpIsElsewhere(m: Mem, op: Op, now: Time, maxRetries: int, availableAt: Time, id: Id)
    requires Found(m, op) && id in m.tasks
    ensures var m' := OpMem(m, OpRecord(m, op, now, maxRetries), availableAt);
            && id in m'.tasks
            && (op.id != id ==>
                  && m'.tasks[id] == m.tasks[id] && (id in m'.inflight <==> id in m.inflight)
                  && (id in m'.index <==> id in m.index) && (id in m'.dlq <==> id in m.dlq))
            && (op == AckOp(id) ==> id !in m'.inflight && id !in m'.index && (id in m'.dlq <==> id in m.dlq))
  {
    hide ReadyHeap.Push;
  }

  lemma FinishIsElsewhere(cfg: Config, s: Sys, e: Event, id: Id, until: Time)
    requires Inv(cfg, s) && Exclusive(s, id, until) && Enabled(cfg, s, e) && e.Finish?
    ensures Exclusive(Next(cfg, s, e), id, until)
  {
    hide Inv, Enabled, Next, OpMem, OpRecord;
    FinishIs(cfg, s, e);
    HolderFound(cfg, s);
    var h := s.holder.value;
    OpIsElsewhere(s.mem, h.op, h.now, cfg.maxRetries, e.availableAt, id);
  }

  lemma CommitIsElsewhere(cfg: Config, s: Sys, e: Event, id: Id, until: Time)
    requires Inv(cfg, s) && Exclusive(s, id, until) && Enabled(cfg, s, e) && e.Commit?
    ensures Exclusive(Next(cfg, s, e), id, until)
  {
    hide Inv, Enabled, Next, ReadyHeap.Push;
    CommitIs(cfg, s, e);
    LoggedCallIsPending(cfg, s, e.c);
  }

  lemma StepKeepsExclusive(cfg: Config, s: Sys, e: Event, id: Id, until: Time)
    requires Inv(cfg, s) && DisciplineInv(s) && Exclusive(s, id, until)
    requires Enabled(cfg, s, e) && UnderLease(cfg, s, e, id, until)
    ensures Exclusive(Next(cfg, s, e), id, until) && !Delivers(s, e, id)
  {
    hide Inv, DisciplineInv;
    match e
    case Deliver(_) => DeliverIsElsewhere(cfg, s, e, id, until);
    case Begin(_, _) => BeginIsElsewhere(cfg, s, e, id, until);
    case Finish(_) => FinishIsElsewhere(cfg, s, e, id, until);
    case Commit(_) => CommitIsElsewhere(cfg, s, e, id, until);
    case _ => QuietDelivers(cfg, s, e);
  }

  /** No step of the run delivers the task. */
  ghost predicate NeverDelivers(cfg: Config, s: Sys, es: seq<Event>, P: (Config, Sys, Event) -> bool, id: Id)
    requires RunOf(cfg, s, es, P)
    decreases |es|
  {
    es != [] ==> !Delivers(s, es[0], id) && NeverDelivers(cfg, Next(cfg, s, es[0]), es[1..], P, id)
  }

  lemma {:induction false} ExclusiveRuns(cfg: Config, s: Sys, es: seq<Event>, id: Id, until: Time)
    requires Inv(cfg, s) && DisciplineInv(s) && Exclusive(s, id, until) && RunOf(cfg, s, es, LeaseOf(id, until))
    ensures NeverDelivers(cfg, s, es, LeaseOf(id, until), id)
    decreases |es|
  {
    hide Inv, DisciplineInv, Exclusive, Enabled, Next, Delivers;
    if es != [] {
      var e := es[0];
      assert UnderLease(cfg, s, e, id, until);
      StepKeepsExclusive(cfg, s, e, id, until);
      EventKeepsInv(cfg, s, e);
      EventKeepsDiscipline(cfg, s, e);
      ExclusiveRuns(cfg, Next(cfg, s, e), es[1..], id, until);
    }
  }

  lemma DeliveredIsExclusive(cfg: Config, s: Sys, t: Time)
    requires DisciplineInv(s) && Enabled(cfg, s, Deliver(t)) && RootDue(s.mem, t)
    ensures Exclusive(Next(cfg, s, Deliver(t)), s.mem.ready[0], t + cfg.visibility)
  {
    DequeueAgreesWithScan(s.mem, t);
    hide DisciplineInv, WellFormed, ReadyHeap.Pop;
  }

  /**
    * A task delivered at time t is not delivered again by t + visibility, in any disciplined run of one process in
    * which its worker does not hand it back and the sweeper honours the lease.
    */
  lemma LeaseIsExclusive(cfg: Config, s: Sys, t: Time, es: seq<Event>)
    requires Inv(cfg, s) && DisciplineInv(s) && Enabled(cfg, s, Deliver(t)) && RootDue(s.mem, t)
    requires RunOf(cfg, Next(cfg, s, Deliver(t)), es, LeaseOf(s.mem.ready[0], t + cfg.visibility))
    ensures var id := s.mem.ready[0];
            NeverDelivers(cfg, Next(cfg, s, Deliver(t)), es, LeaseOf(id, t + cfg.visibility), id)
  {
    hide Inv, DisciplineInv, Exclusive, RunOf, NeverDelivers, Next, Enabled, LeaseOf;
    var id, until := s.mem.ready[0], t + cfg.visibility;
    DeliveredIsExclusive(cfg, s, t);
    EventKeepsInv(cfg, s, Deliver(t));
    EventKeepsDiscipline(cfg, s, Deliver(t));
    ExclusiveRuns(cfg, Next(cfg, s, Deliver(t)), es, id, until);
  }
}
