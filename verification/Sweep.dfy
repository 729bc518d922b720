/** queue.go: one Sweeper pass over the in-flight tasks. */
module Sweep {
  import opened Codec
  import opened Tasks
  import opened LiveQueue
  import opened Machine
  import opened LeaseDiscipline
  import ReadyHeap

  /** One iteration: the entry visited, the clock at the lease test, and the two values retryLocked draws. */
  datatype Visit = Visit(id: Id, now: Time, failedAt: Time, availableAt: Time)

  /** The clock does not go back: lease tests between start and end, each before the failure and next time it draws. */
  ghost predicate Timed(vs: seq<Visit>, start: Time, end: Time) {
    forall i :: 0 <= i < |vs| ==> start <= vs[i].now <= end && vs[i].now <= vs[i].failedAt <= vs[i].availableAt
  }

  /** The lease test; the entry being visited is still in the map. */
  predicate Expired(m: Mem, v: Visit) {
    v.id in m.inflight && v.id in m.tasks && m.tasks[v.id].leaseUntil < v.now
  }

  /** The iteration when the append succeeds. */
  function SweepOne(maxRetries: int, m: Mem, v: Visit): Mem {
    if Expired(m, v) && Found(m, RetryOp(v.id))
    then OpMem(m, OpRecord(m, RetryOp(v.id), v.failedAt, maxRetries), v.availableAt)
    else m
  }

  lemma VisitIs(maxRetries: int, m: Mem, v: Visit)
    requires v.id in m.inflight && v.id in m.tasks
    ensures var m' := SweepOne(maxRetries, m, v);
            && (v.now <= m.tasks[v.id].leaseUntil ==> m' == m)
            && (m.tasks[v.id].leaseUntil < v.now && Found(m, RetryOp(v.id)) ==>
                  m' == OpMem(m, OpRecord(m, RetryOp(v.id), v.failedAt, maxRetries), v.availableAt))
            && m.inflight - {v.id} <= m'.inflight
  {
    hide ReadyHeap.Push;
  }

  function SweepAll(maxRetries: int, m: Mem, vs: seq<Visit>): Mem
    decreases |vs|
  {
    if vs == [] then m else SweepAll(maxRetries, SweepOne(maxRetries, m, vs[0]), vs[1..])
  }

  /** The record an iteration logs, if it logs one, fits its fields. */
  ghost predicate VisitFits(maxRetries: int, m: Mem, v: Visit) {
    Expired(m, v) && Found(m, RetryOp(v.id)) ==> Encodable(OpRecord(m, RetryOp(v.id), v.failedAt, maxRetries))
  }

  ghost predicate SweepFits(maxRetries: int, m: Mem, vs: seq<Visit>) {
    vs != [] ==>
      && SweepFits(maxRetries, m, vs[..|vs| - 1])
      && VisitFits(maxRetries, SweepAll(maxRetries, m, vs[..|vs| - 1]), vs[|vs| - 1])
  }

  lemma SweepFitsSnoc(maxRetries: int, m: Mem, vs: seq<Visit>, v: Visit)
    requires SweepFits(maxRetries, m, vs + [v])
    ensures SweepFits(maxRetries, m, vs) && VisitFits(maxRetries, SweepAll(maxRetries, m, vs), v)
  {
    hide SweepAll, VisitFits;
    assert (vs + [v])[..|vs|] == vs;
  }

  ghost predicate DistinctIds(vs: seq<Visit>) {
    forall i, j :: 0 <= i < j < |vs| ==> vs[i].id != vs[j].id
  }

  /** Everything the queue holds under one ID. */
  datatype Slot = Slot(task: Task, live: bool, dead: bool, leased: bool, ready: nat)

  ghost function SlotOf(m: Mem, id: Id): Slot
    requires id in m.tasks
  {
    Slot(m.tasks[id], id in m.index, id in m.dlq, id in m.inflight, multiset(m.ready)[id])
  }

  /** What an iteration does to the slot it visits. */
  ghost function SweptSlot(maxRetries: int, s: Slot, v: Visit): Slot {
    if !(s.leased && s.live && s.task.leaseUntil < v.now) then s
    else if s.task.retries + 1 > maxRetries then
      Slot(s.task.(status := StateDead, failedAt := v.failedAt, retries := s.task.retries + 1),
           false, true, false, s.ready)
    else
      Slot(s.task.(status := StateReady, availableAt := v.availableAt, retries := s.task.retries + 1),
           true, s.dead, false, s.ready + 1)
  }

  lemma SweepOneSlots(maxRetries: int, m: Mem, v: Visit, id: Id)
    requires id in m.tasks
    ensures var m' := SweepOne(maxRetries, m, v);
            && id in m'.tasks
            && SlotOf(m', id) == if id == v.id then SweptSlot(maxRetries, SlotOf(m, id), v) else SlotOf(m, id)
  {
    if Expired(m, v) && Found(m, RetryOp(v.id)) && m.tasks[v.id].retries + 1 <= maxRetries {
      var m' := RetryMem(m, v.id, v.availableAt);
      ReadyHeap.PushPermutes(m'.tasks, m.ready, v.id);
      hide ReadyHeap.Push;
      assert SweepOne(maxRetries, m, v) == m';
    }
  }

  /** Each entry is handled once, by its own iteration, although the pass deletes from the map it walks. */
  lemma {:induction false} SweepAllSlots(maxRetries: int, m: Mem, vs: seq<Visit>, id: Id)
    requires id in m.tasks && DistinctIds(vs)
    ensures var m' := SweepAll(maxRetries, m, vs);
            && id in m'.tasks
            && (forall i :: 0 <= i < |vs| && vs[i].id == id ==>
                  SlotOf(m', id) == SweptSlot(maxRetries, SlotOf(m, id), vs[i]))
            && ((forall i :: 0 <= i < |vs| ==> vs[i].id != id) ==> SlotOf(m', id) == SlotOf(m, id))
    decreases |vs|
  {
    hide SlotOf, SweptSlot, SweepOne;
    if vs != [] {
      SweepOneSlots(maxRetries, m, vs[0], id);
      SweepAllSlots(maxRetries, SweepOne(maxRetries, m, vs[0]), vs[1..], id);
    }
  }

  lemma SweepOneKeepsWellFormed(maxRetries: int, m: Mem, v: Visit)
    requires WellFormed(m)
    ensures WellFormed(SweepOne(maxRetries, m, v))
    ensures forall id :: id in SweepOne(maxRetries, m, v).tasks <==> id in m.tasks
  {
    if Expired(m, v) && Found(m, RetryOp(v.id)) {
      hide WellFormed, ReadyHeap.Push;
      LeavingKeepsWellFormed(m, v.id, v.failedAt);
      RetryKeepsWellFormed(m, v.id, v.availableAt);
    }
  }

  lemma {:induction false} SweepKeepsWellFormed(maxRetries: int, m: Mem, vs: seq<Visit>)
    requires WellFormed(m)
    ensures WellFormed(SweepAll(maxRetries, m, vs))
    ensures forall id :: id in SweepAll(maxRetries, m, vs).tasks <==> id in m.tasks
    decreases |vs|
  {
    hide WellFormed, SweepOne;
    if vs != [] {
      SweepOneKeepsWellFormed(maxRetries, m, vs[0]);
      SweepKeepsWellFormed(maxRetries, SweepOne(maxRetries, m, vs[0]), vs[1..]);
    }
  }

  /** vs visits every in-flight entry once, in whatever order the map yields them. */
  ghost predicate Covers(m: Mem, vs: seq<Visit>) {
    && DistinctIds(vs)
    && (forall i :: 0 <= i < |vs| ==> vs[i].id in m.inflight)
    && (forall id :: id in m.inflight ==> exists i :: 0 <= i < |vs| && vs[i].id == id)
  }

  /** The fields no retry touches. */
  predicate SameOtherwise(t: Task, t': Task) {
    t'.key == t.key && t'.payload == t.payload && t'.priority == t.priority && t'.enqueuedAt == t.enqueuedAt
    && t'.leaseUntil == t.leaseUntil
  }

  /** A lease that had run out: one more retry, and back on ready or into the dead-letter queue. */
  ghost predicate Reclaimed(maxRetries: int, m: Mem, m': Mem, id: Id, start: Time)
    requires id in m.tasks && id in m'.tasks
  {
    && id !in m'.inflight
    && m'.tasks[id].retries == m.tasks[id].retries + 1
    && SameOtherwise(m.tasks[id], m'.tasks[id])
    && if m.tasks[id].retries + 1 > maxRetries
       then id in m'.dlq && id !in m'.index && id !in m'.ready && m'.tasks[id].status == StateDead
            && start <= m'.tasks[id].failedAt
       else id in m'.index && id !in m'.dlq && multiset(m'.ready)[id] == 1 && m'.tasks[id].status == StateReady
            && start <= m'.tasks[id].availableAt
  }

  /**
    * One pass with no append failure, its clock between start and end: every lease that expired before the pass began
    * is reclaimed exactly once, every lease still valid at the end is untouched, so is every task not in flight, and
    * the live and dead tasks together are the same as before.
    */
  lemma SweeperPass(maxRetries: int, m: Mem, vs: seq<Visit>, start: Time, end: Time)
    requires WellFormed(m) && Covers(m, vs)
    requires Timed(vs, start, end)
    ensures var m' := SweepAll(maxRetries, m, vs);
            && WellFormed(m')
            && (forall id :: id in m.tasks ==> id in m'.tasks && PassFor(maxRetries, m, m', id, start, end))
            && SameTotal(m, m')
  {
    var m' := SweepAll(maxRetries, m, vs);
    SweepKeepsWellFormed(maxRetries, m, vs);
    assert m.inflight <= m.tasks.Keys;
    assert SameTotal(m, m') by {
      hide SweepAll, Covers;
      forall id | id in m.tasks
        ensures id in m'.index || id in m'.dlq <==> id in m.index || id in m.dlq
      {
        SlotsAfterSweep(maxRetries, m, vs, id);
      }
      TotalsAgree(m, m');
    }
    hide WellFormed, SweepAll, SlotOf;
    forall id | id in m.tasks
      ensures id in m'.tasks && PassFor(maxRetries, m, m', id, start, end)
    {
      SlotsAfterSweep(maxRetries, m, vs, id);
      PassForEach(maxRetries, m, m', vs, id, start, end);
    }
  }

  /**
    * The lease Dequeue grants is the one the sweeper honours: a task delivered at time t is untouched by every pass
    * that ends by t + visibility, and reclaimed by the first that starts later.
    */
  lemma LeaseIsHonoured(
    maxRetries: int, m: Mem, t: Time, visibility: Time, vs: seq<Visit>, start: Time, end: Time)
    requires WellFormed(m) && RootDue(m, t) && Covers(DequeueMem(m, t, visibility), vs)
    requires Timed(vs, start, end)
    ensures var id, m1 := m.ready[0], DequeueMem(m, t, visibility);
            var m' := SweepAll(maxRetries, m1, vs);
            && id in m1.tasks && id in m1.inflight && id in m'.tasks
            && (end <= t + visibility ==> SlotOf(m', id) == SlotOf(m1, id))
            && (t + visibility < start ==> Reclaimed(maxRetries, m1, m', id, start))
  {
    DequeueAgreesWithScan(m, t);
    DequeueKeepsWellFormed(m, t, visibility);
    hide WellFormed, ReadyHeap.Pop, SweepAll, SlotOf, Reclaimed;
    SweeperPass(maxRetries, DequeueMem(m, t, visibility), vs, start, end);
  }

  ghost predicate SameTotal(m: Mem, m': Mem) {
    m'.index + m'.dlq == m.index + m.dlq && |m'.index| + |m'.dlq| == |m.index| + |m.dlq|
  }

  lemma TotalsAgree(m: Mem, m': Mem)
    requires WellFormed(m) && WellFormed(m') && m'.tasks.Keys == m.tasks.Keys
    requires forall id :: id in m.tasks ==> (id in m'.index || id in m'.dlq <==> id in m.index || id in m.dlq)
    ensures SameTotal(m, m')
  {
    assert m'.index + m'.dlq == m.index + m.dlq;
    assert |m'.index + m'.dlq| == |m'.index| + |m'.dlq|;
    assert |m.index + m.dlq| == |m.index| + |m.dlq|;
  }

  /** What a pass owes one task. */
  ghost predicate PassFor(maxRetries: int, m: Mem, m': Mem, id: Id, start: Time, end: Time)
    requires id in m.tasks && id in m'.tasks
  {
    && (id in m.inflight && m.tasks[id].leaseUntil < start ==> Reclaimed(maxRetries, m, m', id, start))
    && (id in m.inflight && end <= m.tasks[id].leaseUntil ==> SlotOf(m', id) == SlotOf(m, id))
    && (id !in m.inflight ==> SlotOf(m', id) == SlotOf(m, id))
  }

  lemma PassForEach(maxRetries: int, m: Mem, m': Mem, vs: seq<Visit>, id: Id, start: Time, end: Time)
    requires WellFormed(m) && WellFormed(m') && Covers(m, vs) && id in m.tasks
    requires Timed(vs, start, end)
    requires SweptOrKept(maxRetries, m, m', vs, id)
    ensures PassFor(maxRetries, m, m', id, start, end)
  {
    if id in m.inflight {
      if m.tasks[id].leaseUntil < start {
        ExpiredIsReclaimed(maxRetries, m, m', vs, id, start, end);
      }
      var i :| 0 <= i < |vs| && vs[i].id == id;
      hide WellFormed, Reclaimed;
    }
  }

  ghost predicate SweptOrKept(maxRetries: int, m: Mem, m': Mem, vs: seq<Visit>, id: Id)
    requires id in m.tasks
  {
    && id in m'.tasks
    && (forall i :: 0 <= i < |vs| && vs[i].id == id ==> SlotOf(m', id) == SweptSlot(maxRetries, SlotOf(m, id), vs[i]))
    && ((forall i :: 0 <= i < |vs| ==> vs[i].id != id) ==> SlotOf(m', id) == SlotOf(m, id))
  }

  lemma SlotsAfterSweep(maxRetries: int, m: Mem, vs: seq<Visit>, id: Id)
    requires WellFormed(m) && Covers(m, vs) && id in m.tasks
    ensures var m' := SweepAll(maxRetries, m, vs);
            SweptOrKept(maxRetries, m, m', vs, id) && (id in m'.index || id in m'.dlq <==> id in m.index || id in m.dlq)
  {
    SweepAllSlots(maxRetries, m, vs, id);
    hide SweepAll, WellFormed;
    if i :| 0 <= i < |vs| && vs[i].id == id {
      assert SlotOf(SweepAll(maxRetries, m, vs), id) == SweptSlot(maxRetries, SlotOf(m, id), vs[i]);
    }
  }

  lemma ExpiredIsReclaimed(maxRetries: int, m: Mem, m': Mem, vs: seq<Visit>, id: Id, start: Time, end: Time)
    requires WellFormed(m) && WellFormed(m') && Covers(m, vs) && id in m.inflight && m.tasks[id].leaseUntil < start
    requires Timed(vs, start, end)
    requires SweptOrKept(maxRetries, m, m', vs, id)
    ensures Reclaimed(maxRetries, m, m', id, start)
  {
    var i :| 0 <= i < |vs| && vs[i].id == id;
    assert SlotOf(m', id) == SweptSlot(maxRetries, SlotOf(m, id), vs[i]);
    InReady(m.ready, m.index - m.inflight);
    InReady(m'.ready, m'.index - m'.inflight);
  }

  /** A walk in progress: every entry has been visited once or is still to come. */
  ghost predicate Walked(entries: set<Id>, todo: set<Id>, vs: seq<Visit>) {
    && DistinctIds(vs)
    && todo <= entries
    && (forall i :: 0 <= i < |vs| ==> vs[i].id in entries && vs[i].id !in todo)
    && (forall id :: id in entries && id !in todo ==> exists i :: 0 <= i < |vs| && vs[i].id == id)
  }

  lemma WalkedSnoc(entries: set<Id>, todo: set<Id>, vs: seq<Visit>, v: Visit)
    requires Walked(entries, todo, vs) && v.id in todo
    ensures Walked(entries, todo - {v.id}, vs + [v])
  {
    forall id | id in entries && id !in todo - {v.id}
      ensures exists i :: 0 <= i < |vs + [v]| && (vs + [v])[i].id == id
    {
      if id == v.id {
        assert (vs + [v])[|vs|].id == id;
      } else {
        var i :| 0 <= i < |vs| && vs[i].id == id;
        assert (vs + [v])[i].id == id;
      }
    }
  }

  lemma {:induction false} SweepSnoc(maxRetries: int, m: Mem, vs: seq<Visit>, v: Visit)
    ensures SweepAll(maxRetries, m, vs + [v]) == SweepOne(maxRetries, SweepAll(maxRetries, m, vs), v)
    decreases |vs|
  {
    if vs == [] {
      assert [] + [v] == [v];
    } else {
      assert (vs + [v])[1..] == vs[1..] + [v];
      SweepSnoc(maxRetries, SweepOne(maxRetries, m, vs[0]), vs[1..], v);
    }
  }

  lemma WalkedAll(m: Mem, vs: seq<Visit>)
    requires Walked(m.inflight, {}, vs)
    ensures Covers(m, vs)
  {
  }

  /** A pass under way from m: memory is now m', the clock read between start and end. */
  ghost predicate InPass(maxRetries: int, m: Mem, m': Mem, todo: set<Id>, vs: seq<Visit>, start: Time, end: Time) {
    && Walked(m.inflight, todo, vs)
    && m' == SweepAll(maxRetries, m, vs)
    && todo <= m'.inflight
    && start <= end && Timed(vs, start, end)
  }

  lemma PassBegins(maxRetries: int, m: Mem, start: Time)
    ensures InPass(maxRetries, m, m, m.inflight, [], start, start)
  {
  }

  lemma PassGoesOn(
    maxRetries: int, m: Mem, m1: Mem, m2: Mem, todo: set<Id>, vs: seq<Visit>, start: Time, end: Time, v: Visit)
    requires InPass(maxRetries, m, m1, todo, vs, start, end) && v.id in todo
    requires end <= v.now <= v.failedAt <= v.availableAt
    requires m2 == SweepOne(maxRetries, m1, v) && m1.inflight - {v.id} <= m2.inflight
    ensures InPass(maxRetries, m, m2, todo - {v.id}, vs + [v], start, v.now)
  {
    hide SweepOne, Walked;
    SweepSnoc(maxRetries, m, vs, v);
    WalkedSnoc(m.inflight, todo, vs, v);
  }

  lemma InPassIsLeased(maxRetries: int, m: Mem, m': Mem, todo: set<Id>, vs: seq<Visit>, start: Time, end: Time)
    requires InPass(maxRetries, m, m', todo, vs, start, end)
    ensures todo <= m'.inflight && m' == SweepAll(maxRetries, m, vs)
  {
  }

  lemma PassEnds(maxRetries: int, m: Mem, m': Mem, vs: seq<Visit>, start: Time, end: Time)
    requires InPass(maxRetries, m, m', {}, vs, start, end)
    ensures m' == SweepAll(maxRetries, m, vs) && Covers(m, vs)
    ensures start <= end && Timed(vs, start, end)
  {
    WalkedAll(m, vs);
  }

  lemma PassPauses(maxRetries: int, m: Mem, m': Mem, todo: set<Id>, vs: seq<Visit>, start: Time, end: Time, later: Time)
    requires InPass(maxRetries, m, m', todo, vs, start, end) && end <= later
    ensures m' == SweepAll(maxRetries, m, vs)
    ensures start <= later && Timed(vs, start, later)
  {
  }
}
