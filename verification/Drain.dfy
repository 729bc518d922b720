/** workload.go: drain's inner loop, over the queue and the ledger as objects. */
module Drain {
  import opened ByteStrings
  import opened Codec
  import opened Framing
  import opened Durability
  import opened LiveQueue
  import opened QueueObject
  import opened Outcomes
  import opened EffectLedger
  import opened LeaseDiscipline
  import ReadyHeap

  /** The task at the root is delivered and acked, if it is due. */
  function DrainOne(m: Mem, now: Time, visibility: Time): Mem {
    if !RootDue(m, now) || m.ready[0] !in m.tasks then m else
    AckMem(DequeueMem(m, now, visibility), m.ready[0])
  }

  /** One round per reading of the clock. */
  function Drained(m: Mem, times: seq<Time>, visibility: Time): Mem {
    if times == [] then m else
    DrainOne(Drained(m, times[..|times| - 1], visibility), times[|times| - 1], visibility)
  }

  function RootKey(m: Mem): Key {
    if m.ready != [] && m.ready[0] in m.tasks then m.tasks[m.ready[0]].key else []
  }

  /** The ledger after those rounds. */
  function Applied(m: Mem, ts: Tallies, times: seq<Time>, visibility: Time): Tallies {
    if times == [] then ts else
    var n := |times| - 1;
    Tally(Applied(m, ts, times[..n], visibility), RootKey(Drained(m, times[..n], visibility)))
  }

  lemma DrainedSnoc(m: Mem, ts: Tallies, times: seq<Time>, t: Time, visibility: Time)
    ensures Drained(m, times + [t], visibility) == DrainOne(Drained(m, times, visibility), t, visibility)
    ensures Applied(m, ts, times + [t], visibility) ==
            Tally(Applied(m, ts, times, visibility), RootKey(Drained(m, times, visibility)))
  {
    assert (times + [t])[..|times|] == times;
  }

  /** So many appends, all answered nil. */
  function Nils(n: nat): (answers: seq<bool>)
    ensures |answers| == n && forall i :: 0 <= i < n ==> answers[i]
  {
    seq(n, _ => true)
  }

  /** Every round had a task to deliver. */
  ghost predicate EachDue(m: Mem, times: seq<Time>, visibility: Time) {
    forall i :: 0 <= i < |times| ==> RootDue(Drained(m, times[..i], visibility), times[i])
  }

  lemma NothingDrained(m: Mem, ts: Tallies, visibility: Time)
    ensures Drained(m, [], visibility) == m && Applied(m, ts, [], visibility) == ts && EachDue(m, [], visibility)
  {
  }

  lemma EachDueSnoc(m: Mem, times: seq<Time>, t: Time, visibility: Time)
    requires EachDue(m, times, visibility) && RootDue(Drained(m, times, visibility), t)
    ensures EachDue(m, times + [t], visibility)
  {
    hide Drained, RootDue;
    forall i | 0 <= i <= |times|
      ensures RootDue(Drained(m, (times + [t])[..i], visibility), (times + [t])[i])
    {
      assert (times + [t])[..i] == times[..i];
      assert times[..|times|] == times;
    }
  }

  lemma DrainShrinks(m: Mem, now: Time, visibility: Time)
    requires RootDue(m, now) && m.ready[0] in m.tasks
    ensures |DrainOne(m, now, visibility).ready| == |m.ready| - 1
  {
    ReadyHeap.PopPermutes(m.tasks, m.ready);
    hide ReadyHeap.Pop;
    var p := ReadyHeap.Pop(m.tasks, m.ready);
    assert |multiset(p)| == |p| && |multiset(m.ready)| == |m.ready|;
  }

  /** The task at the root has left index: an Ack of it finds nothing. */
  ghost predicate RootUnlisted(m: Mem) {
    m.ready != [] && m.ready[0] !in m.index
  }

  lemma DeliveryKeepsIndex(m: Mem, now: Time, visibility: Time)
    ensures DequeueMem(m, now, visibility).index == m.index
  {
    hide ReadyHeap.Pop;
  }

  lemma SameKey(m: Mem, key: Key, payload: Bytes, enqueuedAt: Time)
    requires m.ready != [] && m.ready[0] in m.tasks && Carries(m.tasks[m.ready[0]], key, payload, enqueuedAt)
    ensures key == RootKey(m)
  {
  }

  /** Dequeue, apply, Ack: one round. done when nothing is due; ok unless the Ack is refused, or finds no task. */
  method Round(q: Queue, store: EffectStore, now: Time) returns (done: bool, ok: bool)
    requires q.Valid() && q.wal.Valid() && store.Valid()
    modifies q`inflight, q`index, q`log, q.heap, q.wal, q.known.Values, store
    ensures q.Valid() && q.wal.Valid() && store.Valid()
    ensures done <==> !RootDue(old(q.View()), now)
    ensures !done ==> old(q.View()).ready != [] && old(q.View()).ready[0] in old(q.View()).tasks
    ensures done ==> ok && q.View() == old(q.View())
    ensures done ==> store.applied == old(store.applied) && store.total == old(store.total)
    ensures !done ==> store.applied == Tally(old(store.applied), RootKey(old(q.View())))
    ensures !done ==> store.total == old(store.total) + 1
    ensures !done ==> q.View() == if ok then DrainOne(old(q.View()), now, q.visibility)
                                  else DequeueMem(old(q.View()), now, q.visibility)
    ensures Asked(old(q.wal.answers), q.wal.answers, ok, RootUnlisted(old(q.View())))
    ensures ok ==> q.wal.answers == old(q.wal.answers) + Nils(if done then 0 else 1)
  {
    hide Queue.View, Queue.Valid, ReadyHeap.Pop, Leased, AckMem, RecoverableAs, EncodeFrame, EncodeRecord, Sum;
    hide Delivered, Done, Carries;
    ghost var m := q.View();
    DeliveryKeepsIndex(m, now, q.visibility);
    var t := q.Dequeue(now);
    if t == null {
      return true, true;
    }
    done := false;
    assert t.key == RootKey(m) by { SameKey(m, t.key, t.payload, t.enqueuedAt); }
    hide RootKey;
    store.Apply(t.key);
    ok := q.Ack(t.id);
  }

  /**
    * The inner loop: rounds until nothing is due. It ends because each round takes a task off the heap. The queue and
    * the ledger have seen exactly one delivery, one effect and one ack per round; after an Ack that fails, one
    * delivery and one effect more.
    */
  method DrainReady(q: Queue, store: EffectStore, start: Time)
    returns (ok: bool, acked: nat, end: Time, ghost times: seq<Time>)
    requires q.Valid() && q.wal.Valid() && store.Valid()
    modifies q`inflight, q`index, q`log, q.heap, q.wal, q.known.Values, store
    ensures q.Valid() && q.wal.Valid() && store.Valid()
    ensures acked == |times| && start <= end && (forall t :: t in times ==> start <= t <= end)
    ensures EachDue(old(q.View()), times, q.visibility)
    ensures ok ==> q.View() == Drained(old(q.View()), times, q.visibility) && !RootDue(q.View(), end)
    ensures ok ==> store.applied == Applied(old(q.View()), old(store.applied), times, q.visibility)
    ensures !ok ==>
              var m := Drained(old(q.View()), times, q.visibility);
              && RootDue(m, end) && q.View() == DequeueMem(m, end, q.visibility)
              && store.applied == Tally(Applied(old(q.View()), old(store.applied), times, q.visibility), RootKey(m))
    ensures store.total == old(store.total) + acked + (if ok then 0 else 1)
    ensures Asked(old(q.wal.answers), q.wal.answers, ok,
                  RootUnlisted(Drained(old(q.View()), times, q.visibility)))
    ensures ok ==> q.wal.answers == old(q.wal.answers) + Nils(acked)
  {
    hide Queue.View, Queue.Valid, Sum, DrainOne, Drained, Applied, RootKey, RootDue, EachDue, DequeueMem, RootUnlisted;
    ok, acked, end, times := true, 0, start, [];
    ghost var m, ts := q.View(), store.applied;
    NothingDrained(m, ts, q.visibility);
    while true
      invariant q.Valid() && q.wal.Valid() && store.Valid()
      invariant acked == |times| && start <= end && (forall t :: t in times ==> start <= t <= end)
      invariant EachDue(m, times, q.visibility)
      invariant q.View() == Drained(m, times, q.visibility) && store.applied == Applied(m, ts, times, q.visibility)
      invariant store.total == old(store.total) + acked && ok
      invariant q.wal.answers == old(q.wal.answers) + Nils(acked)
      decreases |q.View().ready|
    {
      var now: Time :| end <= now;
      end := now;
      ghost var m1 := q.View();
      var done: bool;
      ghost var a1 := q.wal.answers;
      done, ok := Round(q, store, now);
      AskedOn(old(q.wal.answers), a1, q.wal.answers, ok, RootUnlisted(m1));
      if done || !ok {
        return;
      }
      DrainShrinks(m1, now, q.visibility);
      DrainedSnoc(m, ts, times, now, q.visibility);
      EachDueSnoc(m, times, now, q.visibility);
      acked, times := acked + 1, times + [now];
    }
  }

  // --- what a drain leaves behind ---

  /** m' is m with some ready tasks, all due by end, acked; the rest of the queue is as it was. */
  ghost predicate SomeDueGone(m: Mem, m': Mem, end: Time) {
    && WellFormed(m') && m'.inflight == m.inflight && m'.dlq == m.dlq && m'.keys == m.keys && m'.index <= m.index
    && (forall id :: id in m'.index ==> id in m.tasks && id in m'.tasks && m'.tasks[id] == m.tasks[id])
    && (forall id :: id in m.index && id !in m'.index ==> id !in m.inflight && Due(m, id, end))
  }

  lemma RoundAcksRoot(m: Mem, now: Time, visibility: Time)
    requires WellFormed(m) && RootDue(m, now)
    ensures m.ready[0] in m.index && m.ready[0] !in m.inflight && Due(m, m.ready[0], now)
    ensures var m' := DrainOne(m, now, visibility);
            && WellFormed(m') && m'.inflight == m.inflight && m'.dlq == m.dlq && m'.keys == m.keys
            && m'.index == m.index - {m.ready[0]}
            && (forall id :: id in m.tasks && id != m.ready[0] ==> id in m'.tasks && m'.tasks[id] == m.tasks[id])
  {
    DequeueAgreesWithScan(m, now);
    DequeueKeepsWellFormed(m, now, visibility);
    hide WellFormed, ReadyHeap.Pop;
    LeavingKeepsWellFormed(DequeueMem(m, now, visibility), m.ready[0], 0);
  }

  lemma OneMoreGone(m: Mem, m1: Mem, now: Time, visibility: Time, end: Time)
    requires WellFormed(m1) && SomeDueGone(m, m1, end) && RootDue(m1, now) && now <= end
    ensures SomeDueGone(m, DrainOne(m1, now, visibility), end)
    ensures |DrainOne(m1, now, visibility).index| == |m1.index| - 1
  {
    hide WellFormed, DrainOne;
    RoundAcksRoot(m1, now, visibility);
    var m2, root := DrainOne(m1, now, visibility), m1.ready[0];
    assert root in m.index && root !in m.inflight && Due(m, root, end);
  }

  lemma {:induction false} RoundsAckDue(m: Mem, times: seq<Time>, visibility: Time, end: Time)
    requires WellFormed(m) && EachDue(m, times, visibility) && forall t :: t in times ==> t <= end
    ensures SomeDueGone(m, Drained(m, times, visibility), end)
    ensures |Drained(m, times, visibility).index| == |m.index| - |times|
    decreases |times|
  {
    if times != [] {
      var n := |times| - 1;
      var before := times[..n];
      assert times[n] in times && RootDue(Drained(m, before, visibility), times[n]);
      assert EachDue(m, before, visibility) by { EachDuePrefix(m, times, n, visibility); }
      hide WellFormed, DrainOne, EachDue, RootDue;
      assert forall t :: t in before ==> t in times;
      RoundsAckDue(m, before, visibility, end);
      assert WellFormed(Drained(m, before, visibility));
      hide SomeDueGone;
      OneMoreGone(m, Drained(m, before, visibility), times[n], visibility, end);
    } else {
      assert forall id :: id in m.index ==> id in m.tasks;
    }
  }

  lemma EachDuePrefix(m: Mem, times: seq<Time>, n: nat, visibility: Time)
    requires EachDue(m, times, visibility) && n <= |times|
    ensures EachDue(m, times[..n], visibility)
  {
    hide Drained, RootDue;
    assert forall i :: 0 <= i < n ==> times[..n][..i] == times[..i];
  }

  /**
    * In a well-formed queue, draining until nothing is due acks exactly the ready tasks due by then, one per round:
    * a live task is still there afterwards if and only if it was leased out or not due yet, and is unchanged.
    */
  lemma DrainAcksExactlyTheDue(m: Mem, times: seq<Time>, visibility: Time, end: Time)
    requires WellFormed(m) && EachDue(m, times, visibility) && forall t :: t in times ==> t <= end
    requires !RootDue(Drained(m, times, visibility), end)
    ensures var m' := Drained(m, times, visibility);
            && WellFormed(m') && m'.inflight == m.inflight && m'.dlq == m.dlq && m'.keys == m.keys
            && |m'.index| == |m.index| - |times|
            && (forall id :: id in m'.index <==> id in m.index && (id in m.inflight || !Due(m, id, end)))
            && (forall id :: id in m'.index ==> id in m'.tasks && id in m.tasks && m'.tasks[id] == m.tasks[id])
  {
    RoundsAckDue(m, times, visibility, end);
    var m' := Drained(m, times, visibility);
    DequeueAgreesWithScan(m', end);
    InReady(m'.ready, m'.index - m'.inflight);
    forall id | id in m'.index
      ensures id in m.inflight || !Due(m, id, end)
    {
      if id !in m'.inflight {
        assert id in m'.ready;
      }
    }
  }
}
