/** queue.go: what replaying a produced log rebuilds. */
module Recovery {
  import opened Codec
  import opened Tasks
  import opened LiveQueue
  import opened Replay
  import ReadyHeap

  /** uuid.New never repeats: no two enqueue records carry the same ID. */
  ghost predicate DistinctEnqueues(log: seq<Record>) {
    forall i, j :: 0 <= i < j < |log| && log[i].Enqueue? && log[j].Enqueue? ==> log[i].id != log[j].id
  }

  /** Dequeue is never logged. */
  ghost predicate NoDequeues(log: seq<Record>) {
    forall r :: r in log ==> !r.Dequeue?
  }

  ghost predicate Enqueued(log: seq<Record>, id: Id) {
    exists i :: 0 <= i < |log| && log[i].Enqueue? && log[i].id == id
  }

  /** Nothing leased, every status telling where its task is. */
  ghost predicate Placed(m: Mem) {
    && m.inflight == {}
    && (forall id :: id in m.index ==> id !in m.dlq && id in m.tasks && m.tasks[id].status == StateReady)
    && (forall id :: id in m.dlq ==> id in m.tasks && m.tasks[id].status == StateDead)
  }

  /** ... and ready listing exactly the live tasks, once each. */
  ghost predicate Rebuilt(m: Mem) {
    Placed(m) && multiset(m.ready) == multiset(m.index)
  }

  lemma RebuiltIsSound(m: Mem)
    requires Rebuilt(m)
    ensures Sound(m)
  {
    InReady(m.ready, m.index);
  }

  /** Every live task may be handed out at time now. */
  ghost predicate AllDue(m: Mem, now: Time) {
    forall id :: id in m.index ==> id in m.tasks && m.tasks[id].availableAt <= now
  }

  lemma SetAsMultiset(xs: set<Id>, id: Id)
    ensures multiset(xs - {id}) == multiset(xs) - multiset{id}
    ensures id !in xs ==> multiset(xs + {id}) == multiset(xs) + multiset{id}
  {
  }

  lemma ApplyKeepsListing(m: Mem, r: Record, now: Time)
    requires Rebuilt(m) && !r.Dequeue? && ApplyRecord(m, r, now).Some?
    requires r.Enqueue? ==> r.id !in m.index
    ensures var m' := ApplyRecord(m, r, now).value; multiset(m'.ready) == multiset(m'.index)
  {
    SetAsMultiset(m.index, r.id);
    hide Drop;
    DropRemovesOne(m.ready, r.id);
  }

  lemma ApplyKeepsPlaces(m: Mem, r: Record, now: Time)
    requires Placed(m) && !r.Dequeue? && ApplyRecord(m, r, now).Some?
    requires r.Enqueue? ==> r.id !in m.index && r.id !in m.dlq
    ensures Placed(ApplyRecord(m, r, now).value)
  {
    hide Drop;
  }

  lemma ApplyKeepsRebuilt(m: Mem, r: Record, now: Time)
    requires Rebuilt(m) && !r.Dequeue? && ApplyRecord(m, r, now).Some?
    requires r.Enqueue? ==> r.id !in m.index && r.id !in m.dlq
    ensures Rebuilt(ApplyRecord(m, r, now).value)
  {
    ApplyKeepsListing(m, r, now);
    ApplyKeepsPlaces(m, r, now);
  }

  lemma ApplyKeepsDue(m: Mem, r: Record, now: Time, late: Time)
    requires AllDue(m, late) && now <= late && ZERO_TIME <= late && ApplyRecord(m, r, now).Some?
    ensures AllDue(ApplyRecord(m, r, now).value, late)
  {
  }

  lemma EnqueuedPrefix(log: seq<Record>, n: nat, id: Id)
    requires n <= |log| && Enqueued(log[..n], id)
    ensures Enqueued(log, id)
  {
    var i :| 0 <= i < n && log[..n][i].Enqueue? && log[..n][i].id == id;
    assert log[i].Enqueue? && log[i].id == id;
  }

  /** Replay and Effects agree on every produced log, and a replayed memory is in the recovered shape. */
  lemma {:induction false} ReplayRebuilds(log: seq<Record>, clock: seq<Time>)
    requires |log| == |clock| && DistinctEnqueues(log) && NoDequeues(log)
    ensures ReplayLog(log, clock).None? ==> Effects(log) == None
    ensures ReplayLog(log, clock).Some? ==>
              var m := ReplayLog(log, clock).value;
              && Effects(log) == Some(DurableOf(m))
              && Rebuilt(m)
              && (forall id :: id in m.tasks ==> Enqueued(log, id))
  {
    if log == [] {
      assert DurableOf(EMPTY) == EMPTY_DURABLE;
    } else {
      var n := |log| - 1;
      assert log == log[..n] + [log[n]];
      assert forall i :: 0 <= i < n ==> log[..n][i] in log;
      ReplayRebuilds(log[..n], clock[..n]);
      EffectsSnoc(EMPTY_DURABLE, log[..n], log[n]);
      if ReplayLog(log[..n], clock[..n]).Some? {
        ReplayStep(log, clock);
      }
    }
  }

  lemma LastIsFresh(log: seq<Record>)
    requires log != [] && DistinctEnqueues(log)
    ensures log[|log| - 1].Enqueue? ==> !Enqueued(log[..|log| - 1], log[|log| - 1].id)
  {
  }

  lemma ReplayStep(log: seq<Record>, clock: seq<Time>)
    requires |log| == |clock| && log != [] && DistinctEnqueues(log) && NoDequeues(log)
    requires ReplayLog(log[..|log| - 1], clock[..|log| - 1]).Some?
    requires var m := ReplayLog(log[..|log| - 1], clock[..|log| - 1]).value;
             Rebuilt(m) && forall id :: id in m.tasks ==> Enqueued(log[..|log| - 1], id)
    ensures var n := |log| - 1;
            var m := ReplayLog(log[..n], clock[..n]).value;
            match ApplyRecord(m, log[n], clock[n])
            case None => Effect(DurableOf(m), log[n]) == None
            case Some(m') =>
              && Effect(DurableOf(m), log[n]) == Some(DurableOf(m'))
              && Rebuilt(m')
              && (forall id :: id in m'.tasks ==> Enqueued(log, id))
  {
    var n := |log| - 1;
    var m := ReplayLog(log[..n], clock[..n]).value;
    var r := log[n];
    LastIsFresh(log);
    RebuiltIsSound(m);
    ReplayHasEffect(m, r, clock[n]);
    match ApplyRecord(m, r, clock[n])
    case None =>
    case Some(m') =>
      ApplyKeepsRebuilt(m, r, clock[n]);
      forall id | id in m'.tasks
        ensures Enqueued(log, id)
      {
        if id in m.tasks {
          EnqueuedPrefix(log, n, id);
        } else {
          assert log[n].Enqueue? && log[n].id == id;
        }
      }
  }

  lemma {:induction false} ReplayedAreDue(log: seq<Record>, clock: seq<Time>, late: Time)
    requires |log| == |clock| && ReplayLog(log, clock).Some?
    requires ZERO_TIME <= late && forall t :: t in clock ==> t <= late
    ensures AllDue(ReplayLog(log, clock).value, late)
  {
    if log != [] {
      var n := |log| - 1;
      assert forall i :: 0 <= i < n ==> clock[..n][i] in clock;
      assert clock[n] in clock;
      ReplayedAreDue(log[..n], clock[..n], late);
      ApplyKeepsDue(ReplayLog(log[..n], clock[..n]).value, log[n], clock[n], late);
    }
  }

  /**
    * At-least-once: recovery of a produced log leaves nothing in flight, lists every live task exactly once
    * in a well-ordered heap, and makes each of them deliverable at once. Recovery fails only when Effects does.
    */
  lemma RecoveryRedelivers(log: seq<Record>, clock: seq<Time>, late: Time)
    requires |log| == |clock| && DistinctEnqueues(log) && NoDequeues(log)
    requires ZERO_TIME <= late && forall t :: t in clock ==> t <= late
    ensures Recover(log, clock).Some? <==> Effects(log).Some?
    ensures Recover(log, clock).Some? ==>
              var m := Recover(log, clock).value;
              && Effects(log) == Some(DurableOf(m))
              && m.inflight == {} && WellFormed(m)
              && (forall id :: id in m.ready <==> id in m.index)
              && AllDue(m, late)
              && (forall id :: id in m.tasks ==> Enqueued(log, id))
  {
    ReplayRebuilds(log, clock);
    if ReplayLog(log, clock).Some? {
      var m := ReplayLog(log, clock).value;
      ReplayedAreDue(log, clock, late);
      ReadyHeap.InitBuildsHeap(m.tasks, m.ready);
      var m' := Recover(log, clock).value;
      assert m.index - m.inflight == m.index;
      RebuiltIsSound(m);
      InReady(m.ready, m.index);
      InReady(m'.ready, m'.index);
    }
  }
}
