/** What a recovered queue delivers first, read off the log: tasks not retried, by time of enqueue, then the rest. */
module RecoveryOrder {
  import opened ByteStrings
  import opened Codec
  import opened Framing
  import opened LiveQueue
  import opened Replay
  import opened Recovery
  import opened Machine
  import opened CrashSafety
  import opened Durability
  import opened LeaseDiscipline
  import opened Leases
  import opened Outcomes
  import opened Order
  import ReadyHeap

  /** The record begins a life, or begins one again. */
  predicate Begins(r: Record, id: Id) {
    (r.Enqueue? || r.Requeue?) && r.id == id
  }

  /** Entry j is the last Retry of the task, in the life it is in. */
  ghost predicate LastRetry(log: seq<Record>, id: Id, j: nat) {
    && j < |log| && log[j] == Retry(id)
    && forall i :: j < i < |log| ==> !Begins(log[i], id) && log[i] != Retry(id)
  }

  /** Since entry j, which begins its life, the task has not been retried. */
  ghost predicate NotRetriedSince(log: seq<Record>, id: Id, j: nat) {
    && j < |log| && Begins(log[j], id)
    && forall i :: j < i < |log| ==> log[i] != Retry(id)
  }

  /** One record at a time: an enqueue or a revival makes the task due, a retry makes it due when it is replayed. */
  lemma ApplySetsTime(m: Mem, r: Record, now: Time, id: Id)
    requires ApplyRecord(m, r, now).Some? && (r.Enqueue? ==> r.id !in m.tasks)
    requires id in ApplyRecord(m, r, now).value.tasks
    ensures Begins(r, id) ==> ApplyRecord(m, r, now).value.tasks[id].availableAt == ZERO_TIME
    ensures r == Retry(id) ==> ApplyRecord(m, r, now).value.tasks[id].availableAt == now
    ensures !Begins(r, id) && r != Retry(id) ==>
              id in m.tasks && ApplyRecord(m, r, now).value.tasks[id].availableAt == m.tasks[id].availableAt
  {
    hide Drop;
  }

  /** The last record of a log is applied to what the rest of it makes, and enqueues no task that is there. */
  lemma LastStep(log: seq<Record>, clock: seq<Time>)
    requires log != [] && |log| == |clock| && DistinctEnqueues(log) && NoDequeues(log) && ReplayLog(log, clock).Some?
    ensures var n := |log| - 1;
            && DistinctEnqueues(log[..n]) && NoDequeues(log[..n]) && ReplayLog(log[..n], clock[..n]).Some?
            && ApplyRecord(ReplayLog(log[..n], clock[..n]).value, log[n], clock[n]) == ReplayLog(log, clock)
            && (log[n].Enqueue? ==> log[n].id !in ReplayLog(log[..n], clock[..n]).value.tasks)
  {
    var n := |log| - 1;
    PrefixFacts(log, n);
    ReplayRebuilds(log[..n], clock[..n]);
    LastIsFresh(log);
    hide ApplyRecord;
  }

  /** A task whose last Retry is entry j is due when that record is replayed. */
  lemma {:induction false} RetriedAt(log: seq<Record>, clock: seq<Time>, id: Id, j: nat)
    requires |log| == |clock| && DistinctEnqueues(log) && NoDequeues(log) && ReplayLog(log, clock).Some?
    requires id in ReplayLog(log, clock).value.tasks && LastRetry(log, id, j)
    ensures ReplayLog(log, clock).value.tasks[id].availableAt == clock[j]
    decreases |log|
  {
    var n := |log| - 1;
    LastStep(log, clock);
    hide ReplayLog, ApplyRecord;
    ApplySetsTime(ReplayLog(log[..n], clock[..n]).value, log[n], clock[n], id);
    if j < n {
      RetriedAt(log[..n], clock[..n], id, j);
    }
  }

  /** A task not retried in this life has been due since the zero time. */
  lemma {:induction false} NotRetriedAt(log: seq<Record>, clock: seq<Time>, id: Id, j: nat)
    requires |log| == |clock| && DistinctEnqueues(log) && NoDequeues(log) && ReplayLog(log, clock).Some?
    requires id in ReplayLog(log, clock).value.tasks && NotRetriedSince(log, id, j)
    ensures ReplayLog(log, clock).value.tasks[id].availableAt == ZERO_TIME
    decreases |log|
  {
    var n := |log| - 1;
    LastStep(log, clock);
    hide ReplayLog, ApplyRecord;
    ApplySetsTime(ReplayLog(log[..n], clock[..n]).value, log[n], clock[n], id);
    if j < n && !Begins(log[n], id) {
      NotRetriedAt(log[..n], clock[..n], id, j);
    }
  }

  lemma ApplyKeepsSubmission(m: Mem, r: Record, now: Time, id: Id)
    requires ApplyRecord(m, r, now).Some? && id in ApplyRecord(m, r, now).value.tasks
    ensures !(r.Enqueue? && r.id == id) ==>
              id in m.tasks && SameSubmission(m.tasks[id], ApplyRecord(m, r, now).value.tasks[id])
    ensures r.Enqueue? && r.id == id && id !in m.tasks ==>
              Carries(ApplyRecord(m, r, now).value.tasks[id], r.key, r.payload, r.enqueuedAt)
  {
    hide Drop;
  }

  /** A recovered task is the one its enqueue record submitted. */
  lemma {:induction false} ReplayedCarries(log: seq<Record>, clock: seq<Time>, id: Id, j: nat)
    requires |log| == |clock| && DistinctEnqueues(log) && NoDequeues(log) && ReplayLog(log, clock).Some?
    requires id in ReplayLog(log, clock).value.tasks && j < |log| && log[j].Enqueue? && log[j].id == id
    ensures Carries(ReplayLog(log, clock).value.tasks[id], log[j].key, log[j].payload, log[j].enqueuedAt)
    decreases |log|
  {
    var n := |log| - 1;
    LastStep(log, clock);
    hide ReplayLog, ApplyRecord;
    ApplyKeepsSubmission(ReplayLog(log[..n], clock[..n]).value, log[n], clock[n], id);
    if j < n {
      assert !(log[n].Enqueue? && log[n].id == id);
      ReplayedCarries(log[..n], clock[..n], id, j);
    }
  }

  /** Restoring the heap changes no task. */
  lemma RecoverIs(log: seq<Record>, clock: seq<Time>)
    requires |log| == |clock| && Recover(log, clock).Some?
    ensures ReplayLog(log, clock).Some? && Recover(log, clock).value.tasks == ReplayLog(log, clock).value.tasks
    ensures Recover(log, clock).value.index == ReplayLog(log, clock).value.index
  {
    hide ReplayLog, ReadyHeap.Init;
  }

  /** The availability of every recovered task, by the log and the clock of its replay, and what it was submitted as. */
  lemma RecoveredTimes(log: seq<Record>, clock: seq<Time>, id: Id, j: nat)
    requires |log| == |clock| && DistinctEnqueues(log) && NoDequeues(log) && Recover(log, clock).Some?
    requires id in Recover(log, clock).value.tasks
    ensures LastRetry(log, id, j) ==> Recover(log, clock).value.tasks[id].availableAt == clock[j]
    ensures NotRetriedSince(log, id, j) ==> Recover(log, clock).value.tasks[id].availableAt == ZERO_TIME
    ensures j < |log| && log[j].Enqueue? && log[j].id == id ==>
              Carries(Recover(log, clock).value.tasks[id], log[j].key, log[j].payload, log[j].enqueuedAt)
  {
    RecoverIs(log, clock);
    hide Recover, ReplayLog;
    if LastRetry(log, id, j) {
      RetriedAt(log, clock, id, j);
    }
    if NotRetriedSince(log, id, j) {
      NotRetriedAt(log, clock, id, j);
    }
    if j < |log| && log[j].Enqueue? && log[j].id == id {
      ReplayedCarries(log, clock, id, j);
    }
  }

  /** The availability that entry j of the log gives a task. */
  ghost predicate TimeAsLogged(m: Mem, log: seq<Record>, clock: seq<Time>, id: Id, j: nat)
    requires |clock| == |log|
  {
    id in m.tasks ==>
      && (LastRetry(log, id, j) ==> m.tasks[id].availableAt == clock[j])
      && (NotRetriedSince(log, id, j) ==> m.tasks[id].availableAt == ZERO_TIME)
  }

  /** Every task is available when the log says. */
  ghost predicate AsLogged(m: Mem, log: seq<Record>, clock: seq<Time>) {
    |clock| == |log| && forall id, j: nat :: TimeAsLogged(m, log, clock, id, j)
  }

  /** Every task is the one its enqueue record submitted. */
  ghost predicate AsSubmitted(m: Mem, log: seq<Record>) {
    forall j :: 0 <= j < |log| && log[j].Enqueue? && log[j].id in m.tasks ==>
      Carries(m.tasks[log[j].id], log[j].key, log[j].payload, log[j].enqueuedAt)
  }

  lemma RecoveredAsLogged(log: seq<Record>, clock: seq<Time>)
    requires |log| == |clock| && DistinctEnqueues(log) && NoDequeues(log) && Recover(log, clock).Some?
    ensures AsLogged(Recover(log, clock).value, log, clock) && AsSubmitted(Recover(log, clock).value, log)
  {
    hide Recover, Carries;
    var m := Recover(log, clock).value;
    forall id, j: nat
      ensures TimeAsLogged(m, log, clock, id, j)
    {
      if id in m.tasks {
        RecoveredTimes(log, clock, id, j);
      }
    }
    forall j: nat | j < |log| && log[j].Enqueue? && log[j].id in m.tasks
      ensures Carries(m.tasks[log[j].id], log[j].key, log[j].payload, log[j].enqueuedAt)
    {
      RecoveredTimes(log, clock, log[j].id, j);
    }
  }

  /** So it is in a queue opened on a file that a queue has written. */
  lemma OpenedAsLogged(crc: Checksum, file: Bytes, log: seq<Record>, clock: seq<Time>)
    requires ProducedFile(crc, file, log) && |clock| == |Parse(crc, file)| && NewQueue(crc, file, clock).Opened?
    ensures AsLogged(NewQueue(crc, file, clock).mem, log, clock) && AsSubmitted(NewQueue(crc, file, clock).mem, log)
  {
    hide Frames, Parse, EncodeRecord, AsLogged, AsSubmitted, ReadyHeap.Init;
    EncodedIsFramable(log);
    ParseInvertsFrames(crc, EncodeAll(log));
    ReplayOfEncoded(log, clock);
    assert |clock| == |log| && Recover(log, clock) == Some(NewQueue(crc, file, clock).mem);
    RecoveredAsLogged(log, clock);
  }

  /** Replayed after the zero time, a task not retried precedes every retried one. */
  lemma NotRetriedPrecedes(log: seq<Record>, clock: seq<Time>, a: Id, i: nat, b: Id, j: nat)
    requires |log| == |clock| && DistinctEnqueues(log) && NoDequeues(log) && Recover(log, clock).Some?
    requires a in Recover(log, clock).value.tasks && b in Recover(log, clock).value.tasks
    requires NotRetriedSince(log, a, i) && LastRetry(log, b, j) && forall t :: t in clock ==> ZERO_TIME < t
    ensures Earlier(Recover(log, clock).value.tasks[a], Recover(log, clock).value.tasks[b])
  {
    RecoveredTimes(log, clock, a, i);
    RecoveredTimes(log, clock, b, j);
    assert clock[j] in clock;
  }

  /** Two tasks not retried stand in the order of their enqueue records' times. */
  lemma NotRetriedByEnqueue(
    log: seq<Record>, clock: seq<Time>, a: Id, i: nat, pa: nat, b: Id, j: nat, pb: nat)
    requires |log| == |clock| && DistinctEnqueues(log) && NoDequeues(log) && Recover(log, clock).Some?
    requires a in Recover(log, clock).value.tasks && b in Recover(log, clock).value.tasks
    requires NotRetriedSince(log, a, i) && NotRetriedSince(log, b, j)
    requires pa < |log| && log[pa].Enqueue? && log[pa].id == a && pb < |log| && log[pb].Enqueue? && log[pb].id == b
    requires log[pa].enqueuedAt < log[pb].enqueuedAt
    ensures Earlier(Recover(log, clock).value.tasks[a], Recover(log, clock).value.tasks[b])
  {
    RecoveredTimes(log, clock, a, i);
    RecoveredTimes(log, clock, a, pa);
    RecoveredTimes(log, clock, b, j);
    RecoveredTimes(log, clock, b, pb);
  }

  /**
    * The order of delivery after a restart: of two live tasks of which the first stands earlier, by either of the two
    * lemmas above, no disciplined run of the restarted queue delivers the second before the first.
    */
  lemma RecoveredOrder(cfg: Config, s: Sys, e: Event, es: seq<Event>, a: Id, b: Id)
    requires Inv(cfg, s) && Enabled(cfg, s, e) && e.CrashRestart? && RunOf(cfg, Next(cfg, s, e), es, InPlace)
    requires var m := Next(cfg, s, e).mem;
             a in m.index && b in m.index && a in m.tasks && b in m.tasks && Earlier(m.tasks[a], m.tasks[b])
    requires NeverDelivers(cfg, Next(cfg, s, e), es, InPlace, a)
    ensures NeverDelivers(cfg, Next(cfg, s, e), es, InPlace, b)
  {
    hide Inv, Enabled, Next, WellFormed, Recover, EncodeAll, RunOf, NeverDelivers, Earlier;
    RestartIs(cfg, s, e);
    LogIsProduced(cfg, s);
    PrefixFacts(s.log, e.k);
    RecoveryRedelivers(s.log[..e.k], e.clock, LatestOf(e.clock));
    EventKeepsInv(cfg, s, e);
    RestartIsDisciplined(cfg, s, e);
    EarlierComesFirst(cfg, Next(cfg, s, e), es, a, b);
  }
}
