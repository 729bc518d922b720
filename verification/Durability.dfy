/** What it means for a queue to be recoverable from its file, and how each operation keeps it so. */
module Durability {
  import opened ByteStrings
  import opened Codec
  import opened Framing
  import opened Tasks
  import opened LiveQueue
  import opened Replay
  import opened Recovery
  import opened Machine
  import opened GroupCommit
  import opened CrashSafety
  import ReadyHeap

  lemma {:induction false} DropAt(s: seq<Id>, id: Id, i: nat)
    requires i <= |s| && (forall k :: 0 <= k < i ==> s[k] != id) && (i < |s| ==> s[i] == id)
    ensures Drop(s, id) == if i < |s| then s[..i] + s[i + 1..] else s
  {
    if 0 < i {
      DropAt(s[1..], id, i - 1);
      assert i < |s| ==> [s[0]] + (s[1..][..i - 1] + s[1..][i..]) == s[..i] + s[i + 1..];
      assert [s[0]] + s[1..] == s;
    } else if s != [] {
      assert s[..0] + s[1..] == s[1..];
    }
  }

  /** The file holds the encoded log, and the log's effect is the durable state of m. */
  ghost predicate RecoverableAs(crc: Checksum, file: Bytes, log: seq<Record>, m: Mem) {
    && Sound(m)
    && file == Frames(crc, EncodeAll(log))
    && (forall r :: r in log ==> Encodable(r))
    && DistinctEnqueues(log) && NoDequeues(log)
    && Effects(log) == Some(DurableOf(m))
  }

  lemma AppendKeepsFile(crc: Checksum, file: Bytes, log: seq<Record>, r: Record)
    requires file == Frames(crc, EncodeAll(log))
    ensures file + EncodeFrame(crc, EncodeRecord(r)) == Frames(crc, EncodeAll(log + [r]))
  {
    hide Frames, EncodeFrame, EncodeRecord;
    EncodeAllSnoc(log, r);
    FramesSnoc(crc, EncodeAll(log), EncodeRecord(r));
  }

  /** A logged operation that succeeds leaves the queue recoverable. */
  lemma OpStaysRecoverable(
    crc: Checksum, file: Bytes, log: seq<Record>, m: Mem, op: Op, now: Time, maxRetries: int, availableAt: Time)
    requires RecoverableAs(crc, file, log, m) && Found(m, op) && Encodable(OpRecord(m, op, now, maxRetries))
    ensures var r := OpRecord(m, op, now, maxRetries);
            RecoverableAs(crc, file + EncodeFrame(crc, EncodeRecord(r)), log + [r], OpMem(m, r, availableAt))
  {
    hide Frames, EncodeFrame, EncodeRecord, DurableOf, Effect, ReadyHeap.Push;
    var r := OpRecord(m, op, now, maxRetries);
    AppendKeepsFile(crc, file, log, r);
    OpKeepsSound(m, op, now, maxRetries, availableAt);
    LiveOpHasEffect(m, op, now, maxRetries, availableAt);
    EffectsSnoc(EMPTY_DURABLE, log, r);
    NotAnEnqueue(m, op, now, maxRetries);
    hide Sound, OpMem;
  }

  /** So does an Enqueue that commits, for a task whose ID is new. */
  lemma EnqueueStaysRecoverable(crc: Checksum, file: Bytes, log: seq<Record>, m: Mem, id: Id, t: Task)
    requires RecoverableAs(crc, file, log, m) && Encodable(EnqueueRecord(id, t)) && id !in m.tasks && !Enqueued(log, id)
    requires t.retries == 0 && t.failedAt == ZERO_TIME && !Bound(m, t.key)
    ensures RecoverableAs(crc, file + EncodeFrame(crc, EncodeRecord(EnqueueRecord(id, t))),
                          log + [EnqueueRecord(id, t)], CommitEnqueue(m, id, t))
  {
    hide Frames, EncodeFrame, EncodeRecord, DurableOf, Effect, ReadyHeap.Push;
    var r := EnqueueRecord(id, t);
    AppendKeepsFile(crc, file, log, r);
    CommitKeepsSound(m, id, t);
    LiveEnqueueHasEffect(m, id, t);
    EffectsSnoc(EMPTY_DURABLE, log, r);
    hide Sound;
  }

  /** Every logged operation changes durable state. */
  lemma OpIsVisible(m: Mem, op: Op, now: Time, maxRetries: int)
    requires Sound(m) && Found(m, op)
    ensures Effect(DurableOf(m), OpRecord(m, op, now, maxRetries)).Some?
    ensures Effect(DurableOf(m), OpRecord(m, op, now, maxRetries)).value != DurableOf(m)
  {
    MembersOf(m);
    hide DurableOf;
    var d, id := DurableOf(m), op.id;
    match OpRecord(m, op, now, maxRetries)
    case Retry(_) => assert d.index[id].(retries := d.index[id].retries + 1) != d.index[id];
    case Requeue(_) => assert id in d.dlq;
    case Purge(_) => assert id in d.dlq;
    case Ack(_) => assert id in d.index;
    case Dead(_, _, _) => assert id in d.index;
    case _ =>
  }

  /** So does an Enqueue that adds a task. */
  lemma EnqueueIsVisible(m: Mem, id: Id, t: Task)
    requires Sound(m) && id !in m.tasks && !Bound(m, t.key)
    ensures Effect(DurableOf(m), EnqueueRecord(id, t)).Some?
    ensures Effect(DurableOf(m), EnqueueRecord(id, t)).value != DurableOf(m)
  {
    MembersOf(m);
    hide DurableOf;
    assert id in Effect(DurableOf(m), EnqueueRecord(id, t)).value.index && id !in DurableOf(m).index;
  }

  /** A record that the queue could log next, and what its append may leave in the file when it fails. */
  ghost predicate FailedAppend(crc: Checksum, file: Bytes, log: seq<Record>, r: Record, file': Bytes) {
    && Encodable(r) && !r.Dequeue? && (r.Enqueue? ==> !Enqueued(log, r.id))
    && file <= file' <= file + EncodeFrame(crc, EncodeRecord(r))
  }

  /** What is read back after a failed append: the record as well if its frame is whole, and otherwise the old log. */
  lemma RefusedReads(crc: Checksum, file: Bytes, log: seq<Record>, r: Record, file': Bytes)
    requires FailedAppend(crc, file, log, r, file') && file == Frames(crc, EncodeAll(log))
    requires forall x :: x in log ==> Encodable(x)
    ensures var whole := |file'| == |file + EncodeFrame(crc, EncodeRecord(r))|;
            Parse(crc, file') == EncodeAll(if whole then log + [r] else log)
  {
    EncodedIsFramable(log);
    EncodeAllSnoc(log, r);
    hide Frames, Parse, EncodeFrame, EncodeRecord, EncodeAll;
    LastFrameReads(crc, EncodeAll(log), EncodeRecord(r), file');
  }

  /**
    * Exactly when a failed append does no harm. The caller was told that nothing happened; opening the file agrees with
    * that, and gives memory's durable state, if and only if the frame did not go out whole.
    */
  lemma RefusedHarmlessIffTorn(
    crc: Checksum, file: Bytes, log: seq<Record>, m: Mem, r: Record, file': Bytes, clock: seq<Time>)
    requires RecoverableAs(crc, file, log, m) && FailedAppend(crc, file, log, r, file')
    requires Effect(DurableOf(m), r).Some? && Effect(DurableOf(m), r).value != DurableOf(m)
    requires |clock| == |Parse(crc, file')|
    ensures NewQueue(crc, file', clock).Opened?
    ensures DurableOf(NewQueue(crc, file', clock).mem) == DurableOf(m)
            <==> |file'| < |file + EncodeFrame(crc, EncodeRecord(r))|
  {
    hide RecoverableAs, FailedAppend, NewQueue, Parse, EncodeFrame, EncodeRecord, Effect, Effects, DurableOf, EncodeAll;
    RefusedLog(crc, file, log, m, r, file');
    var whole := |file'| == |file + EncodeFrame(crc, EncodeRecord(r))|;
    assert |file'| <= |file + EncodeFrame(crc, EncodeRecord(r))|;
    OpensAs(if whole then log + [r] else log, file', crc, clock);
  }

  /** What is read back is a produced log, with its effect. */
  lemma RefusedLog(crc: Checksum, file: Bytes, log: seq<Record>, m: Mem, r: Record, file': Bytes)
    requires RecoverableAs(crc, file, log, m) && FailedAppend(crc, file, log, r, file') && Effect(DurableOf(m), r).Some?
    ensures |file'| <= |file + EncodeFrame(crc, EncodeRecord(r))|
    ensures var whole := |file'| == |file + EncodeFrame(crc, EncodeRecord(r))|;
            var all := if whole then log + [r] else log;
            && Parse(crc, file') == EncodeAll(all) && |EncodeAll(all)| == |all|
            && (forall x :: x in all ==> Encodable(x)) && DistinctEnqueues(all) && NoDequeues(all)
            && Effects(all) == if whole then Effect(DurableOf(m), r) else Some(DurableOf(m))
  {
    RefusedReads(crc, file, log, r, file');
    EffectsSnoc(EMPTY_DURABLE, log, r);
    hide Frames, Parse, EncodeFrame, EncodeRecord, Encodable, Effect, EffectsFrom, DurableOf, Sound;
    assert DistinctEnqueues(log + [r]) && NoDequeues(log + [r]);
  }

  /** A file that reads as the encoding of a log opens to what the log does. */
  lemma OpensAs(log: seq<Record>, file: Bytes, crc: Checksum, clock: seq<Time>)
    requires Parse(crc, file) == EncodeAll(log) && |clock| == |log| && Effects(log).Some?
    requires (forall x :: x in log ==> Encodable(x)) && DistinctEnqueues(log) && NoDequeues(log)
    ensures NewQueue(crc, file, clock).Opened? && Some(DurableOf(NewQueue(crc, file, clock).mem)) == Effects(log)
  {
    hide Parse, EncodeRecord, Encodable, Effects, DurableOf, WellFormed, AllDue;
    ReplayOfEncoded(log, clock);
    RecoveryRedelivers(log, clock, LatestOf(clock));
  }

  /** The logged operations, by that condition. */
  lemma RefusedOpHarmlessIffTorn(
    crc: Checksum, file: Bytes, log: seq<Record>, m: Mem, op: Op, now: Time, maxRetries: int, file': Bytes,
    clock: seq<Time>)
    requires RecoverableAs(crc, file, log, m) && Found(m, op)
    requires FailedAppend(crc, file, log, OpRecord(m, op, now, maxRetries), file') && |clock| == |Parse(crc, file')|
    ensures NewQueue(crc, file', clock).Opened?
    ensures DurableOf(NewQueue(crc, file', clock).mem) == DurableOf(m)
            <==> |file'| < |file + EncodeFrame(crc, EncodeRecord(OpRecord(m, op, now, maxRetries)))|
  {
    OpIsVisible(m, op, now, maxRetries);
    hide NewQueue, Parse, Effect, DurableOf, EncodeFrame, EncodeRecord;
    RefusedHarmlessIffTorn(crc, file, log, m, OpRecord(m, op, now, maxRetries), file', clock);
  }

  /** And Enqueue, which appends only for a key that is not bound. */
  lemma RefusedEnqueueHarmlessIffTorn(
    crc: Checksum, file: Bytes, log: seq<Record>, m: Mem, id: Id, t: Task, file': Bytes, clock: seq<Time>)
    requires RecoverableAs(crc, file, log, m) && id !in m.tasks && !Bound(m, t.key)
    requires FailedAppend(crc, file, log, EnqueueRecord(id, t), file') && |clock| == |Parse(crc, file')|
    ensures NewQueue(crc, file', clock).Opened?
    ensures DurableOf(NewQueue(crc, file', clock).mem) == DurableOf(m)
            <==> |file'| < |file + EncodeFrame(crc, EncodeRecord(EnqueueRecord(id, t)))|
  {
    EnqueueIsVisible(m, id, t);
    hide NewQueue, Parse, Effect, DurableOf, EncodeFrame, EncodeRecord;
    RefusedHarmlessIffTorn(crc, file, log, m, EnqueueRecord(id, t), file', clock);
  }

  /** And a Dequeue, which writes nothing. */
  lemma DequeueStaysRecoverable(crc: Checksum, file: Bytes, log: seq<Record>, m: Mem, now: Time, visibility: Time)
    requires RecoverableAs(crc, file, log, m)
    ensures RecoverableAs(crc, file, log, DequeueMem(m, now, visibility))
  {
    hide Frames, EncodeRecord, DurableOf, Effects, DequeueMem;
    DequeueIsNotDurable(m, now, visibility);
    DequeueKeepsSound(m, now, visibility);
  }

  lemma EncodedIsFramable(log: seq<Record>)
    requires forall r :: r in log ==> Encodable(r)
    ensures Framable(EncodeAll(log))
  {
    forall b | b in EncodeAll(log)
      ensures IsUint32(|b|)
    {
      var i :| 0 <= i < |log| && EncodeAll(log)[i] == b;
      assert log[i] in log;
    }
  }

  lemma IdOnlyIsEncodable(r: Record)
    requires r.Ack? || r.Retry? || r.Requeue? || r.Purge?
    ensures Encodable(r)
  {
  }

  /** Opening the file of a recoverable queue rebuilds its durable state, with every live task deliverable. */
  lemma RecoverableRecovers(crc: Checksum, file: Bytes, log: seq<Record>, m: Mem, clock: seq<Time>, late: Time)
    requires RecoverableAs(crc, file, log, m) && |clock| == |Parse(crc, file)|
    requires ZERO_TIME <= late && forall t :: t in clock ==> t <= late
    ensures NewQueue(crc, file, clock).Opened?
    ensures var m' := NewQueue(crc, file, clock).mem;
            DurableOf(m') == DurableOf(m) && m'.inflight == {} && WellFormed(m') && AllDue(m', late)
  {
    hide Frames, Parse, EncodeRecord, DurableOf, WellFormed, AllDue, Sound;
    EncodedIsFramable(log);
    ParseInvertsFrames(crc, EncodeAll(log));
    ReplayOfEncoded(log, clock);
    RecoveryRedelivers(log, clock, late);
  }

  lemma DeadInSteps(m: Mem, m1: Mem, m2: Mem, id: Id, v: Task, failedAt: Time)
    requires id in m.tasks && m.tasks[id] == v
    requires m1 == m.(tasks := m.tasks[id := v.(status := StateDead, retries := v.retries + 1, failedAt := failedAt)])
    requires m2 == m1.(dlq := m1.dlq + {id}, index := m1.index - {id}, inflight := m1.inflight - {id})
    ensures m2 == DeadMem(m, id, failedAt)
  {
  }

  lemma RetryInSteps(m: Mem, m1: Mem, m2: Mem, id: Id, v: Task, availableAt: Time)
    requires id in m.tasks && m.tasks[id] == v
    requires m1 == m.(tasks := m.tasks[id := v.(status := StateReady, retries := v.retries + 1,
                                                availableAt := availableAt)])
    requires m2 == m1.(ready := ReadyHeap.Push(m1.tasks, m1.ready, id), inflight := m1.inflight - {id})
    ensures m2 == RetryMem(m, id, availableAt)
  {
  }

  /** retryLocked's test decides which record is logged and what happens to memory. */
  lemma RetryChoice(m: Mem, id: Id, failedAt: Time, maxRetries: int, availableAt: Time)
    requires Found(m, RetryOp(id))
    ensures var r := OpRecord(m, RetryOp(id), failedAt, maxRetries);
            if m.tasks[id].retries + 1 > maxRetries
            then
              r == Dead(id, m.tasks[id].retries + 1, failedAt) && OpMem(m, r, availableAt) == DeadMem(m, id, failedAt)
            else
              r == Retry(id) && OpMem(m, r, availableAt) == RetryMem(m, id, availableAt)
  {
  }

  lemma NothingDue(m: Mem, now: Time, visibility: Time)
    ensures !RootDue(m, now) ==> DequeueMem(m, now, visibility) == m
  {
  }

  lemma DequeueInSteps(m: Mem, m1: Mem, m2: Mem, m3: Mem, v: Task, now: Time, visibility: Time)
    requires RootDue(m, now) && m.ready[0] in m.tasks && m.tasks[m.ready[0]] == v
    requires m1 == m.(ready := ReadyHeap.Pop(m.tasks, m.ready))
    requires m2 == m1.(tasks := m1.tasks[m.ready[0] := v.(status := StateInflight, leaseUntil := now + visibility)])
    requires m3 == m2.(inflight := m2.inflight + {m.ready[0]})
    ensures m3 == DequeueMem(m, now, visibility)
  {
  }

  /** IDs are drawn once: no two bodies decode to enqueues of the same one. */
  ghost predicate DistinctBodies(bodies: seq<Bytes>) {
    forall i, j :: 0 <= i < j < |bodies| && EnqueueBody(bodies[i]) && EnqueueBody(bodies[j]) ==>
      DecodeRecord(bodies[i]).value.id != DecodeRecord(bodies[j]).value.id
  }

  ghost predicate EnqueueBody(body: Bytes) {
    DecodeRecord(body).Ok? && DecodeRecord(body).value.Enqueue?
  }

  ghost predicate ProducedFile(crc: Checksum, file: Bytes, log: seq<Record>) {
    && file == Frames(crc, EncodeAll(log))
    && (forall r :: r in log ==> Encodable(r))
    && DistinctEnqueues(log) && NoDequeues(log)
  }

  lemma BodyStep(bodies: seq<Bytes>, clock: seq<Time>, i: nat)
    requires |bodies| == |clock| && i < |bodies| && ReplayBodies(bodies[..i], clock[..i]).Opened?
    ensures ReplayBodies(bodies[..i + 1], clock[..i + 1]) ==
            match DecodeRecord(bodies[i])
            case Err(error) => Refused(error)
            case Ok(r) =>
              match ApplyRecord(ReplayBodies(bodies[..i], clock[..i]).mem, r, clock[i])
              case None => Panicked
              case Some(m) => Opened(m)
  {
    hide DecodeRecord, ApplyRecord;
    assert bodies[..i + 1][..i] == bodies[..i] && clock[..i + 1][..i] == clock[..i];
  }

  lemma {:induction false} FailureSticks(bodies: seq<Bytes>, clock: seq<Time>, i: nat)
    requires |bodies| == |clock| && i <= |bodies| && !ReplayBodies(bodies[..i], clock[..i]).Opened?
    ensures ReplayBodies(bodies, clock) == ReplayBodies(bodies[..i], clock[..i])
    decreases |bodies|
  {
    hide DecodeRecord, ApplyRecord;
    if i == |bodies| {
      assert bodies[..i] == bodies && clock[..i] == clock;
    } else {
      var n := |bodies| - 1;
      assert bodies[..n][..i] == bodies[..i] && clock[..n][..i] == clock[..i];
      FailureSticks(bodies[..n], clock[..n], i);
    }
  }

  /** Replay only creates tasks that the bodies enqueue. */
  lemma {:induction false} TasksAreEnqueued(bodies: seq<Bytes>, clock: seq<Time>, id: Id)
    requires |bodies| == |clock| && ReplayBodies(bodies, clock).Opened?
    requires id in ReplayBodies(bodies, clock).mem.tasks
    ensures exists j :: 0 <= j < |bodies| && EnqueueBody(bodies[j]) && DecodeRecord(bodies[j]).value.id == id
  {
    hide DecodeRecord;
    var n := |bodies| - 1;
    if id in ReplayBodies(bodies[..n], clock[..n]).mem.tasks {
      TasksAreEnqueued(bodies[..n], clock[..n], id);
      var j :| 0 <= j < n && EnqueueBody(bodies[..n][j]) && DecodeRecord(bodies[..n][j]).value.id == id;
      assert bodies[j] == bodies[..n][j];
    } else {
      assert EnqueueBody(bodies[n]) && DecodeRecord(bodies[n]).value.id == id;
    }
  }

  lemma FreshBody(bodies: seq<Bytes>, clock: seq<Time>, i: nat)
    requires |bodies| == |clock| && i < |bodies| && DistinctBodies(bodies)
    requires ReplayBodies(bodies[..i], clock[..i]).Opened?
    ensures EnqueueBody(bodies[i]) ==>
              DecodeRecord(bodies[i]).value.id !in ReplayBodies(bodies[..i], clock[..i]).mem.tasks
  {
    hide DecodeRecord;
    if EnqueueBody(bodies[i]) {
      var id := DecodeRecord(bodies[i]).value.id;
      if id in ReplayBodies(bodies[..i], clock[..i]).mem.tasks {
        TasksAreEnqueued(bodies[..i], clock[..i], id);
      }
    }
  }

  /** A queue opened on a produced file is recoverable from it again. */
  lemma OpenedIsRecoverable(crc: Checksum, file: Bytes, produced: seq<Record>, clock: seq<Time>)
    requires ProducedFile(crc, file, produced) && |clock| == |Parse(crc, file)| && NewQueue(crc, file, clock).Opened?
    ensures RecoverableAs(crc, file, produced, NewQueue(crc, file, clock).mem)
  {
    hide Frames, Parse, EncodeRecord, DurableOf, Effects, WellFormed;
    EncodedIsFramable(produced);
    ParseInvertsFrames(crc, EncodeAll(produced));
    ReplayOfEncoded(produced, clock);
    RecoveryRedelivers(produced, clock, LatestOf(clock));
    var m := NewQueue(crc, file, clock).mem;
    assert Sound(m) by { WellFormedIsSound(m); }
  }

  lemma WellFormedIsSound(m: Mem)
    requires WellFormed(m)
    ensures Sound(m)
  {
  }
}
