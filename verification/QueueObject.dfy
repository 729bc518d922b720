/** queue.go as code: the Queue object, its task pointers and its log, proved against the value-level model. */
module QueueObject {
  import opened ByteStrings
  import opened Codec
  import opened Framing
  import opened Tasks
  import opened LiveQueue
  import opened Replay
  import opened Recovery
  import opened Machine
  import opened TaskHeap
  import opened WalFile
  import opened Sweep
  import opened CrashSafety
  import opened Durability
  import opened LeaseDiscipline
  import opened Outcomes
  import opened Order
  import opened RecoveryOrder
  import ReadyHeap

  /** The log as it is kept: its records, its bytes, and what was answered to each append. */
  datatype Journal = Journal(log: seq<Record>, file: Bytes, answers: seq<bool>)

  /** The answers to the appends of a loop that goes on until one is refused, or until it is stuck. */
  ghost predicate Asked(before: seq<bool>, after: seq<bool>, ok: bool, stuck: bool) {
    && before <= after
    && (forall i :: |before| <= i < |after| - 1 ==> after[i])
    && (ok ==> forall i :: |before| <= i < |after| ==> after[i])
    && (!ok && !stuck ==> |before| < |after| && !after[|after| - 1])
  }

  lemma AskedOn(before: seq<bool>, between: seq<bool>, after: seq<bool>, ok: bool, stuck: bool)
    requires Asked(before, between, true, false) && Asked(between, after, ok, stuck)
    ensures Asked(before, after, ok, stuck)
  {
    assert forall i :: 0 <= i < |between| ==> after[i] == between[i];
  }

  /** A leased task, past its time, that index does not list: retryLocked does not find it. */
  ghost predicate Unlisted(m: Mem, now: Time) {
    exists id :: id in m.inflight && id in m.tasks && id !in m.index && m.tasks[id].leaseUntil < now
  }

  /** The current value of every task object, under its ID. */
  ghost function Values(known: map<Id, TaskObject>): Store
    reads known.Values
  {
    map id | id in known :: known[id].Value()
  }

  ghost predicate Identified(known: map<Id, TaskObject>) {
    forall id :: id in known ==> known[id].id == id
  }

  ghost predicate Listed(items: seq<TaskObject>, known: map<Id, TaskObject>) {
    forall t :: t in items ==> t.id in known && known[t.id] == t
  }

  ghost predicate Within(m: map<Id, TaskObject>, known: map<Id, TaskObject>) {
    forall id :: id in m ==> id in known && m[id] == known[id]
  }

  lemma WithinUpdate(m: map<Id, TaskObject>, known: map<Id, TaskObject>, id: Id)
    requires Within(m, known)
    ensures Within(m - {id}, known) && (m - {id}).Keys == m.Keys - {id}
    ensures id in known ==> Within(m[id := known[id]], known) && m[id := known[id]].Keys == m.Keys + {id}
  {
  }

  lemma IdsWithout(items: seq<TaskObject>, i: nat)
    requires i < |items|
    ensures IdsOf(items[..i] + items[i + 1..]) == IdsOf(items)[..i] + IdsOf(items)[i + 1..]
  {
    var left, right := IdsOf(items[..i] + items[i + 1..]), IdsOf(items)[..i] + IdsOf(items)[i + 1..];
    assert |left| == |right| && forall k :: 0 <= k < |left| ==> left[k] == right[k];
  }

  class Queue {
    const wal: Wal
    const heap: Heap                       // ready
    const maxRetries: int
    const visibility: Time
    var index: map<Id, TaskObject>
    var inflight: map<Id, TaskObject>
    var keys: map<Key, Id>
    var dlq: map<Id, TaskObject>
    ghost var known: map<Id, TaskObject>   // every task object the queue has held
    ghost var log: seq<Record>             // what has been appended to the file

    /** Every collection points to the one object with that ID. */
    ghost predicate Valid()
      reads this, heap
    {
      && Identified(known)
      && Listed(heap.items, known)
      && Within(index, known) && Within(inflight, known) && Within(dlq, known)
    }

    ghost function View(): Mem
      reads this, heap, known.Values
    {
      Mem(Values(known), IdsOf(heap.items), index.Keys, inflight.Keys, keys, dlq.Keys)
    }

    ghost function Book(): Journal
      reads this, wal
    {
      Journal(log, wal.file, wal.answers)
    }

    ghost predicate Recoverable()
      reads this, heap, wal, known.Values
    {
      RecoverableAs(wal.crc, wal.file, log, View())
    }

    /** NewQueue before replay. */
    constructor (wal: Wal, maxRetries: int, visibility: Time)
      ensures Valid() && fresh(heap) && View() == EMPTY && known == map[] && log == []
      ensures this.wal == wal && this.maxRetries == maxRetries && this.visibility == visibility
    {
      this.wal, this.maxRetries, this.visibility := wal, maxRetries, visibility;
      heap := new Heap();
      index, inflight, keys, dlq, known, log := map[], map[], map[], map[], map[], [];
    }

    lemma HeapSnapshot()
      requires Valid()
      ensures Snapshot(Values(known), heap.items)
    {
      forall i | 0 <= i < |heap.items|
        ensures heap.items[i].id in known && Values(known)[heap.items[i].id] == heap.items[i].Value()
      {
        assert heap.items[i] in heap.items;
      }
    }

    /** heap.Pop(&q.ready) */
    method PopTask() returns (t: TaskObject)
      requires Valid() && heap.items != []
      modifies heap
      ensures Valid() && t == old(heap.items)[0] && t.id in known && known[t.id] == t && View().tasks[t.id] == t.Value()
      ensures View() == old(View()).(ready := ReadyHeap.Pop(old(View()).tasks, old(View()).ready))
    {
      hide ReadyHeap.Pop, Within;
      HeapSnapshot();
      assert heap.items[0] in heap.items;
      t := heap.Pop(Values(known));
    }

    /** Dequeue. */
    method Dequeue(now: Time) returns (t: TaskObject?)
      requires Valid()
      modifies this`inflight, heap, known.Values
      ensures Valid()
      ensures t != null <==> RootDue(old(View()), now)
      ensures t != null ==> t.id == old(View()).ready[0] && t.id in known && known[t.id] == t
      ensures t != null ==> Delivered(old(View()), View(), t.id, now, visibility)
      ensures t != null ==> t.id in View().tasks && View().tasks[t.id] == t.Value()
      ensures t != null ==>
                t.id in old(View()).tasks && Carries(old(View()).tasks[t.id], t.key, t.payload, t.enqueuedAt)
      ensures t != null && WellFormed(old(View())) ==> Foremost(old(View()), t.id)
      ensures t == null && WellFormed(old(View())) ==> forall x :: x in View().ready ==> !Due(View(), x, now)
      ensures View() == DequeueMem(old(View()), now, visibility)
      ensures old(Recoverable()) ==> Recoverable()
    {
      hide View, Valid, DequeueMem, RecoverableAs, Delivered, WellFormed, Foremost;
      ghost var m := View();
      if WellFormed(m) {
        DequeueTakesForemost(m, now);
      }
      RootAsListed(now);
      NothingDue(m, now, visibility);
      if |heap.items| == 0 || now < heap.items[0].availableAt {
        return null;
      }
      var task := PopTask();
      ghost var m1, v := View(), task.Value();
      UpdateTask(task, StateInflight, task.retries, task.availableAt, task.failedAt, now + visibility);
      ghost var m2 := View();
      LeaseTask(task);
      DequeueInSteps(m, m1, m2, View(), v, now, visibility);
      DequeueDelivers(m, now, visibility);
      OnRecord(task);
      if old(Recoverable()) {
        DequeueStaysRecoverable(wal.crc, wal.file, log, m, now, visibility);
      }
      t := task;
    }

    lemma OnRecord(t: TaskObject)
      requires Valid() && t.id in known && known[t.id] == t
      ensures t.id in View().tasks && View().tasks[t.id] == t.Value()
    {
    }

    /** The root of the slice is the root of the view, and its time is the one Dequeue tests. */
    lemma RootAsListed(now: Time)
      requires Valid()
      ensures RootDue(View(), now) <==> heap.items != [] && heap.items[0].availableAt <= now
      ensures heap.items != [] ==>
                && View().ready != [] && View().ready[0] == heap.items[0].id
                && heap.items[0] in known.Values && heap.items[0].id in View().tasks
                && View().tasks[heap.items[0].id] == heap.items[0].Value()
    {
      if heap.items != [] {
        assert heap.items[0] in heap.items;
      }
    }

    /** The write-ahead half of every logged operation. */
    method AppendRecord(r: Record) returns (ok: bool)
      requires Valid() && wal.Valid()
      modifies wal, this`log
      ensures Valid() && wal.Valid() && View() == old(View())
      ensures Appended(r, old(Book()), Book(), ok)
    {
      hide EncodeRecord, EncodeFrame;
      ok := wal.Append(EncodeRecord(r));
      if ok {
        log := log + [r];
      }
    }

    /** heap.Push(&q.ready, t) */
    method PushTask(t: TaskObject)
      requires Valid() && t.id in known && known[t.id] == t
      modifies heap
      ensures Valid() && View() == old(View()).(ready := ReadyHeap.Push(old(View()).tasks, old(View()).ready, t.id))
    {
      hide ReadyHeap.Push, Within;
      HeapSnapshot();
      heap.Push(t, Values(known));
    }

    /** Assignments to a task's fields through its pointer. */
    method UpdateTask(t: TaskObject, status: Status, retries: int, availableAt: Time, failedAt: Time, leaseUntil: Time)
      requires Valid() && t.id in known && known[t.id] == t
      modifies t
      ensures Valid()
      ensures View() == old(View()).(tasks := old(View()).tasks[t.id := old(t.Value()).(
                status := status, retries := retries, availableAt := availableAt,
                failedAt := failedAt, leaseUntil := leaseUntil)])
    {
      hide Within, Listed;
      ghost var ts := Values(known);
      t.Assign(status, retries, availableAt, failedAt, leaseUntil);
      assert Values(known) == ts[t.id := t.Value()];
    }

    /** delete(q.indexOfInflight, id) */
    method Unlease(id: Id)
      requires Valid()
      modifies this`inflight
      ensures Valid() && View() == old(View()).(inflight := old(View()).inflight - {id})
    {
      hide Within, Listed, Identified;
      ghost var ts := Values(known);
      WithinUpdate(inflight, known, id);
      inflight := inflight - {id};
      assert Values(known) == ts;
    }

    /** delete(q.index, id) */
    method Unindex(id: Id)
      requires Valid()
      modifies this`index
      ensures Valid() && View() == old(View()).(index := old(View()).index - {id})
    {
      hide Within, Listed, Identified;
      ghost var ts := Values(known);
      WithinUpdate(index, known, id);
      index := index - {id};
      assert Values(known) == ts;
    }

    /** delete(q.dlq, id) */
    method Unbury(id: Id)
      requires Valid()
      modifies this`dlq
      ensures Valid() && View() == old(View()).(dlq := old(View()).dlq - {id})
    {
      hide Within, Listed, Identified;
      ghost var ts := Values(known);
      WithinUpdate(dlq, known, id);
      dlq := dlq - {id};
      assert Values(known) == ts;
    }

    /** q.indexOfInflight[t.ID] = t */
    method LeaseTask(t: TaskObject)
      requires Valid() && t.id in known && known[t.id] == t
      modifies this`inflight
      ensures Valid() && View() == old(View()).(inflight := old(View()).inflight + {t.id})
    {
      hide Within, Listed, Identified;
      ghost var ts := Values(known);
      WithinUpdate(inflight, known, t.id);
      inflight := inflight[t.id := t];
      assert Values(known) == ts;
    }

    /** q.index[t.ID] = t */
    method IndexTask(t: TaskObject)
      requires Valid() && t.id in known && known[t.id] == t
      modifies this`index
      ensures Valid() && View() == old(View()).(index := old(View()).index + {t.id})
    {
      hide Within, Listed, Identified;
      ghost var ts := Values(known);
      WithinUpdate(index, known, t.id);
      index := index[t.id := t];
      assert Values(known) == ts;
    }

    /** q.dlq[t.ID] = t */
    method BuryTask(t: TaskObject)
      requires Valid() && t.id in known && known[t.id] == t
      modifies this`dlq
      ensures Valid() && View() == old(View()).(dlq := old(View()).dlq + {t.id})
    {
      hide Within, Listed, Identified;
      ghost var ts := Values(known);
      WithinUpdate(dlq, known, t.id);
      dlq := dlq[t.id := t];
      assert Values(known) == ts;
    }

    /** A task found in a collection is the object with its ID, and its value is on record. */
    lemma PointsTo(t: TaskObject)
      requires Valid() && ((t.id in index && t == index[t.id]) || (t.id in dlq && t == dlq[t.id]))
      ensures t.id in known && known[t.id] == t && t.id in View().tasks && View().tasks[t.id] == t.Value()
    {
    }

    /** What each operation finds is what its map lists. */
    lemma FoundAsListed(id: Id)
      requires Valid()
      ensures id in index <==> Found(View(), AckOp(id))
      ensures id in index <==> Found(View(), RetryOp(id))
      ensures id in dlq <==> Found(View(), RequeueOp(id))
      ensures id in dlq <==> Found(View(), PurgeOp(id))
      ensures id in index ==> index[id].id == id && index[id] in known.Values
      ensures id in dlq ==> dlq[id].id == id && dlq[id] in known.Values
    {
    }

    method AckMemory(t: TaskObject)
      requires Valid() && t.id in index && t == index[t.id]
      modifies this`index, this`inflight, t
      ensures Valid() && View() == AckMem(old(View()), t.id)
    {
      hide Valid, View;
      PointsTo(t);
      UpdateTask(t, StateDone, t.retries, t.availableAt, t.failedAt, t.leaseUntil);
      Unlease(t.id);
      Unindex(t.id);
    }

    /** Back on ready, and no longer in flight. */
    method MoveToReady(t: TaskObject)
      requires Valid() && t.id in known && known[t.id] == t
      modifies this`inflight, heap
      ensures Valid()
      ensures View() == old(View()).(ready := ReadyHeap.Push(old(View()).tasks, old(View()).ready, t.id),
                                     inflight := old(View()).inflight - {t.id})
    {
      hide Valid, View, ReadyHeap.Push;
      PushTask(t);
      Unlease(t.id);
    }

    method RetryMemory(t: TaskObject, availableAt: Time)
      requires Valid() && t.id in index && t == index[t.id]
      modifies this`inflight, heap, t
      ensures Valid() && View() == RetryMem(old(View()), t.id, availableAt)
    {
      hide Valid, View, RetryMem, ReadyHeap.Push;
      PointsTo(t);
      ghost var m, v := View(), t.Value();
      UpdateTask(t, StateReady, t.retries + 1, availableAt, t.failedAt, t.leaseUntil);
      ghost var m1 := View();
      MoveToReady(t);
      RetryInSteps(m, m1, View(), t.id, v, availableAt);
    }

    /** q.dlq[id] = t, then out of index and inflight. */
    method MoveToDlq(t: TaskObject)
      requires Valid() && t.id in known && known[t.id] == t
      modifies this`dlq, this`index, this`inflight
      ensures Valid()
      ensures View() == old(View()).(dlq := old(View()).dlq + {t.id},
                                     index := old(View()).index - {t.id},
                                     inflight := old(View()).inflight - {t.id})
    {
      hide Valid, View;
      BuryTask(t);
      Unindex(t.id);
      Unlease(t.id);
    }

    method DeadMemory(t: TaskObject, failedAt: Time)
      requires Valid() && t.id in index && t == index[t.id]
      modifies this`index, this`inflight, this`dlq, t
      ensures Valid() && View() == DeadMem(old(View()), t.id, failedAt)
    {
      hide Valid, View, DeadMem;
      PointsTo(t);
      ghost var m, v := View(), t.Value();
      UpdateTask(t, StateDead, t.retries + 1, t.availableAt, failedAt, t.leaseUntil);
      ghost var m1 := View();
      MoveToDlq(t);
      DeadInSteps(m, m1, View(), t.id, v, failedAt);
    }

    method RequeueMemory(t: TaskObject)
      requires Valid() && t.id in dlq && t == dlq[t.id]
      modifies this`index, this`dlq, heap, t
      ensures Valid() && View() == RequeueMem(old(View()), t.id)
    {
      hide Valid, View, ReadyHeap.Push;
      PointsTo(t);
      UpdateTask(t, StateReady, 0, ZERO_TIME, ZERO_TIME, t.leaseUntil);
      Unbury(t.id);
      IndexTask(t);
      PushTask(t);
    }

    // --- Enqueue, in its two critical sections ---

    /** The object becomes one of the queue's. */
    ghost method Adopt(t: TaskObject)
      requires Valid() && t.id !in known
      modifies this`known
      ensures Valid() && known == old(known)[t.id := t]
      ensures View() == old(View()).(tasks := old(View()).tasks[t.id := t.Value()])
    {
      ghost var ts := Values(known);
      known := known[t.id := t];
      assert Values(known) == ts[t.id := t.Value()];
    }

    /** q.indexOfIdemKeys[key] = &t.ID */
    method BindKey(key: Key, id: Id)
      requires Valid()
      modifies this`keys
      ensures Valid() && View() == old(View()).(keys := old(View()).keys[key := id])
    {
      hide Within, Listed, Identified;
      ghost var ts := Values(known);
      keys := keys[key := id];
      assert Values(known) == ts;
    }

    /** Up to the first unlock: the existing ID, or a new task object that nobody else can see. */
    method EnqueueCheck(payload: Bytes, key: Key, id: Id, now: Time) returns (existing: Option<Id>, t: TaskObject?)
      requires Valid()
      ensures Valid() && View() == old(View())
      ensures existing == if Bound(View(), key) then Some(keys[key]) else None
      ensures existing.None? <==> t != null
      ensures t != null ==> fresh(t) && t.id == id && t.key == key && t.Value() == NewTask(key, payload, now)
      ensures t != null ==> t.payload == payload && t.enqueuedAt == now && t.priority == 0 && NeverTried(t.Value())
    {
      if key != [] && key in keys {
        return Some(keys[key]), null;
      }
      t := new TaskObject(id, key, payload, now, 0);
      existing := None;
    }

    /** From the second lock on: recheck, then publish. */
    method EnqueueCommit(t: TaskObject) returns (id: Id)
      requires Valid() && t.id !in known
      modifies this`index, this`keys, this`known, heap
      ensures Valid()
      ensures View() == CommitEnqueue(old(View()), t.id, t.Value())
      ensures id == EnqueueResult(old(View()), t.id, t.key)
      ensures id == if Bound(old(View()), t.key) then old(keys)[t.key] else t.id
    {
      hide ReadyHeap.Push;
      if t.key != [] && t.key in keys {
        return keys[t.key];
      }
      assert !Bound(View(), t.key);
      hide View, Valid;
      Adopt(t);
      PushTask(t);
      IndexTask(t);
      BindKey(t.key, t.id);
      id := t.id;
    }

    /** A call that meets no other: check, append, commit. */
    method Enqueue(payload: Bytes, key: Key, id: Id, now: Time) returns (result: Option<Id>)
      requires Valid() && wal.Valid() && id !in known
      modifies this`index, this`keys, this`known, this`log, heap, wal
      ensures Valid() && wal.Valid()
      ensures Bound(old(View()), key) ==>
                result == Some(old(keys)[key]) && View() == old(View()) && Book() == old(Book())
      ensures !Bound(old(View()), key) ==>
                Appended(Codec.Enqueue(id, key, payload, now, 0), old(Book()), Book(), result.Some?)
      ensures !Bound(old(View()), key) && result.Some? ==>
                result == Some(id) && Created(old(View()), View(), id, key, payload, now)
      ensures result.None? ==> View() == old(View())
      ensures result.Some? ==> View() == CommitEnqueue(old(View()), id, NewTask(key, payload, now))
      ensures result.Some? && old(Recoverable()) && !Enqueued(old(log), id) ==>
                Encodable(EnqueueRecord(id, NewTask(key, payload, now))) ==> Recoverable()
    {
      hide RecoverableAs, EncodeFrame, EncodeRecord, ReadyHeap.Push, Created;
      ghost var m := View();
      var existing, t := EnqueueCheck(payload, key, id, now);
      if existing.Some? {
        return existing;
      }
      assert id !in m.tasks && !Bound(m, key);
      hide View, Valid;
      var ok := AppendRecord(Codec.Enqueue(id, t.key, t.payload, t.enqueuedAt, t.priority));
      if !ok {
        return None;
      }
      var got := EnqueueCommit(t);
      CommitCreates(m, id, key, payload, now);
      if old(Recoverable()) && !Enqueued(old(log), id) && Encodable(EnqueueRecord(id, NewTask(key, payload, now))) {
        EnqueueStaysRecoverable(wal.crc, old(wal.file), old(log), m, id, NewTask(key, payload, now));
      }
      result := Some(got);
    }

    // --- the logged operations ---

    /** Ack. */
    method Ack(id: Id) returns (ok: bool)
      requires Valid() && wal.Valid()
      modifies this`index, this`inflight, this`log, wal, known.Values
      ensures Valid() && wal.Valid()
      ensures Outcome(old(View()), View(), AckOp(id), 0, 0, old(Book()), Book(), ok)
      ensures ok && old(Recoverable()) ==> Recoverable()
    {
      hide View, Valid, RecoverableAs, EncodeFrame, EncodeRecord, Encodable, AckMem, Done;
      FoundAsListed(id);
      if id !in index {
        return false;
      }
      var r, t := Codec.Ack(id), index[id];
      ghost var m := View();
      ok := AppendRecord(r);
      if ok {
        AckMemory(t);
        OpIsDone(m, AckOp(id), 0, maxRetries, 0);
        if old(Recoverable()) {
          IdOnlyIsEncodable(r);
          OpStaysRecoverable(wal.crc, old(wal.file), old(log), m, AckOp(id), 0, maxRetries, 0);
        }
      }
    }

    /** retryLocked's first branch: the task has no retry left. */
    method LogDead(t: TaskObject, failedAt: Time) returns (ok: bool)
      requires Valid() && wal.Valid() && t.id in index && t == index[t.id]
      modifies this`index, this`inflight, this`dlq, this`log, wal, t
      ensures Valid() && wal.Valid()
      ensures Appended(Dead(t.id, old(t.retries) + 1, failedAt), old(Book()), Book(), ok)
      ensures View() == if ok then DeadMem(old(View()), t.id, failedAt) else old(View())
    {
      hide View, Valid, DeadMem, Appended, EncodeRecord;
      PointsTo(t);
      ok := AppendRecord(Dead(t.id, t.retries + 1, failedAt));
      if ok {
        DeadMemory(t, failedAt);
      }
    }

    /** Its second branch: back on ready, after the backoff. */
    method LogRetry(t: TaskObject, availableAt: Time) returns (ok: bool)
      requires Valid() && wal.Valid() && t.id in index && t == index[t.id]
      modifies this`inflight, this`log, heap, wal, t
      ensures Valid() && wal.Valid()
      ensures Appended(Codec.Retry(t.id), old(Book()), Book(), ok)
      ensures View() == if ok then RetryMem(old(View()), t.id, availableAt) else old(View())
    {
      hide View, Valid, RetryMem, Appended, EncodeRecord;
      PointsTo(t);
      ok := AppendRecord(Codec.Retry(t.id));
      if ok {
        RetryMemory(t, availableAt);
      }
    }

    /** retryLocked, once the task is found. */
    method RetryFound(t: TaskObject, failedAt: Time, availableAt: Time) returns (ok: bool)
      requires Valid() && wal.Valid() && t.id in index && t == index[t.id] && Found(View(), RetryOp(t.id))
      modifies this`index, this`inflight, this`dlq, this`log, heap, wal, t
      ensures Valid() && wal.Valid()
      ensures var r := OpRecord(old(View()), RetryOp(t.id), failedAt, maxRetries);
              && Appended(r, old(Book()), Book(), ok)
              && View() == if ok then OpMem(old(View()), r, availableAt) else old(View())
    {
      PointsTo(t);
      ghost var m := View();
      RetryChoice(m, t.id, failedAt, maxRetries, availableAt);
      hide View, Valid, DeadMem, RetryMem, Appended, EncodeRecord, OpRecord, OpMem;
      if t.retries + 1 > maxRetries {
        ok := LogDead(t, failedAt);
      } else {
        ok := LogRetry(t, availableAt);
      }
    }

    /** Retry and retryLocked; failedAt and availableAt are the clock, and the clock plus the backoff. */
    method Retry(id: Id, failedAt: Time, availableAt: Time) returns (ok: bool)
      requires Valid() && wal.Valid()
      modifies this`index, this`inflight, this`dlq, this`log, heap, wal, known.Values
      ensures Valid() && wal.Valid()
      ensures Outcome(old(View()), View(), RetryOp(id), failedAt, availableAt, old(Book()), Book(), ok)
      ensures ok && old(Recoverable()) ==>
                Encodable(OpRecord(old(View()), RetryOp(id), failedAt, maxRetries)) ==> Recoverable()
    {
      hide View, Valid, RecoverableAs, EncodeFrame, EncodeRecord, OpMem, OpRecord, Encodable, Done;
      FoundAsListed(id);
      if id !in index {
        return false;
      }
      ghost var m := View();
      var t := index[id];
      ok := RetryFound(t, failedAt, availableAt);
      OpIsDone(m, RetryOp(id), failedAt, maxRetries, availableAt);
      if ok && old(Recoverable()) && Encodable(OpRecord(m, RetryOp(id), failedAt, maxRetries)) {
        OpStaysRecoverable(wal.crc, old(wal.file), old(log), m, RetryOp(id), failedAt, maxRetries, availableAt);
      }
    }

    /** RequeueDead. */
    method RequeueDead(id: Id) returns (ok: bool)
      requires Valid() && wal.Valid()
      modifies this`index, this`dlq, this`log, heap, wal, known.Values
      ensures Valid() && wal.Valid()
      ensures Outcome(old(View()), View(), RequeueOp(id), 0, 0, old(Book()), Book(), ok)
      ensures ok ==> forall now :: ZERO_TIME <= now ==> Due(View(), id, now)
      ensures ok && old(Recoverable()) ==> Recoverable()
    {
      hide View, Valid, RecoverableAs, EncodeFrame, EncodeRecord, Encodable, RequeueMem, Revived;
      FoundAsListed(id);
      if id !in dlq {
        return false;
      }
      var r, t := Codec.Requeue(id), dlq[id];
      ghost var m := View();
      ok := AppendRecord(r);
      if ok {
        RequeueMemory(t);
        OpIsDone(m, RequeueOp(id), 0, maxRetries, 0);
        RevivedIsDue(m, View(), id);
        if old(Recoverable()) {
          IdOnlyIsEncodable(r);
          OpStaysRecoverable(wal.crc, old(wal.file), old(log), m, RequeueOp(id), 0, maxRetries, 0);
        }
      }
    }

    /** PurgeDeadTask. */
    method PurgeDeadTask(id: Id) returns (ok: bool)
      requires Valid() && wal.Valid()
      modifies this`dlq, this`log, wal
      ensures Valid() && wal.Valid()
      ensures Outcome(old(View()), View(), PurgeOp(id), 0, 0, old(Book()), Book(), ok)
      ensures ok && old(Recoverable()) ==> Recoverable()
    {
      hide View, Valid, RecoverableAs, EncodeFrame, EncodeRecord, Encodable, Done;
      FoundAsListed(id);
      if id !in dlq {
        return false;
      }
      var r := Codec.Purge(id);
      ghost var m := View();
      ok := AppendRecord(r);
      if ok {
        Unbury(id);
        OpIsDone(m, PurgeOp(id), 0, maxRetries, 0);
        if old(Recoverable()) {
          IdOnlyIsEncodable(r);
          OpStaysRecoverable(wal.crc, old(wal.file), old(log), m, PurgeOp(id), 0, maxRetries, 0);
        }
      }
    }

    // --- the lease sweeper ---

    /**
      * Sweeper. The map is walked in no particular order; only the entry being visited is ever deleted. visits is the
      * walk as it happened; without an append failure it covers every entry that was in flight at the start.
      */
    method Sweeper(start: Time) returns (ok: bool, end: Time, ghost visits: seq<Visit>)
      requires Valid() && wal.Valid()
      modifies this`index, this`inflight, this`dlq, this`log, heap, wal, known.Values
      ensures Valid() && wal.Valid()
      ensures View() == SweepAll(maxRetries, old(View()), visits)
      ensures start <= end && Timed(visits, start, end)
      ensures ok ==> Covers(old(View()), visits)
      ensures ok && old(Recoverable()) && SweepFits(maxRetries, old(View()), visits) ==> Recoverable()
      ensures Asked(old(wal.answers), wal.answers, ok, Unlisted(View(), end))
    {
      hide View, Valid, InPass, SweepOne, SweepAll, Covers, RecoverableAs, VisitFits;
      ok, end, visits := true, start, [];
      ghost var m := View();
      var todo := inflight.Keys;
      LeasedEntries();
      PassBegins(maxRetries, m, start);
      assert SweepFits(maxRetries, m, []);
      hide SweepFits;
      while todo != {}
        invariant Valid() && wal.Valid() && ok
        invariant InPass(maxRetries, m, View(), todo, visits, start, end)
        invariant old(Recoverable()) && SweepFits(maxRetries, m, visits) ==> Recoverable()
        invariant Asked(old(wal.answers), wal.answers, true, false)
        decreases |todo|
      {
        var id :| id in todo;
        ghost var v, a1 := Visit(id, end, end, end), wal.answers;
        ok, end, v := SweepEntry(id, end, m, todo, visits, start);
        AskedOn(old(wal.answers), a1, wal.answers, ok, Unlisted(View(), end));
        if !ok {
          return;
        }
        if SweepFits(maxRetries, m, visits + [v]) {
          SweepFitsSnoc(maxRetries, m, visits, v);
        }
        visits := visits + [v];
        todo := todo - {id};
      }
      PassEnds(maxRetries, m, View(), visits, start, end);
    }

    lemma LeasedEntries()
      ensures View().inflight == inflight.Keys
    {
    }

    /** The next step of a pass: three readings of the clock, which never goes back, and the visit they time. */
    method SweepEntry(id: Id, last: Time, ghost m: Mem, ghost todo: set<Id>, ghost vs: seq<Visit>, ghost start: Time)
      returns (ok: bool, end: Time, ghost v: Visit)
      requires Valid() && wal.Valid() && InPass(maxRetries, m, View(), todo, vs, start, last) && id in todo
      modifies this`index, this`inflight, this`dlq, this`log, heap, wal, known.Values
      ensures Valid() && wal.Valid()
      ensures old(View()) == SweepAll(maxRetries, m, vs)
      ensures !ok ==> View() == old(View()) && start <= end && Timed(vs, start, end)
      ensures ok ==> InPass(maxRetries, m, View(), todo - {id}, vs + [v], start, end)
      ensures ok && old(Recoverable()) && VisitFits(maxRetries, old(View()), v) ==> Recoverable()
      ensures Asked(old(wal.answers), wal.answers, ok, Unlisted(View(), end))
    {
      hide View, Valid, InPass, SweepOne, SweepAll, RecoverableAs, VisitFits;
      ghost var m1 := View();
      end :| last <= end;
      var failedAt: Time :| end <= failedAt;
      var availableAt: Time :| failedAt <= availableAt; // with the backoff added
      v := Visit(id, end, failedAt, availableAt);
      InPassIsLeased(maxRetries, m, m1, todo, vs, start, last);
      ok := VisitEntry(id, end, failedAt, availableAt);
      if ok {
        PassGoesOn(maxRetries, m, m1, View(), todo, vs, start, last, v);
      } else {
        PassPauses(maxRetries, m, m1, todo, vs, start, last, end);
      }
    }

    /** One iteration: the lease test, then retryLocked. */
    method VisitEntry(id: Id, now: Time, failedAt: Time, availableAt: Time) returns (ok: bool)
      requires Valid() && wal.Valid() && id in View().inflight
      modifies this`index, this`inflight, this`dlq, this`log, heap, wal, known.Values
      ensures Valid() && wal.Valid()
      ensures !ok ==> View() == old(View())
      ensures ok ==> View() == SweepOne(maxRetries, old(View()), Visit(id, now, failedAt, availableAt))
      ensures ok ==> old(View()).inflight - {id} <= View().inflight
      ensures ok && old(Recoverable()) ==>
                VisitFits(maxRetries, old(View()), Visit(id, now, failedAt, availableAt)) ==> Recoverable()
      ensures Asked(old(wal.answers), wal.answers, ok, Unlisted(View(), now))
    {
      hide View, Valid, RecoverableAs, EncodeFrame, EncodeRecord, Encodable, OpMem, OpRecord, Done, SweepOne;
      LeasedAsListed(id);
      FoundAsListed(id);
      ghost var m, v := View(), Visit(id, now, failedAt, availableAt);
      VisitIs(maxRetries, m, v);
      ok := true;
      var t := inflight[id];
      if t.leaseUntil < now {
        ok := Retry(id, failedAt, availableAt);
      }
    }

    /** A leased task is the object the map lists, and its value is on record. */
    lemma LeasedAsListed(id: Id)
      requires Valid()
      ensures id in View().inflight <==> id in inflight
      ensures id in inflight ==> id in View().tasks && View().tasks[id] == inflight[id].Value()
      ensures id in index <==> id in View().index
    {
    }

    // --- recovery ---

    /** The loop that takes a task out of ready by ID. */
    method DropReady(id: Id)
      requires Valid()
      modifies heap
      ensures Valid() && View() == old(View()).(ready := Drop(old(View()).ready, id))
    {
      hide Within, Identified;
      ghost var ids := IdsOf(heap.items);
      var i := 0;
      while i < |heap.items| && heap.items[i].id != id
        invariant i <= |heap.items| && IdsOf(heap.items) == ids && heap.items == old(heap.items)
        invariant forall k :: 0 <= k < i ==> ids[k] != id
      {
        i := i + 1;
      }
      DropAt(ids, id, i);
      if i < |heap.items| {
        IdsWithout(heap.items, i);
        heap.items := heap.items[..i] + heap.items[i + 1..];
      }
    }

    /** q.ready = append(q.ready, t) */
    method AppendReady(t: TaskObject)
      requires Valid() && t.id in known && known[t.id] == t
      modifies heap
      ensures Valid() && View() == old(View()).(ready := old(View()).ready + [t.id])
    {
      hide Within, Identified;
      ghost var ids := IdsOf(heap.items);
      heap.items := heap.items + [t];
      assert IdsOf(heap.items) == ids + [t.id];
    }

    /** What applying a record must do; a task that is not there cannot be dereferenced. */
    ghost predicate Applied(m: Mem, m': Mem, r: Record, now: Time, ok: bool) {
      match ApplyRecord(m, r, now)
      case None => !ok && m' == m
      case Some(after) => ok && m' == after
    }

    /** A replayed task enters ready, index and the key map. */
    method Publish(t: TaskObject)
      requires Valid() && t.id !in known
      modifies this`index, this`keys, this`known, heap
      ensures Valid() && known == old(known)[t.id := t]
      ensures View() == old(View()).(tasks := old(View()).tasks[t.id := t.Value()],
                                     ready := old(View()).ready + [t.id],
                                     index := old(View()).index + {t.id},
                                     keys := old(View()).keys[t.key := t.id])
    {
      hide View, Valid;
      Adopt(t);
      AppendReady(t);
      IndexTask(t);
      BindKey(t.key, t.id);
    }

    method ApplyEnqueue(r: Record, now: Time)
      requires Valid() && r.Enqueue? && r.id !in View().tasks
      modifies this`index, this`keys, this`known, heap
      ensures Valid() && Applied(old(View()), View(), r, now, true)
      ensures forall id :: id in known ==> (id in old(known) && known[id] == old(known)[id]) || fresh(known[id])
    {
      assert r.id !in known && (Bound(View(), r.key) <==> r.key != [] && r.key in keys);
      hide View, Valid;
      var t := new TaskObject(r.id, r.key, r.payload, r.enqueuedAt, r.priority);
      if r.key != [] && r.key in keys {
        return;
      }
      Publish(t);
    }

    method ApplyDequeue(r: Record, now: Time) returns (ok: bool)
      requires Valid() && r.Dequeue?
      modifies this`inflight, known.Values
      ensures Valid() && Applied(old(View()), View(), r, now, ok)
    {
      hide View, Valid;
      FoundAsListed(r.id);
      ok := r.id in index;
      if ok {
        var t := index[r.id];
        PointsTo(t);
        UpdateTask(t, StateInflight, t.retries, t.availableAt, t.failedAt, t.leaseUntil);
        LeaseTask(t);
      }
    }

    method ApplyAck(r: Record, now: Time)
      requires Valid() && r.Ack?
      modifies this`index, heap
      ensures Valid() && Applied(old(View()), View(), r, now, true)
    {
      hide View, Valid, Drop;
      Unindex(r.id);
      DropReady(r.id);
    }

    method ApplyRetry(r: Record, now: Time) returns (ok: bool)
      requires Valid() && r.Retry?
      modifies this`inflight, known.Values
      ensures Valid() && Applied(old(View()), View(), r, now, ok)
    {
      hide View, Valid;
      FoundAsListed(r.id);
      ok := r.id in index;
      if ok {
        var t := index[r.id];
        PointsTo(t);
        UpdateTask(t, StateReady, t.retries + 1, now, t.failedAt, t.leaseUntil);
        Unlease(r.id);
      }
    }

    method ApplyDead(r: Record, now: Time) returns (ok: bool)
      requires Valid() && r.Dead?
      modifies this`index, this`inflight, this`dlq, heap, known.Values
      ensures Valid() && Applied(old(View()), View(), r, now, ok)
    {
      hide View, Valid, Drop;
      FoundAsListed(r.id);
      ok := r.id in index;
      if ok {
        var t := index[r.id];
        PointsTo(t);
        DropReady(r.id);
        UpdateTask(t, StateDead, r.retries, t.availableAt, r.failedAt, t.leaseUntil);
        MoveToDlq(t);
      }
    }

    method ApplyRequeue(r: Record, now: Time) returns (ok: bool)
      requires Valid() && r.Requeue?
      modifies this`index, this`dlq, heap, known.Values
      ensures Valid() && Applied(old(View()), View(), r, now, ok)
    {
      hide View, Valid;
      FoundAsListed(r.id);
      ok := r.id in dlq;
      if ok {
        var t := dlq[r.id];
        PointsTo(t);
        UpdateTask(t, StateReady, 0, ZERO_TIME, ZERO_TIME, t.leaseUntil);
        Unbury(r.id);
        IndexTask(t);
        AppendReady(t);
      }
    }

    /** applyRecord, once decoded; ok is false where the source would dereference a nil task. */
    method Apply(r: Record, now: Time) returns (ok: bool)
      requires Valid() && (r.Enqueue? ==> r.id !in View().tasks)
      modifies this`index, this`inflight, this`keys, this`dlq, this`known, heap, known.Values
      ensures Valid() && Applied(old(View()), View(), r, now, ok)
      ensures forall id :: id in known ==> (id in old(known) && known[id] == old(known)[id]) || fresh(known[id])
    {
      hide Valid, View, Applied;
      ok := true;
      match r {
        case Enqueue(_, _, _, _, _) => ApplyEnqueue(r, now);
        case Dequeue(_, _, _) => ok := ApplyDequeue(r, now);
        case Ack(_) => ApplyAck(r, now);
        case Retry(_) => ok := ApplyRetry(r, now);
        case Dead(_, _, _) => ok := ApplyDead(r, now);
        case Requeue(_) => ok := ApplyRequeue(r, now);
        case Purge(id) =>
          ghost var m := View();
          Unbury(id);
          PurgeApplied(m, r, now);
      }
    }

    lemma AppliedIs(m: Mem, m': Mem, r: Record, now: Time, ok: bool)
      requires Applied(m, m', r, now, ok)
      ensures ApplyRecord(m, r, now) == if ok then Some(m') else None
    {
      hide ApplyRecord;
    }

    lemma PurgeApplied(m: Mem, r: Record, now: Time)
      requires r.Purge?
      ensures Applied(m, m.(dlq := m.dlq - {r.id}), r, now, true)
    {
    }

    /** applyRecord: decode, then apply. */
    method ApplyBody(body: Bytes, now: Time) returns (status: Opening<()>)
      requires Valid() && (EnqueueBody(body) ==> DecodeRecord(body).value.id !in View().tasks)
      modifies this`index, this`inflight, this`keys, this`dlq, this`known, heap, known.Values
      ensures Valid()
      ensures match DecodeRecord(body)
              case Err(error) => status == Refused(error)
              case Ok(r) =>
                match ApplyRecord(old(View()), r, now)
                case None => status == Panicked
                case Some(m) => status == Opened(()) && View() == m
      ensures forall id :: id in known ==> (id in old(known) && known[id] == old(known)[id]) || fresh(known[id])
    {
      hide Valid, View, Applied, DecodeRecord, ApplyRecord;
      match DecodeRecord(body) {
        case Err(error) => status := Refused(error);
        case Ok(r) =>
          ghost var m := View();
          var ok := Apply(r, now);
          AppliedIs(m, View(), r, now, ok);
          status := if ok then Opened(()) else Panicked;
      }
    }

    /** WAL.Replay calling applyRecord, on a queue just constructed. */
    method ReplayFile(clock: seq<Time>) returns (status: Opening<()>)
      requires Valid() && View() == EMPTY && |clock| == |Parse(wal.crc, wal.file)|
      requires DistinctBodies(Parse(wal.crc, wal.file))
      modifies this`index, this`inflight, this`keys, this`dlq, this`known, heap
      ensures Valid()
      ensures match ReplayBodies(Parse(wal.crc, wal.file), clock)
              case Opened(m) => status == Opened(()) && View() == m
              case Refused(error) => status == Refused(error)
              case Panicked => status == Panicked
    {
      var bodies := wal.Replay();
      var i := 0;
      assert bodies[..0] == [] && clock[..0] == [] && known == map[];
      while i < |bodies|
        invariant i <= |bodies| && Valid() && forall id :: id in known ==> fresh(known[id])
        invariant ReplayBodies(bodies[..i], clock[..i]) == Opened(View())
      {
        hide Valid, View, DecodeRecord, ApplyRecord, DistinctBodies, ReplayBodies, Parse;
        BodyStep(bodies, clock, i);
        FreshBody(bodies, clock, i);
        status := ApplyBody(bodies[i], clock[i]);
        i := i + 1;
        if !status.Opened? {
          FailureSticks(bodies, clock, i);
          return;
        }
      }
      assert bodies[..i] == bodies && clock[..i] == clock;
      status := Opened(());
    }

    /** heap.Init(&q.ready) */
    method InitHeap()
      requires Valid()
      modifies heap
      ensures Valid() && View() == old(View()).(ready := ReadyHeap.Init(old(View()).tasks, old(View()).ready))
    {
      hide Within, Identified;
      HeapSnapshot();
      heap.Init(Values(known));
    }

    ghost method SetLog(produced: seq<Record>)
      requires Valid()
      modifies this`log
      ensures Valid() && View() == old(View()) && log == produced
    {
      log := produced;
    }

    /** The rest of NewQueue. produced is the log the file was written from, when there is one. */
    method Load(clock: seq<Time>, ghost produced: seq<Record>) returns (status: Opening<()>)
      requires Valid() && View() == EMPTY && |clock| == |Parse(wal.crc, wal.file)|
      requires DistinctBodies(Parse(wal.crc, wal.file))
      modifies this`index, this`inflight, this`keys, this`dlq, this`known, this`log, heap
      ensures Valid()
      ensures match NewQueue(wal.crc, wal.file, clock)
              case Opened(m) => status == Opened(()) && View() == m
              case Refused(error) => status == Refused(error)
              case Panicked => status == Panicked
      ensures status == Opened(()) && ProducedFile(wal.crc, wal.file, produced) ==>
                Recoverable() && AsLogged(View(), produced, clock) && AsSubmitted(View(), produced)
    {
      hide Valid, View, ProducedFile, RecoverableAs, ReplayBodies, Parse, DistinctBodies, AsLogged, AsSubmitted;
      status := ReplayFile(clock);
      if status == Opened(()) {
        InitHeap();
        SetLog(produced);
        if ProducedFile(wal.crc, wal.file, produced) {
          OpenedIsRecoverable(wal.crc, wal.file, produced, clock);
          OpenedAsLogged(wal.crc, wal.file, produced, clock);
        }
      }
    }

    /** One append, and what it was answered: nil with the record in the log and its frame in the file, or an error. */
    ghost predicate Appended(r: Record, j: Journal, j': Journal, ok: bool) {
      var whole := j.file + EncodeFrame(wal.crc, EncodeRecord(r));
      && j'.answers == j.answers + [ok]
      && if ok then j'.log == j.log + [r] && j'.file == whole else j'.log == j.log && j.file <= j'.file <= whole
    }

    /**
      * How a logged operation ends. If its task is not there, with an error and nothing written. Otherwise as its one
      * append was answered: on nil the operation is done, on an error memory is untouched.
      */
    ghost predicate Outcome(
      m: Mem, m': Mem, op: Op, now: Time, availableAt: Time, j: Journal, j': Journal, ok: bool)
    {
      && (!Found(m, op) ==> !ok && j' == j)
      && (Found(m, op) ==>
            var r := OpRecord(m, op, now, maxRetries);
            && Appended(r, j, j', ok)
            && (ok ==> m' == OpMem(m, r, availableAt) && Done(m, m', op, now, availableAt, maxRetries)))
      && (!ok ==> m' == m)
    }
  }
}
