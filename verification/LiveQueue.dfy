/** queue.go: the queue's memory and what each live operation does to it. */
module LiveQueue {
  import opened ByteStrings
  import opened Codec
  import opened Tasks
  import ReadyHeap

  datatype Option<+T> = None | Some(value: T)

  /** The fields of Queue; index, inflight and dlq map an ID to the task object with that ID. */
  datatype Mem = Mem(
    tasks: Store,
    ready: seq<Id>,
    index: set<Id>,
    inflight: set<Id>,
    keys: map<Key, Id>,
    dlq: set<Id>)

  const EMPTY := Mem(map[], [], {}, {}, map[], {})

  /** The deduplication test both halves of Enqueue make. */
  predicate Bound(m: Mem, key: Key) {
    key != [] && key in m.keys
  }

  function NewTask(key: Key, payload: Bytes, now: Time): Task {
    Task(key, payload, StateReady, 0, ZERO_TIME, ZERO_TIME, 0, now, ZERO_TIME)
  }

  function EnqueueRecord(id: Id, t: Task): Record {
    Enqueue(id, t.key, t.payload, t.enqueuedAt, t.priority)
  }

  /** The second critical section of Enqueue: recheck the key, then make the task visible. */
  function CommitEnqueue(m: Mem, id: Id, t: Task): Mem {
    if Bound(m, t.key) then m else
    var tasks := m.tasks[id := t];
    m.(tasks := tasks,
       ready := ReadyHeap.Push(tasks, m.ready, id),
       index := m.index + {id},
       keys := m.keys[t.key := id])
  }

  /** The ID a committing Enqueue returns. */
  function EnqueueResult(m: Mem, id: Id, key: Key): Id {
    if Bound(m, key) then m.keys[key] else id
  }

  /** Dequeue's test on the heap root: is anything handed out at time now? */
  predicate RootDue(m: Mem, now: Time) {
    m.ready != [] && RankOf(m.tasks, m.ready[0]).availableAt <= now
  }

  /** A task object with its lease set; the objects on the heap are never missing. */
  function Leased(ts: Store, id: Id, lease: Time): Store {
    if id in ts then ts[id := ts[id].(status := StateInflight, leaseUntil := lease)] else ts
  }

  /** Dequeue: pop the root if it is due, and lease it. */
  function DequeueMem(m: Mem, now: Time, visibility: Time): Mem {
    if !RootDue(m, now) then m else
    var id := m.ready[0];
    m.(tasks := Leased(m.tasks, id, now + visibility),
       ready := ReadyHeap.Pop(m.tasks, m.ready),
       inflight := m.inflight + {id})
  }

  // --- the logged operations ---

  /** What a caller of Ack, Retry, RequeueDead or PurgeDeadTask asks for. */
  datatype Op = AckOp(id: Id) | RetryOp(id: Id) | RequeueOp(id: Id) | PurgeOp(id: Id)

  predicate Found(m: Mem, op: Op) {
    op.id in m.tasks && op.id in (if op.AckOp? || op.RetryOp? then m.index else m.dlq)
  }

  /** The record the operation appends before it touches memory. */
  function OpRecord(m: Mem, op: Op, now: Time, maxRetries: int): Record
    requires Found(m, op)
  {
    match op
    case AckOp(id) => Ack(id)
    case RetryOp(id) =>
      var retries := m.tasks[id].retries + 1;
      if retries > maxRetries then Dead(id, retries, now) else Retry(id)
    case RequeueOp(id) => Requeue(id)
    case PurgeOp(id) => Purge(id)
  }

  function AckMem(m: Mem, id: Id): Mem
    requires id in m.tasks
  {
    m.(tasks := m.tasks[id := m.tasks[id].(status := StateDone)],
       inflight := m.inflight - {id},
       index := m.index - {id})
  }

  function RetryMem(m: Mem, id: Id, availableAt: Time): Mem
    requires id in m.tasks
  {
    var t := m.tasks[id];
    var tasks := m.tasks[id := t.(status := StateReady, availableAt := availableAt, retries := t.retries + 1)];
    m.(tasks := tasks,
       ready := ReadyHeap.Push(tasks, m.ready, id),
       inflight := m.inflight - {id})
  }

  function DeadMem(m: Mem, id: Id, failedAt: Time): Mem
    requires id in m.tasks
  {
    var t := m.tasks[id];
    m.(tasks := m.tasks[id := t.(status := StateDead, failedAt := failedAt, retries := t.retries + 1)],
       dlq := m.dlq + {id},
       index := m.index - {id},
       inflight := m.inflight - {id})
  }

  function RequeueMem(m: Mem, id: Id): Mem
    requires id in m.tasks
  {
    var t := m.tasks[id].(status := StateReady, retries := 0, availableAt := ZERO_TIME, failedAt := ZERO_TIME);
    var tasks := m.tasks[id := t];
    m.(tasks := tasks,
       dlq := m.dlq - {id},
       index := m.index + {id},
       ready := ReadyHeap.Push(tasks, m.ready, id))
  }

  function PurgeMem(m: Mem, id: Id): Mem {
    m.(dlq := m.dlq - {id})
  }

  /** What the operation does to memory once its record is durable; availableAt is now plus the retry backoff. */
  function OpMem(m: Mem, r: Record, availableAt: Time): Mem
    requires r.id in m.tasks
  {
    match r
    case Ack(id) => AckMem(m, id)
    case Retry(id) => RetryMem(m, id, availableAt)
    case Dead(id, _, failedAt) => DeadMem(m, id, failedAt)
    case Requeue(id) => RequeueMem(m, id)
    case Purge(id) => PurgeMem(m, id)
    case _ => m
  }

  // --- invariants of the memory ---

  /** Every ID in a collection has its task object, and no task is both live and dead. */
  ghost predicate Sound(m: Mem) {
    && m.index <= m.tasks.Keys
    && m.dlq <= m.tasks.Keys
    && (forall id :: id in m.ready ==> id in m.tasks)
    && m.inflight <= m.tasks.Keys
    && m.index !! m.dlq
  }

  /** ready lists, without repetition, exactly the indexed tasks that are not leased out. */
  ghost predicate Partitioned(m: Mem) {
    && Sound(m)
    && m.inflight <= m.index
    && multiset(m.ready) == multiset(m.index - m.inflight)
  }

  /** The partition, together with the heap order that Dequeue relies on. */
  ghost predicate WellFormed(m: Mem) {
    Partitioned(m) && ReadyHeap.Ordered(m.tasks, m.ready)
  }

  lemma InReady(s: seq<Id>, xs: set<Id>)
    requires multiset(s) == multiset(xs)
    ensures forall id :: id in s <==> id in xs
  {
    forall id
      ensures id in s <==> id in xs
    {
      assert id in s <==> id in multiset(s);
      assert id in xs <==> id in multiset(xs);
    }
  }

  lemma PushMembers(ts: Store, s: seq<Id>, x: Id)
    ensures forall id :: id in ReadyHeap.Push(ts, s, x) <==> id in s || id == x
  {
    ReadyHeap.PushPermutes(ts, s, x);
    var p := ReadyHeap.Push(ts, s, x);
    forall id
      ensures id in p <==> id in s || id == x
    {
      assert id in p <==> id in multiset(p);
      assert id in s <==> id in multiset(s);
    }
  }

  lemma PopMembers(ts: Store, s: seq<Id>)
    requires s != []
    ensures forall id :: id in ReadyHeap.Pop(ts, s) ==> id in s
  {
    ReadyHeap.PopPermutes(ts, s);
    var p := ReadyHeap.Pop(ts, s);
    forall id | id in p
      ensures id in s
    {
      assert id in multiset(p) && id in multiset(s);
    }
  }

  /** Soundness is kept by every operation, disciplined or not. */
  lemma CommitKeepsSound(m: Mem, id: Id, t: Task)
    requires Sound(m) && id !in m.index && id !in m.dlq
    ensures Sound(CommitEnqueue(m, id, t))
  {
    PushMembers(m.tasks[id := t], m.ready, id);
  }

  lemma DequeueKeepsSound(m: Mem, now: Time, visibility: Time)
    requires Sound(m)
    ensures Sound(DequeueMem(m, now, visibility))
  {
    if RootDue(m, now) {
      PopMembers(m.tasks, m.ready);
      assert m.ready[0] in m.ready;
    }
  }

  lemma OpKeepsSound(m: Mem, op: Op, now: Time, maxRetries: int, availableAt: Time)
    requires Sound(m) && Found(m, op)
    ensures Sound(OpMem(m, OpRecord(m, op, now, maxRetries), availableAt))
  {
    match OpRecord(m, op, now, maxRetries)
    case Retry(id) =>
      var m' := RetryMem(m, id, availableAt);
      PushMembers(m'.tasks, m.ready, id);
    case Requeue(id) =>
      var m' := RequeueMem(m, id);
      PushMembers(m'.tasks, m.ready, id);
    case _ =>
  }
}
