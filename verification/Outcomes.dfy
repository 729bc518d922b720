/** What each operation has done when it returns success, field by field. */
module Outcomes {
  import opened ByteStrings
  import opened Codec
  import opened Tasks
  import opened LiveQueue
  import opened Machine
  import opened LeaseDiscipline
  import ReadyHeap

  /** What the caller of Enqueue gave, and what no operation changes afterwards. */
  predicate Carries(t: Task, key: Key, payload: Bytes, enqueuedAt: Time) {
    t.key == key && t.payload == payload && t.enqueuedAt == enqueuedAt
  }

  predicate SameSubmission(t: Task, t': Task) {
    Carries(t', t.key, t.payload, t.enqueuedAt) && t'.priority == t.priority
  }

  /** Nothing has happened to other tasks. */
  ghost predicate SameElsewhere(m: Mem, m': Mem, id: Id) {
    forall x :: x != id ==>
      && (x in m'.tasks <==> x in m.tasks) && (x in m.tasks ==> m'.tasks[x] == m.tasks[x])
      && (x in m'.index <==> x in m.index) && (x in m'.inflight <==> x in m.inflight)
      && (x in m'.dlq <==> x in m.dlq) && multiset(m'.ready)[x] == multiset(m.ready)[x]
  }

  /** The task is still the one submitted, and it is on ready so many times more. */
  ghost predicate Moved(m: Mem, m': Mem, id: Id, more: int) {
    && id in m.tasks && id in m'.tasks && SameSubmission(m.tasks[id], m'.tasks[id])
    && multiset(m'.ready)[id] == multiset(m.ready)[id] + more
    && m'.keys == m.keys && SameElsewhere(m, m', id)
  }

  /** A task never tried, and due since the zero time. */
  predicate NeverTried(t: Task) {
    && t.status == StateReady && t.retries == 0
    && t.availableAt == ZERO_TIME && t.failedAt == ZERO_TIME
  }

  /** A new task, as its caller gave it, and live. */
  ghost predicate Created(m: Mem, m': Mem, id: Id, key: Key, payload: Bytes, now: Time) {
    && id in m'.tasks && Carries(m'.tasks[id], key, payload, now) && NeverTried(m'.tasks[id])
    && m'.tasks[id].priority == 0 && m'.tasks[id].leaseUntil == ZERO_TIME
    && id in m'.index && (id in m'.inflight <==> id in m.inflight) && (id in m'.dlq <==> id in m.dlq)
    && multiset(m'.ready)[id] == multiset(m.ready)[id] + 1
    && key in m'.keys && m'.keys[key] == id && (forall k :: k != key ==> (k in m'.keys <==> k in m.keys))
    && (forall k :: k != key && k in m.keys ==> m'.keys[k] == m.keys[k])
    && SameElsewhere(m, m', id)
  }

  /** Leased out until now plus the visibility timeout. */
  ghost predicate Delivered(m: Mem, m': Mem, id: Id, now: Time, visibility: Time) {
    && Moved(m, m', id, -1)
    && id in m'.inflight && (id in m'.index <==> id in m.index) && (id in m'.dlq <==> id in m.dlq)
    && m'.tasks[id].status == StateInflight && m'.tasks[id].leaseUntil == now + visibility
    && m'.tasks[id].retries == m.tasks[id].retries && m'.tasks[id].availableAt == m.tasks[id].availableAt
    && m'.tasks[id].failedAt == m.tasks[id].failedAt
  }

  ghost predicate Acked(m: Mem, m': Mem, id: Id) {
    && Moved(m, m', id, 0)
    && m'.tasks[id].status == StateDone
    && id !in m'.index && id !in m'.inflight && (id in m'.dlq <==> id in m.dlq)
  }

  /** One more retry, and back on ready for its next time. */
  ghost predicate Postponed(m: Mem, m': Mem, id: Id, availableAt: Time) {
    && Moved(m, m', id, 1)
    && m'.tasks[id].status == StateReady && m'.tasks[id].retries == m.tasks[id].retries + 1
    && m'.tasks[id].availableAt == availableAt && m'.tasks[id].failedAt == m.tasks[id].failedAt
    && id !in m'.inflight && (id in m'.index <==> id in m.index) && (id in m'.dlq <==> id in m.dlq)
  }

  /** One more retry, and into the dead-letter queue with its time of failure. */
  ghost predicate Buried(m: Mem, m': Mem, id: Id, failedAt: Time) {
    && Moved(m, m', id, 0)
    && m'.tasks[id].status == StateDead && m'.tasks[id].retries == m.tasks[id].retries + 1
    && m'.tasks[id].failedAt == failedAt
    && id !in m'.inflight && id !in m'.index && id in m'.dlq
  }

  /** A clean history, and due since the zero time. */
  ghost predicate Revived(m: Mem, m': Mem, id: Id) {
    && Moved(m, m', id, 1) && NeverTried(m'.tasks[id])
    && id in m'.index && id !in m'.dlq && (id in m'.inflight <==> id in m.inflight)
  }

  ghost predicate Purged(m: Mem, m': Mem, id: Id) {
    && Moved(m, m', id, 0) && m'.tasks[id] == m.tasks[id]
    && id !in m'.dlq && (id in m'.index <==> id in m.index) && (id in m'.inflight <==> id in m.inflight)
  }

  /** The operation that was asked for has been carried out. */
  ghost predicate Done(m: Mem, m': Mem, op: Op, now: Time, availableAt: Time, maxRetries: int) {
    match op
    case AckOp(id) => Acked(m, m', id)
    case RetryOp(id) =>
      && id in m.tasks
      && if m.tasks[id].retries + 1 > maxRetries then Buried(m, m', id, now) else Postponed(m, m', id, availableAt)
    case RequeueOp(id) => Revived(m, m', id)
    case PurgeOp(id) => Purged(m, m', id)
  }

  lemma AckIsDone(m: Mem, id: Id)
    requires id in m.tasks
    ensures Acked(m, AckMem(m, id), id)
  {
  }

  lemma RetryIsDone(m: Mem, id: Id, availableAt: Time)
    requires id in m.tasks
    ensures Postponed(m, RetryMem(m, id, availableAt), id, availableAt)
  {
    ReadyHeap.PushPermutes(RetryMem(m, id, availableAt).tasks, m.ready, id);
    hide ReadyHeap.Push;
  }

  lemma DeathIsDone(m: Mem, id: Id, failedAt: Time)
    requires id in m.tasks
    ensures Buried(m, DeadMem(m, id, failedAt), id, failedAt)
  {
  }

  lemma RequeueIsDone(m: Mem, id: Id)
    requires id in m.tasks
    ensures Revived(m, RequeueMem(m, id), id)
  {
    ReadyHeap.PushPermutes(RequeueMem(m, id).tasks, m.ready, id);
    hide ReadyHeap.Push;
  }

  lemma RevivedIsDue(m: Mem, m': Mem, id: Id)
    requires Revived(m, m', id)
    ensures forall now :: ZERO_TIME <= now ==> Due(m', id, now)
  {
  }

  lemma PurgeIsDone(m: Mem, id: Id)
    requires id in m.tasks
    ensures Purged(m, PurgeMem(m, id), id)
  {
  }

  /** A logged operation that has found its task does what it is for. */
  lemma OpIsDone(m: Mem, op: Op, now: Time, maxRetries: int, availableAt: Time)
    requires Found(m, op)
    ensures Done(m, OpMem(m, OpRecord(m, op, now, maxRetries), availableAt), op, now, availableAt, maxRetries)
  {
    hide Acked, Postponed, Buried, Revived, Purged, AckMem, RetryMem, DeadMem, RequeueMem, PurgeMem;
    match op
    case AckOp(id) => AckIsDone(m, id);
    case RetryOp(id) =>
      RetryIsDone(m, id, availableAt);
      DeathIsDone(m, id, now);
    case RequeueOp(id) => RequeueIsDone(m, id);
    case PurgeOp(id) => PurgeIsDone(m, id);
  }

  /** So does the step of every run in which such an operation gets its reply. */
  lemma FinishDoes(cfg: Config, s: Sys, e: Event)
    requires Inv(cfg, s) && Enabled(cfg, s, e) && e.Finish?
    ensures s.holder.Some?
    ensures var h := s.holder.value; Done(s.mem, Next(cfg, s, e).mem, h.op, h.now, e.availableAt, cfg.maxRetries)
  {
    hide Inv, Enabled, Next, Done, OpMem, OpRecord;
    FinishIs(cfg, s, e);
    HolderFound(cfg, s);
    OpIsDone(s.mem, s.holder.value.op, s.holder.value.now, cfg.maxRetries, e.availableAt);
  }

  lemma DequeueDelivers(m: Mem, now: Time, visibility: Time)
    requires RootDue(m, now) && m.ready[0] in m.tasks
    ensures Delivered(m, DequeueMem(m, now, visibility), m.ready[0], now, visibility)
  {
    ReadyHeap.PopPermutes(m.tasks, m.ready);
    hide ReadyHeap.Pop;
  }

  lemma CommitCreates(m: Mem, id: Id, key: Key, payload: Bytes, now: Time)
    requires id !in m.tasks && !Bound(m, key)
    ensures Created(m, CommitEnqueue(m, id, NewTask(key, payload, now)), id, key, payload, now)
    ensures EnqueueResult(m, id, key) == id
  {
    var t := NewTask(key, payload, now);
    ReadyHeap.PushPermutes(m.tasks[id := t], m.ready, id);
    hide ReadyHeap.Push;
  }
}
