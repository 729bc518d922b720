/** queue.go: applyRecord, the second interpreter of the operations, and what recovery rebuilds. */
module Replay {
  import opened ByteStrings
  import opened Codec
  import opened Tasks
  import opened LiveQueue
  import ReadyHeap

  /** The loop that drops a task from ready by ID: the first match goes. */
  function Drop(s: seq<Id>, id: Id): seq<Id> {
    if s == [] then [] else if s[0] == id then s[1..] else [s[0]] + Drop(s[1..], id)
  }

  lemma {:induction false} DropRemovesOne(s: seq<Id>, id: Id)
    ensures multiset(Drop(s, id)) == multiset(s) - multiset{id}
  {
    if s != [] {
      assert s == [s[0]] + s[1..];
      if s[0] != id {
        DropRemovesOne(s[1..], id);
      }
    }
  }

  /**
    * applyRecord on a decoded record. None is the nil dereference of a task that is not there,
    * which stops the process; now is time.Now() as the record is replayed.
    */
  function ApplyRecord(m: Mem, r: Record, now: Time): Option<Mem> {
    match r
    case Enqueue(id, key, payload, enqueuedAt, priority) =>
      if Bound(m, key) then Some(m) else
      var t := Task(key, payload, StateReady, 0, ZERO_TIME, ZERO_TIME, priority, enqueuedAt, ZERO_TIME);
      Some(m.(tasks := m.tasks[id := t],
              ready := m.ready + [id],
              index := m.index + {id},
              keys := m.keys[key := id]))
    case Dequeue(id, _, _) =>
      if id !in m.index || id !in m.tasks then None else
      Some(m.(tasks := m.tasks[id := m.tasks[id].(status := StateInflight)], inflight := m.inflight + {id}))
    case Ack(id) =>
      Some(m.(index := m.index - {id}, ready := Drop(m.ready, id)))
    case Retry(id) =>
      if id !in m.index || id !in m.tasks then None else
      var t := m.tasks[id];
      Some(m.(tasks := m.tasks[id := t.(retries := t.retries + 1, status := StateReady, availableAt := now)],
              inflight := m.inflight - {id}))
    case Dead(id, retries, failedAt) =>
      if id !in m.index || id !in m.tasks then None else
      Some(m.(tasks := m.tasks[id := m.tasks[id].(status := StateDead, retries := retries, failedAt := failedAt)],
              ready := Drop(m.ready, id),
              dlq := m.dlq + {id},
              inflight := m.inflight - {id},
              index := m.index - {id}))
    case Requeue(id) =>
      if id !in m.dlq || id !in m.tasks then None else
      var t := m.tasks[id].(status := StateReady, retries := 0, availableAt := ZERO_TIME, failedAt := ZERO_TIME);
      Some(m.(tasks := m.tasks[id := t],
              dlq := m.dlq - {id},
              index := m.index + {id},
              ready := m.ready + [id]))
    case Purge(id) =>
      Some(m.(dlq := m.dlq - {id}))
  }

  /** Replay of a whole log; clock[i] is the time at which record i is replayed. */
  function ReplayLog(log: seq<Record>, clock: seq<Time>): Option<Mem>
    requires |log| == |clock|
  {
    if log == [] then Some(EMPTY) else
    var n := |log| - 1;
    match ReplayLog(log[..n], clock[..n])
    case None => None
    case Some(m) => ApplyRecord(m, log[n], clock[n])
  }

  /** NewQueue once the log has been read: replay it, then restore the heap. */
  function Recover(log: seq<Record>, clock: seq<Time>): Option<Mem>
    requires |log| == |clock|
  {
    match ReplayLog(log, clock)
    case None => None
    case Some(m) => Some(m.(ready := ReadyHeap.Init(m.tasks, m.ready)))
  }

  // --- the durable part of the state ---

  /** What a crash must not lose about a task: everything but its status, its availability and its lease. */
  datatype Info = Info(key: Key, payload: Bytes, enqueuedAt: Time, priority: int, retries: int, failedAt: Time)

  datatype Durable = Durable(index: map<Id, Info>, dlq: map<Id, Info>, keys: map<Key, Id>)

  const EMPTY_DURABLE := Durable(map[], map[], map[])

  function InfoOf(ts: Store, id: Id): Info {
    if id in ts then
      var t := ts[id];
      Info(t.key, t.payload, t.enqueuedAt, t.priority, t.retries, t.failedAt)
    else Info([], [], 0, 0, 0, 0)
  }

  function InfosOf(ts: Store, ids: set<Id>): map<Id, Info> {
    map id | id in ids :: InfoOf(ts, id)
  }

  /** The empty key is bound by every keyless Enqueue and never looked up, so its binding is not state. */
  function RealKeys(keys: map<Key, Id>): map<Key, Id> {
    map k | k in keys && k != [] :: keys[k]
  }

  function DurableOf(m: Mem): Durable {
    Durable(InfosOf(m.tasks, m.index), InfosOf(m.tasks, m.dlq), RealKeys(m.keys))
  }

  /** The effect of a record on durable state. */
  function Effect(d: Durable, r: Record): Option<Durable> {
    match r
    case Enqueue(id, key, payload, enqueuedAt, priority) =>
      if key != [] && key in d.keys then Some(d) else
      Some(d.(index := d.index[id := Info(key, payload, enqueuedAt, priority, 0, ZERO_TIME)],
              keys := if key == [] then d.keys else d.keys[key := id]))
    case Dequeue(id, _, _) => if id in d.index then Some(d) else None
    case Ack(id) => Some(d.(index := d.index - {id}))
    case Retry(id) =>
      if id !in d.index then None else
      Some(d.(index := d.index[id := d.index[id].(retries := d.index[id].retries + 1)]))
    case Dead(id, retries, failedAt) =>
      if id !in d.index then None else
      Some(d.(index := d.index - {id},
              dlq := d.dlq[id := d.index[id].(retries := retries, failedAt := failedAt)]))
    case Requeue(id) =>
      if id !in d.dlq then None else
      Some(d.(dlq := d.dlq - {id},
              index := d.index[id := d.dlq[id].(retries := 0, failedAt := ZERO_TIME)]))
    case Purge(id) => Some(d.(dlq := d.dlq - {id}))
  }

  function EffectsFrom(d: Durable, rs: seq<Record>): Option<Durable> {
    if rs == [] then Some(d) else
    match EffectsFrom(d, rs[..|rs| - 1])
    case None => None
    case Some(d') => Effect(d', rs[|rs| - 1])
  }

  /** Durable state after a log. */
  function Effects(log: seq<Record>): Option<Durable> {
    EffectsFrom(EMPTY_DURABLE, log)
  }

  lemma EffectsSnoc(d: Durable, rs: seq<Record>, r: Record)
    ensures EffectsFrom(d, rs + [r]) == match EffectsFrom(d, rs) { case None => None case Some(d') => Effect(d', r) }
  {
    assert (rs + [r])[..|rs|] == rs;
  }

  /** A log that replays, replays up to any point. */
  lemma {:induction false} PrefixReplays(log: seq<Record>, n: nat)
    requires n <= |log| && Effects(log).Some?
    ensures Effects(log[..n]).Some?
    decreases |log|
  {
    if n < |log| {
      assert log[..|log| - 1][..n] == log[..n];
      PrefixReplays(log[..|log| - 1], n);
    } else {
      assert log[..n] == log;
    }
  }

  // --- the two interpreters have the same durable effect ---

  /** Changing one task object changes at most its own entry. */
  lemma InfosUpdate(ts: Store, ids: set<Id>, id: Id, t: Task)
    ensures InfosOf(ts[id := t], ids + {id}) ==
            InfosOf(ts, ids)[id := Info(t.key, t.payload, t.enqueuedAt, t.priority, t.retries, t.failedAt)]
    ensures InfosOf(ts[id := t], ids - {id}) == InfosOf(ts, ids) - {id} == InfosOf(ts, ids - {id})
    ensures id !in ids ==> InfosOf(ts[id := t], ids) == InfosOf(ts, ids)
    ensures id in ids ==> ids + {id} == ids
  {
  }

  lemma KeysUpdate(keys: map<Key, Id>, key: Key, id: Id)
    ensures RealKeys(keys[key := id]) == if key == [] then RealKeys(keys) else RealKeys(keys)[key := id]
  {
  }

  /** applyRecord has the effect of the record. */
  lemma ReplayHasEffect(m: Mem, r: Record, now: Time)
    requires Sound(m) && (r.Enqueue? ==> r.id !in m.dlq)
    ensures match ApplyRecord(m, r, now)
            case None => Effect(DurableOf(m), r) == None
            case Some(m') => Effect(DurableOf(m), r) == Some(DurableOf(m'))
  {
    MembersOf(m);
    match ApplyRecord(m, r, now)
    case None =>
    case Some(m') =>
      hide InfosOf, RealKeys, Drop;
      var t := if r.id in m'.tasks then m'.tasks[r.id] else NewTask([], [], 0);
      InfosUpdate(m.tasks, m.index, r.id, t);
      InfosUpdate(m.tasks, m.dlq, r.id, t);
      if r.Enqueue? {
        KeysUpdate(m.keys, r.key, r.id);
      }
  }

  /** What Effect can see of a queue's memory. */
  lemma MembersOf(m: Mem)
    ensures DurableOf(m).index.Keys == m.index && DurableOf(m).dlq.Keys == m.dlq
    ensures forall k: Key :: k != [] ==> (k in DurableOf(m).keys <==> k in m.keys)
    ensures forall id :: id in m.index ==> DurableOf(m).index[id] == InfoOf(m.tasks, id)
    ensures forall id :: id in m.dlq ==> DurableOf(m).dlq[id] == InfoOf(m.tasks, id)
  {
  }

  /** The live operation has the effect of the record it logged. */
  lemma LiveOpHasEffect(m: Mem, op: Op, now: Time, maxRetries: int, availableAt: Time)
    requires Sound(m) && Found(m, op)
    ensures var r := OpRecord(m, op, now, maxRetries);
            Effect(DurableOf(m), r) == Some(DurableOf(OpMem(m, r, availableAt)))
  {
    MembersOf(m);
    hide InfosOf, RealKeys, ReadyHeap.Push;
    var r := OpRecord(m, op, now, maxRetries);
    var t := OpMem(m, r, availableAt).tasks[r.id];
    InfosUpdate(m.tasks, m.index, r.id, t);
    InfosUpdate(m.tasks, m.dlq, r.id, t);
  }

  /** Committing an Enqueue has the effect of the record it logged. */
  lemma LiveEnqueueHasEffect(m: Mem, id: Id, t: Task)
    requires Sound(m) && id !in m.dlq && t.retries == 0 && t.failedAt == ZERO_TIME
    ensures Effect(DurableOf(m), EnqueueRecord(id, t)) == Some(DurableOf(CommitEnqueue(m, id, t)))
  {
    MembersOf(m);
    hide InfosOf, RealKeys, ReadyHeap.Push;
    InfosUpdate(m.tasks, m.index, id, t);
    InfosUpdate(m.tasks, m.dlq, id, t);
    KeysUpdate(m.keys, t.key, id);
  }

  /** Dequeue is not logged, and has no durable effect. */
  lemma DequeueIsNotDurable(m: Mem, now: Time, visibility: Time)
    ensures DurableOf(DequeueMem(m, now, visibility)) == DurableOf(m)
  {
    var d', d := DurableOf(DequeueMem(m, now, visibility)), DurableOf(m);
    assert d'.index == d.index;
    assert d'.dlq == d.dlq;
  }

  // --- commutation: an enqueue that is logged but not committed moves past other operations ---

  /** An enqueue may change places with a record on another ID that does not compete for its key. */
  predicate Independent(d: Durable, e: Record, r: Record) {
    && e.Enqueue?
    && e.id != r.id
    && (r.Enqueue? && e.key == r.key ==> e.key == [] || e.key in d.keys)
  }

  lemma UpdatesCommute<K, V>(m: map<K, V>, i: K, x: V, j: K, y: V)
    requires i != j
    ensures m[i := x][j := y] == m[j := y][i := x]
    ensures m[i := x] - {j} == (m - {j})[i := x]
  {
  }

  lemma EnqueueCommutesNew(d: Durable, e: Record, r: Record)
    requires Independent(d, e, r) && Effect(d, r).Some? && (e.key == [] || e.key !in d.keys)
    ensures Effect(d, e).Some? && Effect(Effect(d, e).value, r).Some?
    ensures Effect(Effect(d, e).value, r) == Effect(Effect(d, r).value, e)
  {
    var x := Info(e.key, e.payload, e.enqueuedAt, e.priority, 0, ZERO_TIME);
    match r
    case Enqueue(id, key, payload, enqueuedAt, priority) =>
      UpdatesCommute(d.index, e.id, x, id, Info(key, payload, enqueuedAt, priority, 0, ZERO_TIME));
      if key != e.key {
        UpdatesCommute(d.keys, e.key, e.id, key, id);
      }
    case Retry(id) =>
      UpdatesCommute(d.index, e.id, x, id, d.index[id].(retries := d.index[id].retries + 1));
    case Requeue(id) =>
      UpdatesCommute(d.index, e.id, x, id, d.dlq[id].(retries := 0, failedAt := ZERO_TIME));
    case _ =>
      UpdatesCommute(d.index, e.id, x, r.id, x);
  }

  lemma EnqueueCommutes(d: Durable, e: Record, r: Record)
    requires Independent(d, e, r) && Effect(d, r).Some?
    ensures Effect(d, e).Some? && Effect(Effect(d, e).value, r).Some?
    ensures Effect(Effect(d, e).value, r) == Effect(Effect(d, r).value, e)
  {
    if e.key != [] && e.key in d.keys {
      // e is deduplicated now, and still is after r.
    } else {
      EnqueueCommutesNew(d, e, r);
    }
  }

  /** Keys only ever gain bindings. */
  lemma {:induction false} KeysPersist(d: Durable, rs: seq<Record>)
    requires EffectsFrom(d, rs).Some?
    ensures forall k :: k in d.keys ==>
              k in EffectsFrom(d, rs).value.keys && EffectsFrom(d, rs).value.keys[k] == d.keys[k]
  {
    if rs != [] {
      KeysPersist(d, rs[..|rs| - 1]);
    }
  }

  /** Moving r to the front of the pending enqueues es. */
  lemma {:induction false} PendingCommutes(d: Durable, es: seq<Record>, r: Record)
    requires Effect(d, r).Some?
    requires forall i :: 0 <= i < |es| ==> Independent(d, es[i], r)
    ensures EffectsFrom(d, es).Some? && EffectsFrom(d, es + [r]).Some?
    ensures EffectsFrom(d, es + [r]) == EffectsFrom(Effect(d, r).value, es)
  {
    EffectsSnoc(d, es, r);
    if es == [] {
    } else {
      var n := |es| - 1;
      var e := es[n];
      assert es == es[..n] + [e];
      PendingCommutes(d, es[..n], r);
      var x := EffectsFrom(d, es[..n]).value;
      KeysPersist(d, es[..n]);
      EffectsSnoc(d, es[..n], r);
      assert Independent(x, e, r);
      EnqueueCommutes(x, e, r);
      EffectsSnoc(Effect(d, r).value, es[..n], e);
    }
  }

  lemma {:induction false} EffectsConcat(d: Durable, xs: seq<Record>, ys: seq<Record>)
    ensures EffectsFrom(d, xs + ys) ==
            match EffectsFrom(d, xs) { case None => None case Some(d') => EffectsFrom(d', ys) }
  {
    if ys == [] {
      assert xs + ys == xs;
    } else {
      var n := |ys| - 1;
      assert xs + ys == (xs + ys[..n]) + [ys[n]];
      EffectsSnoc(d, xs + ys[..n], ys[n]);
      EffectsConcat(d, xs, ys[..n]);
    }
  }

  /** Committing r out of the middle of the pending list leaves the replayed state as it was. */
  lemma CommitFromMiddle(d: Durable, before: seq<Record>, r: Record, after: seq<Record>)
    requires Effect(d, r).Some?
    requires forall i :: 0 <= i < |before| ==> Independent(d, before[i], r)
    ensures EffectsFrom(d, before + [r] + after) == EffectsFrom(Effect(d, r).value, before + after)
  {
    PendingCommutes(d, before, r);
    EffectsConcat(d, before + [r], after);
    EffectsConcat(Effect(d, r).value, before, after);
  }
}
