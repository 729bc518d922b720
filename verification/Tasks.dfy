/** task.go: the task, as a value; a task object is identified with its ID. */
module Tasks {
  import opened ByteStrings
  import opened Codec

  datatype Status = StateReady | StateInflight | StateDone | StateDead

  datatype Task = Task(
    key: Key,
    payload: Bytes,
    status: Status,
    retries: int,
    availableAt: Time,
    failedAt: Time,
    priority: int,
    enqueuedAt: Time,
    leaseUntil: Time)

  /** The task objects a queue has ever held, reached through their IDs. */
  type Store = map<Id, Task>

  /** The fields that order the ready heap. */
  datatype Rank = Rank(availableAt: Time, enqueuedAt: Time)

  function RankOf(ts: Store, id: Id): Rank {
    if id in ts then Rank(ts[id].availableAt, ts[id].enqueuedAt) else Rank(0, 0)
  }

  /** readyHeap.Less, on the two tasks' ranks. */
  predicate Less(a: Rank, b: Rank) {
    if a.availableAt != b.availableAt then a.availableAt < b.availableAt else a.enqueuedAt < b.enqueuedAt
  }
}
