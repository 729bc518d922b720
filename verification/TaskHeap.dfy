/** heap.go over task objects: the slice of pointers that container/heap rearranges in place. */
module TaskHeap {
  import opened ByteStrings
  import opened Codec
  import opened Tasks
  import ReadyHeap

  /** *Task: identity fields never change, the rest is updated through the pointer. */
  class TaskObject {
    const id: Id
    const key: Key
    const payload: Bytes
    const enqueuedAt: Time
    const priority: int
    var status: Status
    var retries: int
    var availableAt: Time
    var failedAt: Time
    var leaseUntil: Time

    constructor (id: Id, key: Key, payload: Bytes, enqueuedAt: Time, priority: int)
      ensures this.id == id
      ensures Value() == Task(key, payload, StateReady, 0, ZERO_TIME, ZERO_TIME, priority, enqueuedAt, ZERO_TIME)
    {
      this.id, this.key, this.payload, this.enqueuedAt, this.priority := id, key, payload, enqueuedAt, priority;
      status, retries, availableAt, failedAt, leaseUntil := StateReady, 0, ZERO_TIME, ZERO_TIME, ZERO_TIME;
    }

    ghost function Value(): Task
      reads this
    {
      Task(key, payload, status, retries, availableAt, failedAt, priority, enqueuedAt, leaseUntil)
    }

    /** The updates a queue makes through the pointer. */
    method Assign(status: Status, retries: int, availableAt: Time, failedAt: Time, leaseUntil: Time)
      modifies this
      ensures Value() == old(Value()).(status := status, retries := retries, availableAt := availableAt,
                                       failedAt := failedAt, leaseUntil := leaseUntil)
    {
      this.status, this.retries, this.availableAt := status, retries, availableAt;
      this.failedAt, this.leaseUntil := failedAt, leaseUntil;
    }

    /** readyHeap.Less on the two tasks. */
    predicate Before(other: TaskObject)
      reads this, other
    {
      if availableAt != other.availableAt then availableAt < other.availableAt else enqueuedAt < other.enqueuedAt
    }
  }

  function IdsOf(items: seq<TaskObject>): seq<Id> {
    seq(|items|, i requires 0 <= i < |items| => items[i].id)
  }

  /** ts records the current value of every task in the slice, under its ID. */
  ghost predicate Snapshot(ts: Store, items: seq<TaskObject>)
    reads items
  {
    forall i :: 0 <= i < |items| ==> items[i].id in ts && ts[items[i].id] == items[i].Value()
  }

  ghost predicate SameMembers(xs: seq<TaskObject>, ys: seq<TaskObject>) {
    (forall t :: t in xs ==> t in ys) && (forall t :: t in ys ==> t in xs)
  }

  lemma BeforeIsPrecedes(ts: Store, items: seq<TaskObject>, i: nat, j: nat)
    requires Snapshot(ts, items) && i < |items| && j < |items|
    ensures items[i].Before(items[j]) <==> ReadyHeap.Precedes(ts, IdsOf(items)[i], IdsOf(items)[j])
  {
  }

  class Heap {
    var items: seq<TaskObject>

    constructor ()
      ensures items == []
    {
      items := [];
    }

    method Swap(i: nat, j: nat)
      requires i < |items| && j < |items|
      modifies this
      ensures |items| == old(|items|) && IdsOf(items) == ReadyHeap.Swap(old(IdsOf(items)), i, j)
      ensures items == old(items)[i := old(items)[j]][j := old(items)[i]]
    {
      items := items[i := items[j]][j := items[i]];
    }

    /** up(h, j) */
    method Up(j0: nat, ghost ts: Store)
      requires j0 < |items| && Snapshot(ts, items)
      modifies this
      ensures IdsOf(items) == ReadyHeap.Up(ts, old(IdsOf(items)), j0)
      ensures SameMembers(items, old(items))
    {
      hide ReadyHeap.Precedes, ReadyHeap.Swap;
      var j: nat := j0;
      while 0 < j
        invariant j < |items| == old(|items|) && Snapshot(ts, items)
        invariant ReadyHeap.Up(ts, IdsOf(items), j) == ReadyHeap.Up(ts, old(IdsOf(items)), j0)
        invariant SameMembers(items, old(items))
      {
        BeforeIsPrecedes(ts, items, j, (j - 1) / 2);
        if !items[j].Before(items[(j - 1) / 2]) {
          return;
        }
        SwapMembers(items, (j - 1) / 2, j);
        Swap((j - 1) / 2, j);
        j := (j - 1) / 2;
      }
    }

    method SmallerChild(i: nat, n: nat, ghost ts: Store) returns (c: nat)
      requires 2 * i + 1 < n <= |items| && Snapshot(ts, items)
      ensures c == ReadyHeap.SmallerChild(ts, IdsOf(items), i, n)
    {
      c := 2 * i + 1;
      if c + 1 < n {
        BeforeIsPrecedes(ts, items, c + 1, c);
        if items[c + 1].Before(items[c]) {
          c := c + 1;
        }
      }
    }

    /** down(h, i, n) */
    method Down(i0: nat, n: nat, ghost ts: Store)
      requires n <= |items| && Snapshot(ts, items)
      modifies this
      ensures IdsOf(items) == ReadyHeap.Down(ts, old(IdsOf(items)), i0, n)
      ensures |items| == old(|items|) && SameMembers(items, old(items))
    {
      hide ReadyHeap.Precedes, ReadyHeap.Swap, ReadyHeap.SmallerChild;
      var i: nat := i0;
      while 2 * i + 1 < n
        invariant n <= |items| == old(|items|) && Snapshot(ts, items)
        invariant ReadyHeap.Down(ts, IdsOf(items), i, n) == ReadyHeap.Down(ts, old(IdsOf(items)), i0, n)
        invariant SameMembers(items, old(items))
        decreases n - i
      {
        var c := SmallerChild(i, n, ts);
        BeforeIsPrecedes(ts, items, c, i);
        if !items[c].Before(items[i]) {
          return;
        }
        SwapMembers(items, i, c);
        Swap(i, c);
        i := c;
      }
    }

    /** heap.Push */
    method Push(t: TaskObject, ghost ts: Store)
      requires Snapshot(ts, items) && t.id in ts && ts[t.id] == t.Value()
      modifies this
      ensures IdsOf(items) == ReadyHeap.Push(ts, old(IdsOf(items)), t.id)
      ensures forall x :: x in items <==> x in old(items) || x == t
    {
      ghost var ids := IdsOf(items);
      items := items + [t];
      assert IdsOf(items) == ids + [t.id];
      Up(|items| - 1, ts);
    }

    /** heap.Pop */
    method Pop(ghost ts: Store) returns (t: TaskObject)
      requires items != [] && Snapshot(ts, items)
      modifies this
      ensures t == old(items)[0] && IdsOf(items) == ReadyHeap.Pop(ts, old(IdsOf(items)))
      ensures forall x :: x in items ==> x in old(items)
    {
      var n := |items| - 1;
      t := items[0];
      SwapMembers(items, 0, n);
      Swap(0, n);
      Down(0, n, ts);
      ghost var all := IdsOf(items);
      items := items[..n];
      assert IdsOf(items) == all[..n];
    }

    /** heap.Init */
    method Init(ghost ts: Store)
      requires Snapshot(ts, items)
      modifies this
      ensures IdsOf(items) == ReadyHeap.Init(ts, old(IdsOf(items)))
      ensures SameMembers(items, old(items))
    {
      hide ReadyHeap.Down;
      var i: nat := |items| / 2;
      while 0 < i
        invariant i <= |items| == old(|items|) && Snapshot(ts, items)
        invariant ReadyHeap.InitFrom(ts, IdsOf(items), i) == ReadyHeap.Init(ts, old(IdsOf(items)))
        invariant SameMembers(items, old(items))
      {
        ghost var was := items;
        i := i - 1;
        Down(i, |items|, ts);
        SameMembersSnapshot(ts, was, items);
      }
    }
  }

  lemma SwapMembers(items: seq<TaskObject>, i: nat, j: nat)
    requires i < |items| && j < |items|
    ensures SameMembers(items[i := items[j]][j := items[i]], items)
  {
    var now := items[i := items[j]][j := items[i]];
    forall t
      ensures t in now <==> t in items
    {
      if t in items {
        var k :| 0 <= k < |items| && items[k] == t;
        assert now[if k == i then j else if k == j then i else k] == t;
      }
    }
  }

  lemma SameMembersSnapshot(ts: Store, was: seq<TaskObject>, now: seq<TaskObject>)
    requires Snapshot(ts, was) && SameMembers(now, was)
    ensures Snapshot(ts, now)
  {
    forall i | 0 <= i < |now|
      ensures now[i].id in ts && ts[now[i].id] == now[i].Value()
    {
      assert now[i] in now;
    }
  }
}
