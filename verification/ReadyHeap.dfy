/** heap.go under container/heap: a binary min-heap of task IDs, ordered by the tasks they point to. */
module ReadyHeap {
  import opened Codec
  import opened Tasks

  function Parent(j: int): int
    requires 0 < j
  {
    (j - 1) / 2
  }

  /** Less(i, j) of the container/heap interface. */
  predicate Precedes(ts: Store, a: Id, b: Id) {
    Less(RankOf(ts, a), RankOf(ts, b))
  }

  function Swap(s: seq<Id>, i: nat, j: nat): (r: seq<Id>)
    requires i < |s| && j < |s|
    ensures |r| == |s|
  {
    s[i := s[j]][j := s[i]]
  }

  lemma SwapPermutes(s: seq<Id>, i: nat, j: nat)
    requires i < |s| && j < |s|
    ensures multiset(Swap(s, i, j)) == multiset(s)
  {
  }

  /** up(h, j) */
  function Up(ts: Store, s: seq<Id>, j: nat): seq<Id>
    requires j < |s|
    decreases j
  {
    if j == 0 || !Precedes(ts, s[j], s[Parent(j)]) then s
    else Up(ts, Swap(s, Parent(j), j), Parent(j))
  }

  function SmallerChild(ts: Store, s: seq<Id>, i: nat, n: nat): (c: nat)
    requires 2 * i + 1 < n <= |s|
    ensures c < n && i < c && Parent(c) == i
  {
    if 2 * i + 2 < n && Precedes(ts, s[2 * i + 2], s[2 * i + 1]) then 2 * i + 2 else 2 * i + 1
  }

  /** down(h, i, n) */
  function Down(ts: Store, s: seq<Id>, i: nat, n: nat): (r: seq<Id>)
    requires n <= |s|
    ensures |r| == |s|
    decreases n - i
  {
    if 2 * i + 1 >= n then s else
    var c := SmallerChild(ts, s, i, n);
    if !Precedes(ts, s[c], s[i]) then s else Down(ts, Swap(s, i, c), c, n)
  }

  /** heap.Push */
  function Push(ts: Store, s: seq<Id>, x: Id): seq<Id> {
    Up(ts, s + [x], |s|)
  }

  /** heap.Pop: what is left; the popped element is s[0]. */
  function Pop(ts: Store, s: seq<Id>): seq<Id>
    requires s != []
  {
    var n := |s| - 1;
    Down(ts, Swap(s, 0, n), 0, n)[..n]
  }

  /** heap.Init's loop, once the positions from i on head heaps. */
  function InitFrom(ts: Store, s: seq<Id>, i: nat): seq<Id>
    decreases i
  {
    if i == 0 then s else InitFrom(ts, Down(ts, s, i - 1, |s|), i - 1)
  }

  function Init(ts: Store, s: seq<Id>): seq<Id> {
    InitFrom(ts, s, |s| / 2)
  }

  // --- the operations only rearrange ---

  lemma {:induction false} UpPermutes(ts: Store, s: seq<Id>, j: nat)
    requires j < |s|
    ensures |Up(ts, s, j)| == |s| && multiset(Up(ts, s, j)) == multiset(s)
    decreases j
  {
    if j != 0 && Precedes(ts, s[j], s[Parent(j)]) {
      SwapPermutes(s, Parent(j), j);
      UpPermutes(ts, Swap(s, Parent(j), j), Parent(j));
    }
  }

  lemma {:induction false} DownPermutes(ts: Store, s: seq<Id>, i: nat, n: nat)
    requires n <= |s|
    ensures |Down(ts, s, i, n)| == |s| && multiset(Down(ts, s, i, n)) == multiset(s)
    ensures Down(ts, s, i, n)[n..] == s[n..]
    decreases n - i
  {
    if 2 * i + 1 < n {
      var c := SmallerChild(ts, s, i, n);
      if Precedes(ts, s[c], s[i]) {
        SwapPermutes(s, i, c);
        DownPermutes(ts, Swap(s, i, c), c, n);
      }
    }
  }

  lemma PushPermutes(ts: Store, s: seq<Id>, x: Id)
    ensures multiset(Push(ts, s, x)) == multiset(s) + multiset{x}
  {
    UpPermutes(ts, s + [x], |s|);
  }

  lemma PopPermutes(ts: Store, s: seq<Id>)
    requires s != []
    ensures multiset(Pop(ts, s)) + multiset{s[0]} == multiset(s)
  {
    var n := |s| - 1;
    var t := Swap(s, 0, n);
    SwapPermutes(s, 0, n);
    DownPermutes(ts, t, 0, n);
    var d := Down(ts, t, 0, n);
    assert d == d[..n] + d[n..] && d[n..] == t[n..] == [s[0]];
  }

  // --- the heap property ---

  ghost predicate Ordered(ts: Store, s: seq<Id>) {
    forall j :: 0 < j < |s| ==> !Precedes(ts, s[j], s[Parent(j)])
  }

  /** Ordered except that s[j] may precede its parent. */
  ghost predicate OrderedBut(ts: Store, s: seq<Id>, j: nat) {
    && (forall k :: 0 < k < |s| && k != j ==> !Precedes(ts, s[k], s[Parent(k)]))
    && (forall k :: 0 < k < |s| && Parent(k) == j && 0 < j ==> !Precedes(ts, s[k], s[Parent(j)]))
  }

  /** Precedes is a strict weak order. */
  lemma PrecedesOrder(ts: Store, a: Id, b: Id, c: Id)
    ensures !(Precedes(ts, a, b) && Precedes(ts, b, a))
    ensures !Precedes(ts, a, b) && !Precedes(ts, b, c) ==> !Precedes(ts, a, c)
  {
  }

  lemma SwapUp(ts: Store, s: seq<Id>, j: nat)
    requires 0 < j < |s| && OrderedBut(ts, s, j) && Precedes(ts, s[j], s[Parent(j)])
    ensures OrderedBut(ts, Swap(s, Parent(j), j), Parent(j))
  {
    hide Precedes;
    var p := Parent(j);
    var s' := Swap(s, p, j);
    PrecedesOrder(ts, s[p], s[j], s[j]);
    forall k | 0 < k < |s| && k != p
      ensures !Precedes(ts, s'[k], s'[Parent(k)])
    {
      PrecedesOrder(ts, s[k], s[p], s[j]);
    }
    forall k | 0 < k < |s| && Parent(k) == p && 0 < p
      ensures !Precedes(ts, s'[k], s'[Parent(p)])
    {
      PrecedesOrder(ts, s[k], s[p], s[Parent(p)]);
    }
  }

  lemma {:induction false} UpRestores(ts: Store, s: seq<Id>, j: nat)
    requires j < |s| && OrderedBut(ts, s, j)
    ensures Ordered(ts, Up(ts, s, j))
    decreases j
  {
    if j != 0 && Precedes(ts, s[j], s[Parent(j)]) {
      SwapUp(ts, s, j);
      UpRestores(ts, Swap(s, Parent(j), j), Parent(j));
    }
  }

  /** The heap property of the first n positions, from lo on. */
  ghost predicate OrderedFrom(ts: Store, s: seq<Id>, lo: nat, n: nat)
    requires n <= |s|
  {
    forall k :: 0 < k < n && lo <= Parent(k) ==> !Precedes(ts, s[k], s[Parent(k)])
  }

  /** The same, except that the children of i may precede s[i]. */
  ghost predicate OrderedButBelow(ts: Store, s: seq<Id>, i: nat, lo: nat, n: nat)
    requires n <= |s|
  {
    && (forall k :: 0 < k < n && lo <= Parent(k) && Parent(k) != i ==> !Precedes(ts, s[k], s[Parent(k)]))
    && (forall k :: 0 < k < n && Parent(k) == i && 0 < i && lo <= Parent(i) ==> !Precedes(ts, s[k], s[Parent(i)]))
  }

  lemma SmallerChildIsSmallest(ts: Store, s: seq<Id>, i: nat, n: nat, k: nat)
    requires 2 * i + 1 < n <= |s| && 0 < k < n && Parent(k) == i
    ensures !Precedes(ts, s[k], s[SmallerChild(ts, s, i, n)])
  {
    assert k == 2 * i + 1 || k == 2 * i + 2;
  }

  lemma SwapDown(ts: Store, s: seq<Id>, i: nat, lo: nat, n: nat)
    requires lo <= i && 2 * i + 1 < n <= |s| && OrderedButBelow(ts, s, i, lo, n)
    requires Precedes(ts, s[SmallerChild(ts, s, i, n)], s[i])
    ensures var c := SmallerChild(ts, s, i, n); OrderedButBelow(ts, Swap(s, i, c), c, lo, n)
  {
    hide Precedes, SmallerChild;
    var c := SmallerChild(ts, s, i, n);
    var s' := Swap(s, i, c);
    PrecedesOrder(ts, s[i], s[c], s[c]);
    forall k | 0 < k < n && lo <= Parent(k) && Parent(k) != c
      ensures !Precedes(ts, s'[k], s'[Parent(k)])
    {
      if Parent(k) == i {
        SmallerChildIsSmallest(ts, s, i, n, k);
      }
    }
    forall k | 0 < k < n && Parent(k) == c
      ensures !Precedes(ts, s'[k], s'[Parent(c)])
    {
    }
  }

  lemma {:induction false} DownRestores(ts: Store, s: seq<Id>, i: nat, lo: nat, n: nat)
    requires lo <= i && n <= |s| && OrderedButBelow(ts, s, i, lo, n)
    ensures OrderedFrom(ts, Down(ts, s, i, n), lo, n)
    decreases n - i
  {
    if 2 * i + 1 < n {
      var c := SmallerChild(ts, s, i, n);
      if Precedes(ts, s[c], s[i]) {
        SwapDown(ts, s, i, lo, n);
        DownRestores(ts, Swap(s, i, c), c, lo, n);
      }
    }
  }

  lemma PushKeepsHeap(ts: Store, s: seq<Id>, x: Id)
    requires Ordered(ts, s)
    ensures Ordered(ts, Push(ts, s, x)) && multiset(Push(ts, s, x)) == multiset(s) + multiset{x}
  {
    PushPermutes(ts, s, x);
    UpRestores(ts, s + [x], |s|);
  }

  lemma PopKeepsHeap(ts: Store, s: seq<Id>)
    requires s != [] && Ordered(ts, s)
    ensures Ordered(ts, Pop(ts, s)) && multiset(Pop(ts, s)) + multiset{s[0]} == multiset(s)
  {
    var n := |s| - 1;
    var t := Swap(s, 0, n);
    PopPermutes(ts, s);
    assert OrderedButBelow(ts, t, 0, 0, n);
    DownRestores(ts, t, 0, 0, n);
  }

  lemma {:induction false} InitFromBuilds(ts: Store, s: seq<Id>, i: nat)
    requires i <= |s| && OrderedFrom(ts, s, i, |s|)
    ensures Ordered(ts, InitFrom(ts, s, i)) && multiset(InitFrom(ts, s, i)) == multiset(s)
    decreases i
  {
    if i != 0 {
      hide Down;
      DownPermutes(ts, s, i - 1, |s|);
      DownRestores(ts, s, i - 1, i - 1, |s|);
      InitFromBuilds(ts, Down(ts, s, i - 1, |s|), i - 1);
    }
  }

  lemma InitBuildsHeap(ts: Store, s: seq<Id>)
    ensures Ordered(ts, Init(ts, s)) && multiset(Init(ts, s)) == multiset(s)
  {
    InitFromBuilds(ts, s, |s| / 2);
  }

  /** The root of a heap is a minimum of its contents. */
  lemma {:induction false} RootIsMinimum(ts: Store, s: seq<Id>, j: nat)
    requires Ordered(ts, s) && j < |s|
    ensures !Precedes(ts, s[j], s[0])
  {
    if j != 0 {
      RootIsMinimum(ts, s, Parent(j));
    }
  }

  /** The order of a heap depends only on the ranks of the tasks in it. */
  lemma OrderedSameRanks(ts: Store, ts': Store, s: seq<Id>)
    requires Ordered(ts, s)
    requires forall id :: id in s ==> RankOf(ts', id) == RankOf(ts, id)
    ensures Ordered(ts', s)
  {
    forall j | 0 < j < |s|
      ensures !Precedes(ts', s[j], s[Parent(j)])
    {
      assert s[j] in s && s[Parent(j)] in s;
    }
  }

  /** Sifting up an element that does not precede the root leaves the root where it is. */
  lemma {:induction false} UpKeepsRoot(ts: Store, s: seq<Id>, j: nat)
    requires j < |s| && !Precedes(ts, s[j], s[0])
    ensures |Up(ts, s, j)| == |s| && Up(ts, s, j)[0] == s[0]
    decreases j
  {
    hide Precedes;
    if j != 0 && Precedes(ts, s[j], s[Parent(j)]) {
      UpKeepsRoot(ts, Swap(s, Parent(j), j), Parent(j));
    }
  }
}
