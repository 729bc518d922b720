/** workload.go: producers, consumers and drain as clients of the queue, and the verdict of a run. */
module Workload {
  import opened ByteStrings
  import opened Codec
  import opened Framing
  import opened LiveQueue
  import opened Machine
  import opened KeyOrder
  import opened Conservation
  import opened Dedup
  import opened EffectLedger
  import ReadyHeap

  // --- unique keys ---

  /** An integer under %d. */
  function Digits(n: nat): (b: Bytes)
    ensures b != [] && forall i :: 0 <= i < |b| ==> 48 <= b[i] <= 57
  {
    if n < 10 then [48 + n] else Digits(n / 10) + [48 + n % 10]
  }

  lemma {:induction false} DigitsInjective(m: nat, n: nat)
    requires Digits(m) == Digits(n)
    ensures m == n
    decreases m
  {
    var a, b := Digits(m), Digits(n);
    assert a[|a| - 1] == b[|b| - 1] && a[..|a| - 1] == b[..|b| - 1];
    if m < 10 {
      assert n < 10;
    } else {
      assert a[..|a| - 1] == Digits(m / 10) && b[..|b| - 1] == Digits(n / 10);
      DigitsInjective(m / 10, n / 10);
      assert m == 10 * (m / 10) + m % 10 && n == 10 * (n / 10) + n % 10;
    }
  }

  /** fmt.Sprintf("p%d-%d", p, n) */
  function ProducerKey(p: nat, n: nat): (key: Key)
    ensures key != []
  {
    [112] + Digits(p) + [45] + Digits(n)
  }

  /** Nothing collapses under deduplication: the keys of two different enqueues differ. */
  lemma ProducerKeysAreUnique(p: nat, n: nat, p': nat, n': nat)
    requires ProducerKey(p, n) == ProducerKey(p', n')
    ensures p == p' && n == n'
  {
    var key := ProducerKey(p, n);
    var a, a' := |Digits(p)|, |Digits(p')|;
    assert key[1..a + 1] == Digits(p) && key[a + 1] == 45 && key[a + 2..] == Digits(n);
    assert key[1..a' + 1] == Digits(p') && key[a' + 1] == 45 && key[a' + 2..] == Digits(n');
    assert a == a';
    DigitsInjective(p, p');
    DigitsInjective(n, n');
  }

  // --- the clients ---

  /**
    * next is each producer's loop counter. holding and applied are the tasks that consumers have pulled, before and
    * after their effect. uncounted Enqueues and unreported Acks have returned but are not in the counters yet.
    */
  datatype Client = Client(
    sys: Sys,
    next: map<nat, nat>,
    holding: map<nat, Id>,
    applied: map<nat, Id>,
    tallies: Tallies,
    total: nat,
    produced: nat,
    uncounted: nat,
    delivered: nat,
    refused: nat,
    acked: nat,
    unreported: nat)

  datatype Action =
    | Produce(p: nat, c: nat, id: Id, now: Time)  // producer p calls Enqueue with its next key
    | Return(c: nat)                              // that Enqueue commits
    | CountProduced
    | Pull(w: nat, now: Time)                     // a consumer, or drain, calls Dequeue
    | Refuse(w: nat)                              // the handler fails before the effect
    | Crash(w: nat)                               // it fails after the effect
    | Handle(w: nat)                              // it succeeds: the effect lands
    | AskAck(w: nat, now: Time)                   // then Ack is called
    | GiveUp(w: nat)                              // Ack returns an error and the consumer exits
    | Settle(availableAt: Time)                   // an operation holding the lock gets its reply
    | CountAck
    | Background(e: Event)                        // sends, the writer, Retry, the sweeper's retries, RequeueDead

  function NextOf(cl: Client, p: nat): nat {
    if p in cl.next then cl.next[p] else 0
  }

  /** The step of the queue that an action is, if it is one. */
  function StepOf(cl: Client, a: Action): Option<Event> {
    match a
    case Produce(p, c, id, now) => Some(Check(c, ProducerKey(p, NextOf(cl, p)), [120], id, now))
    case Return(c) => Some(Commit(c))
    case Pull(_, now) => Some(Deliver(now))
    case AskAck(w, now) => if w in cl.applied then Some(Begin(AckOp(cl.applied[w]), now)) else None
    case Settle(availableAt) => Some(Finish(availableAt))
    case Background(e) => Some(e)
    case _ => None
  }

  ghost predicate Allowed(cfg: Config, cl: Client, a: Action) {
    && (StepOf(cl, a).Some? ==> Enabled(cfg, cl.sys, StepOf(cl, a).value))
    && match a {
         case CountProduced => 0 < cl.uncounted
         case CountAck => 0 < cl.unreported
         case Pull(w, _) => w !in cl.holding && w !in cl.applied
         case Refuse(w) => w in cl.holding
         case Crash(w) => w in cl.holding
         case Handle(w) => w in cl.holding && w !in cl.applied
         case AskAck(w, _) => w in cl.applied
         case GiveUp(w) => w in cl.applied
         case Background(e) => e.Send? || e.Disk? || (e.Begin? && (e.op.RetryOp? || e.op.RequeueOp?))
         case _ => true
       }
  }

  function KeyOf(m: Mem, id: Id): Key {
    if id in m.tasks then m.tasks[id].key else []
  }

  /** store.apply on a pulled task. */
  function Applying(cl: Client, w: nat): Client
    requires w in cl.holding
  {
    cl.(tallies := Tally(cl.tallies, KeyOf(cl.sys.mem, cl.holding[w])),
        total := cl.total + 1,
        holding := cl.holding - {w})
  }

  /** What an action does to the clients' own state. */
  ghost function Books(cfg: Config, cl: Client, a: Action): Client
    requires Allowed(cfg, cl, a)
  {
    match a
    case Produce(p, _, _, _) => cl.(next := cl.next[p := NextOf(cl, p) + 1])
    case Return(_) => cl.(uncounted := cl.uncounted + 1)
    case CountProduced => cl.(produced := cl.produced + 1, uncounted := cl.uncounted - 1)
    case Pull(w, now) =>
      if RootDue(cl.sys.mem, now) then
        cl.(holding := cl.holding[w := cl.sys.mem.ready[0]], delivered := cl.delivered + 1)
      else cl
    case Refuse(w) => cl.(holding := cl.holding - {w}, refused := cl.refused + 1)
    case Crash(w) => Applying(cl, w)
    case Handle(w) => Applying(cl, w).(applied := cl.applied[w := cl.holding[w]])
    case AskAck(w, _) => cl.(applied := cl.applied - {w})
    case GiveUp(w) => cl.(applied := cl.applied - {w})
    case Settle(_) => if cl.sys.holder.value.op.AckOp? then cl.(unreported := cl.unreported + 1) else cl
    case CountAck => cl.(acked := cl.acked + 1, unreported := cl.unreported - 1)
    case Background(_) => cl
  }

  ghost function After(cfg: Config, cl: Client, a: Action): Client
    requires Allowed(cfg, cl, a)
  {
    Books(cfg, cl, a).(sys := if StepOf(cl, a).Some? then Next(cfg, cl.sys, StepOf(cl, a).value) else cl.sys)
  }

  ghost predicate Runs(cfg: Config, cl: Client, actions: seq<Action>)
    decreases |actions|
  {
    actions != [] ==> Allowed(cfg, cl, actions[0]) && Runs(cfg, After(cfg, cl, actions[0]), actions[1..])
  }

  ghost function Outcome(cfg: Config, cl: Client, actions: seq<Action>): Client
    requires Runs(cfg, cl, actions)
    decreases |actions|
  {
    if actions == [] then cl else Outcome(cfg, After(cfg, cl, actions[0]), actions[1..])
  }

  /** The start of a run: an empty log, nothing pulled, nothing counted. */
  function Start(): Client {
    Client(Initial(), map[], map[], map[], map[], 0, 0, 0, 0, 0, 0, 0)
  }

  // --- what every action keeps ---

  /** A key some producer has already used. */
  ghost predicate Sent(next: map<nat, nat>, key: Key) {
    exists p: nat, n: nat :: p in next && n < next[p] && key == ProducerKey(p, n)
  }

  lemma NextKeyIsNew(cl: Client, p: nat)
    ensures !Sent(cl.next, ProducerKey(p, NextOf(cl, p)))
  {
    var key := ProducerKey(p, NextOf(cl, p));
    if Sent(cl.next, key) {
      var p': nat, n: nat :| p' in cl.next && n < cl.next[p'] && key == ProducerKey(p', n);
      ProducerKeysAreUnique(p, NextOf(cl, p), p', n);
    }
  }

  lemma SentGrows(cl: Client, p: nat, key: Key)
    requires Sent(cl.next, key) || key == ProducerKey(p, NextOf(cl, p))
    ensures Sent(cl.next[p := NextOf(cl, p) + 1], key)
  {
    hide ProducerKey;
    var next := cl.next[p := NextOf(cl, p) + 1];
    if Sent(cl.next, key) {
      var q: nat, n: nat :| q in cl.next && n < cl.next[q] && key == ProducerKey(q, n);
      assert q in next && n < next[q];
    } else {
      assert p in next && NextOf(cl, p) < next[p];
    }
  }

  predicate Calling(s: Sys, c: nat) {
    c in s.calls && !s.calls[c].Returned?
  }

  /** Outstanding Enqueues carry used keys, all different and none bound yet. */
  ghost predicate KeysInv(cl: Client) {
    && DistinctKeys(cl.sys)
    && (forall key :: key in cl.sys.mem.keys ==> Sent(cl.next, key))
    && (forall c :: Calling(cl.sys, c) ==>
          var key := cl.sys.calls[c].task.key;
          key != [] && key !in cl.sys.mem.keys && Sent(cl.next, key))
  }

  /** The queue knows exactly the committed tasks, each by its own key, and nobody purges. */
  ghost predicate Registered(s: Sys) {
    && OneTaskPerKey(s.mem)
    && (forall id :: id in s.mem.tasks <==> id in s.committed)
    && (forall id :: id in s.mem.tasks ==> s.mem.tasks[id].key != [])
    && s.purged == {} && (s.holder.Some? ==> !s.holder.value.op.PurgeOp?)
  }

  ghost predicate Landed(cl: Client, id: Id) {
    id in cl.sys.mem.tasks && cl.sys.mem.tasks[id].key in cl.tallies
  }

  /** An effect is on the ledger before its task can be acked, and only committed tasks have effects. */
  ghost predicate LedgerInv(cl: Client) {
    && (forall w :: w in cl.holding ==> cl.holding[w] in cl.sys.mem.tasks)
    && (forall w :: w in cl.applied ==> Landed(cl, cl.applied[w]))
    && (forall id :: id in cl.sys.acked ==> Landed(cl, id))
    && (cl.sys.holder.Some? && cl.sys.holder.value.op.AckOp? ==> Landed(cl, cl.sys.holder.value.op.id))
    && (forall key :: key in cl.tallies ==> exists id :: id in cl.sys.mem.tasks && cl.sys.mem.tasks[id].key == key)
  }

  ghost predicate CountInv(cl: Client) {
    && cl.produced + cl.uncounted == |cl.sys.committed|
    && cl.acked + cl.unreported == |cl.sys.acked|
    && cl.total == Sum(cl.tallies) && (forall key :: key in cl.tallies ==> 1 <= cl.tallies[key])
    && cl.delivered == cl.total + cl.refused + |cl.holding|
  }

  ghost predicate ClientInv(cfg: Config, cl: Client) {
    && Inv(cfg, cl.sys) && ConservationInv(cl.sys)
    && Registered(cl.sys) && KeysInv(cl) && LedgerInv(cl) && CountInv(cl)
  }

  /** Only a binding commit adds a task or a key; no step changes the key of a task. */
  lemma StepKeepsKeys(cfg: Config, s: Sys, e: Event)
    requires Inv(cfg, s) && Enabled(cfg, s, e) && !e.CrashRestart? && !e.Commit?
    ensures var s' := Next(cfg, s, e);
            && s'.mem.keys == s.mem.keys && s'.committed == s.committed
            && (forall id :: id in s'.mem.tasks <==> id in s.mem.tasks)
            && (forall id :: id in s.mem.tasks ==> s'.mem.tasks[id].key == s.mem.tasks[id].key)
  {
    hide Inv, EncodeRecord, Encodable, EncodeFrame, OpMem, DequeueMem;
    if e.Finish? {
      HolderFound(cfg, s);
      OpKeepsKeys(s.mem, s.holder.value.record, e.availableAt);
    } else if e.Deliver? {
      DequeueKeepsKeys(s.mem, e.now, cfg.visibility);
    }
  }

  ghost predicate SameKeys(m: Mem, m': Mem) {
    && m'.keys == m.keys
    && (forall id :: id in m'.tasks <==> id in m.tasks)
    && (forall id :: id in m.tasks ==> m'.tasks[id].key == m.tasks[id].key)
  }

  lemma OpKeepsKeys(m: Mem, r: Record, availableAt: Time)
    requires r.id in m.tasks
    ensures SameKeys(m, OpMem(m, r, availableAt))
  {
    hide ReadyHeap.Push;
  }

  lemma DequeueKeepsKeys(m: Mem, now: Time, visibility: Time)
    ensures SameKeys(m, DequeueMem(m, now, visibility))
  {
    hide ReadyHeap.Pop;
  }

  lemma NobodyPurges(cfg: Config, s: Sys, e: Event)
    requires Enabled(cfg, s, e) && !e.CrashRestart? && (e.Begin? ==> !e.op.PurgeOp?)
    requires s.purged == {} && (s.holder.Some? ==> !s.holder.value.op.PurgeOp?)
    ensures var s' := Next(cfg, s, e); s'.purged == {} && (s'.holder.Some? ==> !s'.holder.value.op.PurgeOp?)
  {
    hide EncodeRecord, ReadyHeap.Push, ReadyHeap.Pop, Frames, EncodeFrame, OpMem, DequeueMem, CommitEnqueue;
  }

  lemma RegisteredStep(cfg: Config, s: Sys, e: Event)
    requires Inv(cfg, s) && Registered(s) && Enabled(cfg, s, e) && !e.CrashRestart? && !e.Commit?
    requires e.Begin? ==> !e.op.PurgeOp?
    ensures Registered(Next(cfg, s, e))
  {
    hide Inv, OneTaskPerKey, Next, Enabled;
    StepKeepsKeys(cfg, s, e);
    OneTaskStep(cfg, s, e);
    NobodyPurges(cfg, s, e);
  }

  lemma RegisteredCommit(cfg: Config, s: Sys, e: Event)
    requires Inv(cfg, s) && Registered(s) && Enabled(cfg, s, e) && e.Commit?
    requires s.calls[e.c].task.key != []
    ensures Registered(Next(cfg, s, e))
  {
    OneTaskStep(cfg, s, e);
    hide EncodeRecord, ReadyHeap.Push, Frames, EncodeFrame, Inv, OneTaskPerKey;
  }

  // keys

  lemma NewKeyIsFree(cl: Client, p: nat)
    requires KeysInv(cl)
    ensures var key := ProducerKey(p, NextOf(cl, p));
            key !in cl.sys.mem.keys && forall c :: !Outstanding(cl.sys, c, key)
  {
    NextKeyIsNew(cl, p);
    hide Sent, ProducerKey;
    forall c
      ensures !Outstanding(cl.sys, c, ProducerKey(p, NextOf(cl, p)))
    {
      assert Calling(cl.sys, c) ==> Sent(cl.next, cl.sys.calls[c].task.key);
    }
  }

  lemma KeysProduce(cfg: Config, cl: Client, a: Action)
    requires Inv(cfg, cl.sys) && KeysInv(cl) && Allowed(cfg, cl, a) && a.Produce?
    ensures KeysInv(After(cfg, cl, a)) && !Bound(cl.sys.mem, ProducerKey(a.p, NextOf(cl, a.p)))
  {
    hide Inv, Sent, ProducerKey, DistinctKeys, Encodable, EncodeRecord;
    NewKeyIsFree(cl, a.p);
    var s, s', e := cl.sys, After(cfg, cl, a).sys, StepOf(cl, a).value;
    KeysStayDistinct(cfg, s, e);
    forall key | Sent(cl.next, key) || key == e.key
      ensures Sent(After(cfg, cl, a).next, key)
    {
      SentGrows(cl, a.p, key);
    }
    assert forall c :: Calling(s', c) ==> c == a.c || (Calling(s, c) && s'.calls[c] == s.calls[c]);
  }

  lemma KeysReturn(cfg: Config, cl: Client, a: Action)
    requires Inv(cfg, cl.sys) && KeysInv(cl) && Allowed(cfg, cl, a) && a.Return?
    ensures KeysInv(After(cfg, cl, a)) && !Bound(cl.sys.mem, cl.sys.calls[a.c].task.key)
  {
    hide Inv, Sent, ReadyHeap.Push;
    var s, s' := cl.sys, After(cfg, cl, a).sys;
    assert Calling(s, a.c);
    assert forall c :: Calling(s', c) ==> c != a.c && Calling(s, c) && s'.calls[c] == s.calls[c];
  }

  lemma KeysQuiet(cfg: Config, cl: Client, a: Action)
    requires Inv(cfg, cl.sys) && KeysInv(cl) && Allowed(cfg, cl, a) && !a.Produce? && !a.Return?
    ensures KeysInv(After(cfg, cl, a))
  {
    hide Inv, Sent, Next, DistinctKeys, Enabled;
    if StepOf(cl, a).Some? {
      StepKeepsKeys(cfg, cl.sys, StepOf(cl, a).value);
      KeysStayDistinct(cfg, cl.sys, StepOf(cl, a).value);
      CallsStay(cfg, cl.sys, StepOf(cl, a).value);
    }
  }

  lemma CallsStay(cfg: Config, s: Sys, e: Event)
    requires Enabled(cfg, s, e) && !e.Check? && !e.Commit? && !e.CrashRestart?
    ensures forall c :: Calling(Next(cfg, s, e), c) ==>
              Calling(s, c) && Next(cfg, s, e).calls[c].task == s.calls[c].task
  {
    hide EncodeRecord, ReadyHeap.Push, ReadyHeap.Pop, Frames, EncodeFrame;
  }

  // effects

  /** Tasks are only added, and keep their keys. */
  ghost predicate Grown(m: Mem, m': Mem) {
    forall id :: id in m.tasks ==> id in m'.tasks && m'.tasks[id].key == m.tasks[id].key
  }

  lemma CommitGrows(cfg: Config, s: Sys, e: Event)
    requires Inv(cfg, s) && Enabled(cfg, s, e) && e.Commit?
    ensures Grown(s.mem, Next(cfg, s, e).mem)
  {
    hide ReadyHeap.Push, Sound, LogInv, IdInv, HolderInv;
    assert s.log[s.calls[e.c].pos].id == s.calls[e.c].id;
  }

  lemma StepGrows(cfg: Config, s: Sys, e: Event)
    requires Inv(cfg, s) && Enabled(cfg, s, e) && !e.CrashRestart?
    ensures Grown(s.mem, Next(cfg, s, e).mem)
  {
    hide Next, Inv, Enabled;
    if e.Commit? {
      CommitGrows(cfg, s, e);
    } else {
      StepKeepsKeys(cfg, s, e);
    }
  }

  /** How acks come about: Begin puts one on hold, Finish completes it. */
  lemma AckSteps(cfg: Config, s: Sys, e: Event)
    requires Enabled(cfg, s, e) && !e.CrashRestart?
    ensures var s' := Next(cfg, s, e);
            && s'.acked == (if e.Finish? && s.holder.value.op.AckOp? then s.acked + {s.holder.value.op.id} else s.acked)
            && (s'.holder.Some? ==> s'.holder == s.holder || (e.Begin? && s'.holder.value.op == e.op))
  {
    hide EncodeRecord, ReadyHeap.Push, ReadyHeap.Pop, Frames, EncodeFrame;
  }

  lemma LedgerGrows(cl: Client, cl': Client)
    requires LedgerInv(cl) && Grown(cl.sys.mem, cl'.sys.mem) && cl.tallies.Keys <= cl'.tallies.Keys
    ensures forall id :: Landed(cl, id) ==> Landed(cl', id)
    ensures forall key :: key in cl.tallies ==> exists id :: id in cl'.sys.mem.tasks && cl'.sys.mem.tasks[id].key == key
  {
    forall key | key in cl.tallies
      ensures exists id :: id in cl'.sys.mem.tasks && cl'.sys.mem.tasks[id].key == key
    {
      var id :| id in cl.sys.mem.tasks && cl.sys.mem.tasks[id].key == key;
      assert cl'.sys.mem.tasks[id].key == key;
    }
  }

  /** What may happen to the pulled tasks and the acks when only the queue moves. */
  ghost predicate Moved(cl: Client, cl': Client) {
    && cl'.tallies == cl.tallies
    && (forall w :: w in cl'.holding ==>
          (w in cl.holding && cl'.holding[w] == cl.holding[w]) || cl'.holding[w] in cl.sys.mem.tasks)
    && (forall w :: w in cl'.applied ==> w in cl.applied && cl'.applied[w] == cl.applied[w])
    && (forall id :: id in cl'.sys.acked ==>
          id in cl.sys.acked || (cl.sys.holder.Some? && cl.sys.holder.value.op == AckOp(id)))
    && (cl'.sys.holder.Some? && cl'.sys.holder.value.op.AckOp? ==>
          cl'.sys.holder == cl.sys.holder || Landed(cl, cl'.sys.holder.value.op.id))
  }

  lemma LedgerMoves(cl: Client, cl': Client)
    requires LedgerInv(cl) && Moved(cl, cl') && Grown(cl.sys.mem, cl'.sys.mem)
    ensures LedgerInv(cl')
  {
    LedgerGrows(cl, cl');
    hide Landed;
  }

  /** The books of every action but an effect. */
  lemma BooksMove(cfg: Config, cl: Client, a: Action)
    requires Inv(cfg, cl.sys) && Allowed(cfg, cl, a) && !a.Crash? && !a.Handle?
    ensures var b := Books(cfg, cl, a);
            && b.tallies == cl.tallies
            && (forall w :: w in b.holding ==>
                  (w in cl.holding && b.holding[w] == cl.holding[w]) || b.holding[w] in cl.sys.mem.tasks)
            && (forall w :: w in b.applied ==> w in cl.applied && b.applied[w] == cl.applied[w])
  {
    hide Inv, Enabled, ProducerKey, Next;
    ReadyIsKnown(cfg, cl.sys);
  }

  lemma ReadyIsKnown(cfg: Config, s: Sys)
    requires Inv(cfg, s)
    ensures forall i :: 0 <= i < |s.mem.ready| ==> s.mem.ready[i] in s.mem.tasks
  {
  }

  /** Only a task whose effect has landed is ever asked to be acked. */
  lemma AsksAreLanded(cfg: Config, cl: Client, a: Action)
    requires LedgerInv(cl) && Allowed(cfg, cl, a) && StepOf(cl, a).Some?
    ensures var e := StepOf(cl, a).value;
            !e.CrashRestart? && (e.Begin? && e.op.AckOp? ==> Landed(cl, e.op.id)) && (e.Finish? ==> cl.sys.holder.Some?)
  {
    hide Landed, ProducerKey;
  }

  lemma LedgerStep(cfg: Config, cl: Client, a: Action)
    requires Inv(cfg, cl.sys) && LedgerInv(cl) && Allowed(cfg, cl, a) && !a.Crash? && !a.Handle?
    ensures LedgerInv(After(cfg, cl, a))
  {
    hide Next, Inv, Enabled, Landed, ProducerKey;
    var cl' := After(cfg, cl, a);
    BooksMove(cfg, cl, a);
    if StepOf(cl, a).Some? {
      var e := StepOf(cl, a).value;
      AsksAreLanded(cfg, cl, a);
      StepGrows(cfg, cl.sys, e);
      AckSteps(cfg, cl.sys, e);
    }
    hide Books, StepOf, Allowed;
    LedgerMoves(cl, cl');
  }

  lemma EffectLands(cl: Client, cl': Client, id: Id)
    requires LedgerInv(cl) && cl'.sys == cl.sys && id in cl.sys.mem.tasks
    requires cl'.tallies.Keys == cl.tallies.Keys + {cl.sys.mem.tasks[id].key}
    requires forall w :: w in cl'.holding ==> w in cl.holding && cl'.holding[w] == cl.holding[w]
    requires forall w :: w in cl'.applied ==>
               cl'.applied[w] == id || (w in cl.applied && cl'.applied[w] == cl.applied[w])
    ensures LedgerInv(cl')
  {
    LedgerGrows(cl, cl');
    assert Landed(cl', id);
    hide Landed;
  }

  lemma LedgerEffect(cfg: Config, cl: Client, a: Action)
    requires LedgerInv(cl) && Allowed(cfg, cl, a) && (a.Crash? || a.Handle?)
    ensures LedgerInv(After(cfg, cl, a))
  {
    var id := cl.holding[a.w];
    assert id in cl.sys.mem.tasks;
    TallyAddsOne(cl.tallies, cl.sys.mem.tasks[id].key);
    hide LedgerInv, Tally, Enabled, Next;
    EffectLands(cl, After(cfg, cl, a), id);
  }

  // counters

  lemma CountStep(cfg: Config, cl: Client, a: Action)
    requires Inv(cfg, cl.sys) && ConservationInv(cl.sys) && KeysInv(cl) && CountInv(cl) && Allowed(cfg, cl, a)
    ensures CountInv(After(cfg, cl, a))
  {
    var cl' := After(cfg, cl, a);
    match a
    case Return(c) =>
      KeysReturn(cfg, cl, a);
      CommitAddsOne(cfg, cl.sys, Commit(c));
    case Settle(_) => SettleAddsOne(cfg, cl, a);
    case Crash(w) => CountEffect(cfg, cl, a);
    case Handle(w) => CountEffect(cfg, cl, a);
    case _ => CountQuiet(cfg, cl, a);
  }

  lemma CommitAddsOne(cfg: Config, s: Sys, e: Event)
    requires Inv(cfg, s) && ConservationInv(s) && Enabled(cfg, s, e) && e.Commit?
    requires !Bound(s.mem, s.calls[e.c].task.key)
    ensures |Next(cfg, s, e).committed| == |s.committed| + 1 && Next(cfg, s, e).acked == s.acked
  {
    hide Sound, LogInv, IdInv, HolderInv, PendingInv, Conserved, ReadyHeap.Push;
    var Logged(id, task, pos) := s.calls[e.c];
    assert s.log[pos].id == id;
    assert id !in s.committed;
  }

  lemma FinishAddsOne(cfg: Config, s: Sys, e: Event)
    requires Inv(cfg, s) && ConservationInv(s) && Enabled(cfg, s, e) && e.Finish?
    ensures s.holder.Some? && Next(cfg, s, e).committed == s.committed
    ensures |Next(cfg, s, e).acked| == |s.acked| + (if s.holder.value.op.AckOp? then 1 else 0)
  {
    hide Inv, ConservationInv, Next, Enabled;
    FinishIs(cfg, s, e);
    StepKeepsKeys(cfg, s, e);
    AckSteps(cfg, s, e);
    if s.holder.value.op.AckOp? {
      AckedOnce(cfg, s, e);
    }
  }

  lemma SettleAddsOne(cfg: Config, cl: Client, a: Action)
    requires Inv(cfg, cl.sys) && ConservationInv(cl.sys) && CountInv(cl) && Allowed(cfg, cl, a) && a.Settle?
    ensures CountInv(After(cfg, cl, a))
  {
    hide Inv, ConservationInv, Next, Sum, Enabled;
    FinishAddsOne(cfg, cl.sys, Finish(a.availableAt));
  }

  lemma CountEffect(cfg: Config, cl: Client, a: Action)
    requires CountInv(cl) && Allowed(cfg, cl, a) && (a.Crash? || a.Handle?)
    ensures CountInv(After(cfg, cl, a))
  {
    hide Next, Enabled, Sum, KeyOf, Tally;
    TallyAddsOne(cl.tallies, KeyOf(cl.sys.mem, cl.holding[a.w]));
    OneLess(cl.holding, a.w);
  }

  lemma OneLess(m: map<nat, Id>, w: nat)
    requires w in m
    ensures |m - {w}| == |m| - 1
  {
    assert (m - {w}).Keys == m.Keys - {w};
    assert |m.Keys| == |m| && |(m - {w}).Keys| == |m - {w}|;
  }

  lemma OneMoreHeld(m: map<nat, Id>, w: nat, id: Id)
    requires w !in m
    ensures |m[w := id]| == |m| + 1
  {
    assert m[w := id].Keys == m.Keys + {w};
    assert |m.Keys| == |m| && |m[w := id].Keys| == |m[w := id]|;
  }

  lemma CountQuiet(cfg: Config, cl: Client, a: Action)
    requires Inv(cfg, cl.sys) && CountInv(cl) && Allowed(cfg, cl, a)
    requires !a.Return? && !a.Settle? && !a.Crash? && !a.Handle?
    ensures CountInv(After(cfg, cl, a))
  {
    hide Next, Inv, Sum, Enabled, ProducerKey;
    if StepOf(cl, a).Some? {
      StepKeepsKeys(cfg, cl.sys, StepOf(cl, a).value);
      AckSteps(cfg, cl.sys, StepOf(cl, a).value);
    }
    if a.Pull? && RootDue(cl.sys.mem, a.now) {
      OneMoreHeld(cl.holding, a.w, cl.sys.mem.ready[0]);
    }
    if a.Refuse? {
      OneLess(cl.holding, a.w);
    }
  }

  // --- the verdict ---

  lemma ActionKeepsInv(cfg: Config, cl: Client, a: Action)
    requires ClientInv(cfg, cl) && Allowed(cfg, cl, a)
    ensures ClientInv(cfg, After(cfg, cl, a))
  {
    hide Inv, ConservationInv, Registered, KeysInv, LedgerInv, CountInv, Enabled, Next, ProducerKey;
    CountStep(cfg, cl, a);
    if a.Crash? || a.Handle? {
      LedgerEffect(cfg, cl, a);
    } else {
      LedgerStep(cfg, cl, a);
    }
    KeysStep(cfg, cl, a);
    if StepOf(cl, a).Some? {
      var e := StepOf(cl, a).value;
      EventKeepsInv(cfg, cl.sys, e);
      EventConserves(cfg, cl.sys, e);
      if a.Return? {
        RegisteredReturn(cfg, cl, a);
      } else {
        RegisteredStep(cfg, cl.sys, e);
      }
    }
  }

  lemma KeysStep(cfg: Config, cl: Client, a: Action)
    requires Inv(cfg, cl.sys) && KeysInv(cl) && Allowed(cfg, cl, a)
    ensures KeysInv(After(cfg, cl, a))
  {
    hide Inv, KeysInv, Enabled, Next, After;
    if a.Produce? {
      KeysProduce(cfg, cl, a);
    } else if a.Return? {
      KeysReturn(cfg, cl, a);
    } else {
      KeysQuiet(cfg, cl, a);
    }
  }

  lemma RegisteredReturn(cfg: Config, cl: Client, a: Action)
    requires Inv(cfg, cl.sys) && Registered(cl.sys) && KeysInv(cl) && Allowed(cfg, cl, a) && a.Return?
    ensures Registered(After(cfg, cl, a).sys)
  {
    assert Calling(cl.sys, a.c);
    hide Inv, Registered, Next;
    RegisteredCommit(cfg, cl.sys, Commit(a.c));
  }

  lemma {:induction false} EveryRunKeepsInv(cfg: Config, cl: Client, actions: seq<Action>)
    requires ClientInv(cfg, cl) && Runs(cfg, cl, actions)
    ensures ClientInv(cfg, Outcome(cfg, cl, actions))
    decreases |actions|
  {
    hide ClientInv, Allowed, After;
    if actions != [] {
      ActionKeepsInv(cfg, cl, actions[0]);
      EveryRunKeepsInv(cfg, After(cfg, cl, actions[0]), actions[1..]);
    }
  }

  lemma StartInv(cfg: Config)
    ensures ClientInv(cfg, Start())
  {
    hide Inv, Sent, Sum;
    InitialInv(cfg);
    assert Sum(map[]) == 0 by { EmptySum(); }
    assert Conserved(Initial()) && NotYetCommitted(Initial());
  }

  /** The keys of a set of tasks. */
  ghost function KeysOf(m: Mem, ids: set<Id>): set<Key> {
    set id | id in ids :: KeyOf(m, id)
  }

  lemma {:induction false} KeysOfCount(m: Mem, ids: set<Id>)
    requires OneTaskPerKey(m) && forall id :: id in ids ==> id in m.tasks && m.tasks[id].key != []
    ensures |KeysOf(m, ids)| == |ids|
    decreases |ids|
  {
    if ids != {} {
      var id :| id in ids;
      KeysOfCount(m, ids - {id});
      assert KeysOf(m, ids) == KeysOf(m, ids - {id}) + {KeyOf(m, id)};
      assert KeyOf(m, id) !in KeysOf(m, ids - {id});
    }
  }

  lemma SubsetCount<T>(a: set<T>, b: set<T>)
    requires a <= b
    ensures |a| <= |b| && (|a| == |b| ==> a == b)
  {
    assert b == a + (b - a);
  }

  /** Effects lie between acks and tasks, at every moment of every run. */
  lemma EffectsBetween(cfg: Config, cl: Client)
    requires ClientInv(cfg, cl)
    ensures |cl.sys.acked| <= |cl.tallies| <= |cl.sys.committed|
    ensures cl.sys.acked <= cl.sys.committed
    ensures |cl.sys.acked| == |cl.sys.committed| ==> cl.sys.mem.index == {} && cl.sys.mem.dlq == {}
  {
    hide Inv, ConservationInv, KeysInv, LedgerInv, Registered, CountInv;
    PlacesOf(cl.sys);
    SubsetCount(cl.sys.acked, cl.sys.committed);
    LedgerBetween(cl);
  }

  lemma PlacesOf(s: Sys)
    requires ConservationInv(s)
    ensures s.acked <= s.committed && s.mem.index <= s.committed && s.mem.dlq <= s.committed
    ensures s.acked !! s.mem.index && s.acked !! s.mem.dlq
  {
    forall id | id in s.acked || id in s.mem.index || id in s.mem.dlq
      ensures id in s.committed && (id in s.acked ==> id !in s.mem.index && id !in s.mem.dlq)
    {
      assert ConservedId(s, id);
    }
  }

  lemma LedgerBetween(cl: Client)
    requires Registered(cl.sys) && LedgerInv(cl) && cl.sys.acked <= cl.sys.committed
    ensures |cl.sys.acked| <= |cl.tallies| <= |cl.sys.committed|
  {
    var m := cl.sys.mem;
    KeysOfCount(m, cl.sys.acked);
    KeysOfCount(m, cl.sys.committed);
    assert KeysOf(m, cl.sys.acked) <= cl.tallies.Keys;
    assert cl.tallies.Keys <= KeysOf(m, cl.sys.committed);
    SubsetCount(KeysOf(m, cl.sys.acked), cl.tallies.Keys);
    SubsetCount(cl.tallies.Keys, KeysOf(m, cl.sys.committed));
  }

  /** stats.pass: every effect landed, every task acked, nothing dead. */
  predicate Pass(cl: Client) {
    |cl.tallies| == cl.produced && cl.acked == cl.produced && |cl.sys.mem.dlq| == 0
  }

  /**
    * The verdict is as strong as its strongest part. In every run of the clients from an empty queue, once every
    * Enqueue that returned is counted: acks never exceed effects and effects never exceed tasks; and acked ==
    * produced alone already means a pass, with no task left live or dead anywhere in the queue.
    */
  lemma VerdictStrength(cfg: Config, actions: seq<Action>)
    requires Runs(cfg, Start(), actions)
    ensures var cl := Outcome(cfg, Start(), actions);
            cl.uncounted == 0 ==>
              && cl.acked <= |cl.tallies| <= cl.produced
              && (Pass(cl) <==> cl.acked == cl.produced)
              && (Pass(cl) ==> cl.sys.mem.index == {} && cl.sys.mem.dlq == {} && cl.sys.acked == cl.sys.committed)
  {
    hide Runs, Outcome, Inv, ConservationInv, KeysInv, LedgerInv, Registered;
    StartInv(cfg);
    EveryRunKeepsInv(cfg, Start(), actions);
    var cl := Outcome(cfg, Start(), actions);
    EffectsBetween(cfg, cl);
    SubsetCount(cl.sys.acked, cl.sys.committed);
  }

  /**
    * Deliveries are all accounted for: the ledger's total is the sum of its tallies, at least one per effect, and
    * every delivery was applied, refused before its effect, or is still in a consumer's hands.
    */
  lemma DeliveriesAddUp(cfg: Config, actions: seq<Action>)
    requires Runs(cfg, Start(), actions)
    ensures var cl := Outcome(cfg, Start(), actions);
            && cl.total == Sum(cl.tallies) && |cl.tallies| <= cl.total
            && cl.delivered == cl.total + cl.refused + |cl.holding|
  {
    hide Runs, Outcome, Inv, ConservationInv, KeysInv, LedgerInv, Registered, Sum;
    StartInv(cfg);
    EveryRunKeepsInv(cfg, Start(), actions);
    EffectsAtMostSum(Outcome(cfg, Start(), actions).tallies);
  }
}
