/** When a log cannot be read: the life of each task in it, and the one way in which replay misses a task. */
module Lives {
  import opened Codec
  import opened Framing
  import opened Tasks
  import opened LiveQueue
  import opened Replay
  import opened Recovery
  import opened Machine
  import opened CrashSafety
  import opened Durability
  import opened KeyOrder
  import opened KeyRace
  import ReadyHeap

  datatype Stage = NotYet | Alive | Buried | Gone

  /** What a record makes of its task, where the operation it stands for was possible. */
  function StageAfter(st: Stage, r: Record): Option<Stage> {
    match r
    case Enqueue(_, _, _, _, _) => if st.NotYet? then Some(Alive) else None
    case Dequeue(_, _, _) => None
    case Ack(_) => if st.Alive? then Some(Gone) else None
    case Retry(_) => if st.Alive? then Some(Alive) else None
    case Dead(_, _, _) => if st.Alive? then Some(Buried) else None
    case Requeue(_) => if st.Buried? then Some(Alive) else None
    case Purge(_) => if st.Buried? then Some(Gone) else None
  }

  /** One task's life according to the log, if every operation on it was possible when it was logged. */
  function Life(log: seq<Record>, id: Id): Option<Stage> {
    if log == [] then Some(NotYet) else
    var n := |log| - 1;
    match Life(log[..n], id)
    case None => None
    case Some(st) => if log[n].id == id then StageAfter(st, log[n]) else Some(st)
  }

  lemma LifeSnoc(log: seq<Record>, r: Record, id: Id)
    ensures Life(log + [r], id) ==
            match Life(log, id)
            case None => None
            case Some(st) => if r.id == id then StageAfter(st, r) else Some(st)
  {
    assert (log + [r])[..|log|] == log;
  }

  lemma {:induction false} LifePrefix(log: seq<Record>, id: Id, n: nat)
    requires n <= |log| && Life(log, id).Some?
    ensures Life(log[..n], id).Some?
    decreases |log|
  {
    if n < |log| {
      assert log[..|log| - 1][..n] == log[..n];
      LifePrefix(log[..|log| - 1], id, n);
    } else {
      assert log[..n] == log;
    }
  }

  /** Of a task that is never enqueued the log says nothing. */
  lemma {:induction false} NoRecordsNoLife(log: seq<Record>, id: Id)
    requires forall i :: 0 <= i < |log| ==> log[i].id != id
    ensures Life(log, id) == Some(NotYet)
  {
    if log != [] {
      NoRecordsNoLife(log[..|log| - 1], id);
    }
  }

  // --- replay follows the life of every task that is not shadowed ---

  ghost predicate Follows(d: Durable, st: Option<Stage>, id: Id) {
    st.Some? && (id in d.index <==> st.value.Alive?) && (id in d.dlq <==> st.value.Buried?)
  }

  /** IDs are drawn once, Dequeue is not logged, and the tasks that are not shadowed have possible lives. */
  ghost predicate Legal(log: seq<Record>) {
    && DistinctEnqueues(log) && NoDequeues(log)
    && (forall id :: !Shadowed(log, id) ==> Life(log, id).Some?)
  }

  /** No Retry, Dead or Requeue record is about a shadowed task. */
  ghost predicate NoShadowUsed(log: seq<Record>) {
    forall q, id :: 0 <= q < |log| && Dereferences(log[q], id) ==> !Shadowed(log, id)
  }

  /** An enqueue of a task that is not shadowed meets no earlier binding of its key. */
  lemma UnshadowedIsCreated(log: seq<Record>, n: nat)
    requires DistinctEnqueues(log) && n < |log| && log[n].Enqueue? && !Shadowed(log, log[n].id)
    requires Effects(log[..n]).Some?
    ensures log[n].key == [] || log[n].key !in Effects(log[..n]).value.keys
  {
    hide Effects;
    var i :| 0 <= i < |log| && log[i].Enqueue? && log[i].id == log[n].id
             && !(log[i].key != [] && exists j :: 0 <= j < i && log[j].Enqueue? && log[j].key == log[i].key);
    assert i == n;
    if log[n].key != [] {
      NoBindingYet(log[..n], log[n].key);
    }
  }

  lemma EffectElsewhere(d: Durable, r: Record, id: Id)
    requires Effect(d, r).Some? && r.id != id
    ensures var d' := Effect(d, r).value; (id in d'.index <==> id in d.index) && (id in d'.dlq <==> id in d.dlq)
  {
  }

  /** A possible operation on a task that replay has followed so far can be replayed, and is followed. */
  lemma EffectFollows(d: Durable, st: Stage, r: Record)
    requires Follows(d, Some(st), r.id) && StageAfter(st, r).Some?
    requires r.Enqueue? ==> r.key == [] || r.key !in d.keys
    ensures Effect(d, r).Some? && Follows(Effect(d, r).value, StageAfter(st, r), r.id)
  {
  }

  lemma {:induction false} ReplayFollows(log: seq<Record>, n: nat)
    requires n <= |log| && Legal(log) && NoShadowUsed(log)
    ensures Effects(log[..n]).Some?
    ensures forall id :: !Shadowed(log, id) ==> Follows(Effects(log[..n]).value, Life(log[..n], id), id)
    decreases n
  {
    if n == 0 {
      assert log[..0] == [];
    } else {
      ReplayFollows(log, n - 1);
      ReplayStepFollows(log, n - 1);
    }
  }

  lemma ReplayStepFollows(log: seq<Record>, n: nat)
    requires n < |log| && Legal(log) && NoShadowUsed(log) && Effects(log[..n]).Some?
    requires forall id :: !Shadowed(log, id) ==> Follows(Effects(log[..n]).value, Life(log[..n], id), id)
    ensures Effects(log[..n + 1]).Some?
    ensures forall id :: !Shadowed(log, id) ==> Follows(Effects(log[..n + 1]).value, Life(log[..n + 1], id), id)
  {
    var r, d := log[n], Effects(log[..n]).value;
    assert log[..n + 1] == log[..n] + [r];
    EffectsSnoc(EMPTY_DURABLE, log[..n], r);
    if !Shadowed(log, r.id) {
      LifePrefix(log, r.id, n + 1);
      LifeSnoc(log[..n], r, r.id);
      var st := Life(log[..n], r.id).value;
      assert StageAfter(st, r).Some?;
      if r.Enqueue? {
        UnshadowedIsCreated(log, n);
      }
      hide Effects, EffectsFrom, Life, Shadowed, Effect;
      EffectFollows(d, st, r);
    } else {
      assert !Dereferences(r, r.id) && r in log;
      hide Effects, EffectsFrom, Life, Shadowed;
      assert Effect(d, r).Some?;
    }
    hide Effects, EffectsFrom, Life, Shadowed, Effect, Follows, StageAfter;
    forall id | !Shadowed(log, id)
      ensures Follows(Effects(log[..n + 1]).value, Life(log[..n + 1], id), id)
    {
      if id != r.id {
        LifeSnoc(log[..n], r, id);
        OthersFollow(d, r, Life(log[..n], id), id);
      }
    }
  }

  lemma OthersFollow(d: Durable, r: Record, st: Option<Stage>, id: Id)
    requires Effect(d, r).Some? && r.id != id && Follows(d, st, id)
    ensures Follows(Effect(d, r).value, st, id)
  {
    EffectElsewhere(d, r, id);
  }

  /** A legal log can be replayed if and only if it uses no shadowed task. */
  lemma ReplayableIffNoShadowUsed(log: seq<Record>)
    requires Legal(log)
    ensures Effects(log).Some? <==> NoShadowUsed(log)
  {
    hide Life, Shadowed, Effects;
    if NoShadowUsed(log) {
      ReplayFollows(log, |log|);
      assert log[..|log|] == log;
    } else {
      var q, id :| 0 <= q < |log| && Dereferences(log[q], id) && Shadowed(log, id);
      ShadowedCannotReplay(log, id, q);
    }
  }

  // --- the log of every run is legal ---

  function StageIn(m: Mem, id: Id): Stage {
    if id in m.index then Alive else if id in m.dlq then Buried else Gone
  }

  ghost predicate OnHold(s: Sys, id: Id) {
    s.holder.Some? && s.holder.value.op.id == id
  }

  /** The log has the task where memory has it, or will have it once the waiting operation or Enqueue is done. */
  ghost predicate Consistent(s: Sys, id: Id) {
    var life := Life(s.log, id);
    && life.Some?
    && (OnHold(s, id) ==> life == StageAfter(StageIn(s.mem, id), s.holder.value.record))
    && (!OnHold(s, id) && id in s.mem.tasks ==> life.value == StageIn(s.mem, id))
    && (id !in s.mem.tasks && PendingEnqueue(s, id) ==> life.value == Alive)
  }

  ghost predicate LivesInv(s: Sys) {
    forall id :: !Shadowed(s.log, id) ==> Consistent(s, id)
  }

  /** Every record, and every task in memory, has its enqueue in the log. */
  ghost predicate Rooted(s: Sys) {
    && (forall id :: id in s.mem.tasks ==> Enqueued(s.log, id))
    && (forall i :: 0 <= i < |s.log| ==> Enqueued(s.log[..i + 1], s.log[i].id))
  }

  lemma EnqueuedSnoc(log: seq<Record>, r: Record, id: Id)
    ensures Enqueued(log + [r], id) <==> Enqueued(log, id) || (r.Enqueue? && r.id == id)
  {
    if Enqueued(log, id) {
      var i :| 0 <= i < |log| && log[i].Enqueue? && log[i].id == id;
      assert (log + [r])[i] == log[i];
    }
    if r.Enqueue? && r.id == id {
      assert (log + [r])[|log|] == r;
    }
  }

  lemma ShadowedSnoc(log: seq<Record>, r: Record, id: Id)
    requires Shadowed(log, id) && !(r.Enqueue? && r.id == id)
    ensures Shadowed(log + [r], id)
  {
    var log' := log + [r];
    forall i | 0 <= i < |log'| && log'[i].Enqueue? && log'[i].id == id
      ensures log'[i].key != [] && exists j :: 0 <= j < i && log'[j].Enqueue? && log'[j].key == log'[i].key
    {
      var j :| 0 <= j < i && log[j].Enqueue? && log[j].key == log[i].key;
      assert log'[j] == log[j];
    }
  }

  lemma NotEnqueuedNoLife(s: Sys, id: Id)
    requires Rooted(s) && !Enqueued(s.log, id)
    ensures Life(s.log, id) == Some(NotYet)
  {
    hide Enqueued;
    forall i: nat | i < |s.log|
      ensures Enqueued(s.log, s.log[i].id)
    {
      EnqueuedPrefix(s.log, i + 1, s.log[i].id);
    }
    NoRecordsNoLife(s.log, id);
  }

  lemma RootedSnoc(log: seq<Record>, r: Record)
    requires forall i :: 0 <= i < |log| ==> Enqueued(log[..i + 1], log[i].id)
    requires r.Enqueue? || Enqueued(log, r.id)
    ensures forall i :: 0 <= i < |log + [r]| ==> Enqueued((log + [r])[..i + 1], (log + [r])[i].id)
  {
    EnqueuedSnoc(log, r, r.id);
    hide Enqueued;
    var log' := log + [r];
    assert log'[..|log| + 1] == log';
    assert forall k :: 0 <= k <= |log| ==> log'[..k] == log[..k];
  }

  lemma SendKeepsLives(cfg: Config, s: Sys, e: Event)
    requires Inv(cfg, s) && LivesInv(s) && Rooted(s) && Enabled(cfg, s, e) && e.Send?
    ensures LivesInv(Next(cfg, s, e))
  {
    hide Inv, Life, Enqueued, EncodeRecord, Shadowed, StageIn, StageAfter, PendingEnqueue;
    CheckedCallIsNew(cfg, s, e.c);
    var Checked(x, task) := s.calls[e.c];
    var r := EnqueueRecord(x, task);
    if s.holder.Some? {
      HolderFound(cfg, s);
    }
    var s' := Next(cfg, s, e);
    forall id | !Shadowed(s'.log, id)
      ensures Consistent(s', id)
    {
      LifeSnoc(s.log, r, id);
      if id == x {
        NotEnqueuedNoLife(s, x);
        assert StageAfter(NotYet, r) == Some(Alive) by { FirstStage(r); }
      } else {
        if Shadowed(s.log, id) {
          ShadowedSnoc(s.log, r, id);
        }
        OtherPending(s, s', id);
      }
    }
  }

  lemma CheckedCallIsNew(cfg: Config, s: Sys, c: nat)
    requires Inv(cfg, s) && InPhase(s, c, false)
    ensures s.calls[c].id !in s.mem.tasks && !Enqueued(s.log, s.calls[c].id)
  {
    hide Sound, LogInv, HolderInv, PendingInv, CallInv;
  }

  lemma FirstStage(r: Record)
    requires r.Enqueue?
    ensures StageAfter(NotYet, r) == Some(Alive)
  {
  }

  /** What is pending for an ID was pending before, unless its enqueue has just been sent. */
  lemma OtherPending(s: Sys, s': Sys, id: Id)
    requires s'.log == s.log || (|s'.log| == |s.log| + 1 && s'.log[..|s.log|] == s.log)
    requires |s'.log| > |s.log| ==> !(s'.log[|s.log|].Enqueue? && s'.log[|s.log|].id == id)
    requires s.done <= s'.done
    ensures PendingEnqueue(s', id) ==> PendingEnqueue(s, id)
  {
    if PendingEnqueue(s', id) {
      var p :| 0 <= p < |s'.log| && p !in s'.done && s'.log[p].Enqueue? && s'.log[p].id == id;
      assert p < |s.log| && s.log[p] == s'.log[p];
    }
  }

  lemma OpStages(m: Mem, op: Op, now: Time, maxRetries: int, availableAt: Time, id: Id)
    requires Found(m, op) && m.index !! m.dlq
    ensures var r := OpRecord(m, op, now, maxRetries);
            var m' := OpMem(m, r, availableAt);
            && (id in m'.tasks <==> id in m.tasks)
            && Some(StageIn(m', id)) == if id == op.id then StageAfter(StageIn(m, id), r) else Some(StageIn(m, id))
  {
    hide ReadyHeap.Push;
  }

  lemma BeginKeepsLives(cfg: Config, s: Sys, e: Event)
    requires Inv(cfg, s) && LivesInv(s) && Enabled(cfg, s, e) && e.Begin?
    ensures LivesInv(Next(cfg, s, e))
  {
    assert s.mem.index !! s.mem.dlq;
    hide Inv, Life, EncodeRecord, Encodable, OpRecord, OpMem, StageIn, StageAfter, Shadowed;
    var r, s' := OpRecord(s.mem, e.op, e.now, cfg.maxRetries), Next(cfg, s, e);
    NotAnEnqueue(s.mem, e.op, e.now, cfg.maxRetries);
    OpStages(s.mem, e.op, e.now, cfg.maxRetries, 0, e.op.id);
    forall id | !Shadowed(s'.log, id)
      ensures Consistent(s', id)
    {
      LifeSnoc(s.log, r, id);
      if Shadowed(s.log, id) {
        ShadowedSnoc(s.log, r, id);
      }
      OtherPending(s, s', id);
    }
  }

  lemma CommitStages(m: Mem, x: Id, t: Task, id: Id)
    requires x !in m.tasks
    ensures var m' := CommitEnqueue(m, x, t);
            if id == x && !Bound(m, t.key) then id in m'.tasks && StageIn(m', id) == Alive
            else (id in m'.tasks <==> id in m.tasks) && StageIn(m', id) == StageIn(m, id)
  {
    hide ReadyHeap.Push;
  }

  lemma CommitKeepsLives(cfg: Config, s: Sys, e: Event)
    requires Inv(cfg, s) && LivesInv(s) && Enabled(cfg, s, e) && e.Commit?
    ensures LivesInv(Next(cfg, s, e))
  {
    CallIsPending(cfg, s, e.c);
    hide Inv, Life, Shadowed, CommitEnqueue, StageIn, PendingEnqueue;
    var Logged(x, task, _) := s.calls[e.c];
    var s' := Next(cfg, s, e);
    forall id | !Shadowed(s'.log, id)
      ensures Consistent(s', id)
    {
      assert Consistent(s, id);
      CommitStages(s.mem, x, task, id);
      OtherPending(s, s', id);
    }
  }

  lemma CallIsPending(cfg: Config, s: Sys, c: nat)
    requires Inv(cfg, s) && InPhase(s, c, true)
    ensures s.calls[c].id !in s.mem.tasks && PendingEnqueue(s, s.calls[c].id)
  {
    LoggedCallIsPending(cfg, s, c);
    hide Sound, LogInv, IdInv, HolderInv, PendingInv;
    assert s.log[s.calls[c].pos].Enqueue? && s.log[s.calls[c].pos].id == s.calls[c].id;
  }

  lemma FinishKeepsLives(cfg: Config, s: Sys, e: Event)
    requires Inv(cfg, s) && LivesInv(s) && Enabled(cfg, s, e) && e.Finish?
    ensures LivesInv(Next(cfg, s, e))
  {
    hide Inv, Life, Shadowed, OpMem, StageIn, StageAfter, OpRecord, PendingEnqueue;
    HolderFound(cfg, s);
    var h, s' := s.holder.value, Next(cfg, s, e);
    forall id | !Shadowed(s'.log, id)
      ensures Consistent(s', id)
    {
      assert Consistent(s, id);
      OpStages(s.mem, h.op, h.now, cfg.maxRetries, e.availableAt, id);
      OtherPending(s, s', id);
    }
  }

  lemma QuietKeepsLives(cfg: Config, s: Sys, e: Event)
    requires LivesInv(s) && Enabled(cfg, s, e) && (e.Check? || e.Deliver? || e.Disk?)
    ensures LivesInv(Next(cfg, s, e))
  {
    hide Life, Shadowed, ReadyHeap.Pop, EncodeRecord, EncodeFrame, Encodable, PendingEnqueue, StageAfter;
    var s' := Next(cfg, s, e);
    forall id | !Shadowed(s'.log, id)
      ensures Consistent(s', id)
    {
      assert Consistent(s, id);
      OtherPending(s, s', id);
    }
  }

  /** A log that replays uses no shadowed task, so memory rebuilt from it has every other task where its life has it. */
  lemma RecoveredFollows(log: seq<Record>, clock: seq<Time>, id: Id)
    requires Legal(log) && |log| == |clock| && Recover(log, clock).Some? && !Shadowed(log, id)
    ensures Life(log, id).Some?
    ensures id in Recover(log, clock).value.tasks ==> Life(log, id).value == StageIn(Recover(log, clock).value, id)
  {
    RecoveryRedelivers(log, clock, LatestOf(clock));
    MembersOf(Recover(log, clock).value);
    hide Recover, Effects, Life, Shadowed, DurableOf, WellFormed;
    ReplayableIffNoShadowUsed(log);
    ReplayFollows(log, |log|);
    assert log[..|log|] == log;
    var m := Recover(log, clock).value;
    assert Follows(DurableOf(m), Life(log, id), id);
    assert id in m.tasks ==> (Life(log, id).value != NotYet) by {
      assert Enqueued(log, id) by { UnshadowedIsEnqueued(log, id); }
      EnqueuedHasLife(log, id);
    }
  }

  lemma UnshadowedIsEnqueued(log: seq<Record>, id: Id)
    requires !Shadowed(log, id)
    ensures Enqueued(log, id)
  {
  }

  /** A life that has begun does not go back to its beginning. */
  lemma {:induction false} EnqueuedHasLife(log: seq<Record>, id: Id)
    requires Enqueued(log, id) && Life(log, id).Some?
    ensures Life(log, id).value != NotYet
  {
    var n := |log| - 1;
    if log[n].id != id {
      var i :| 0 <= i < |log| && log[i].Enqueue? && log[i].id == id;
      assert log[..n][i] == log[i];
      EnqueuedHasLife(log[..n], id);
    }
  }

  lemma LegalPrefix(log: seq<Record>, k: nat)
    requires Legal(log) && k <= |log|
    ensures Legal(log[..k])
  {
    PrefixFacts(log, k);
    hide Life;
    forall id | !Shadowed(log[..k], id)
      ensures Life(log[..k], id).Some?
    {
      if Shadowed(log, id) {
        ShadowedPrefix(log, id, k);
      }
      LifePrefix(log, id, k);
    }
  }

  lemma RestartKeepsLives(cfg: Config, s: Sys, e: Event)
    requires Inv(cfg, s) && LivesInv(s) && Enabled(cfg, s, e) && e.CrashRestart?
    ensures LivesInv(Next(cfg, s, e))
  {
    LogIsLegal(cfg, s);
    hide Inv, Life, Shadowed, Legal, Frames, Recover, StageIn, StageAfter;
    LegalPrefix(s.log, e.k);
    var s' := Next(cfg, s, e);
    forall id | !Shadowed(s'.log, id)
      ensures Consistent(s', id)
    {
      RecoveredFollows(s.log[..e.k], e.clock, id);
    }
  }

  lemma RecoveredIsEnqueued(log: seq<Record>, clock: seq<Time>, id: Id)
    requires |log| == |clock| && DistinctEnqueues(log) && NoDequeues(log) && Recover(log, clock).Some?
    ensures id in Recover(log, clock).value.tasks ==> Enqueued(log, id)
  {
    RecoveryRedelivers(log, clock, LatestOf(clock));
  }

  lemma RestartKeepsRooted(cfg: Config, s: Sys, e: Event)
    requires Inv(cfg, s) && Rooted(s) && Enabled(cfg, s, e) && e.CrashRestart?
    ensures Rooted(Next(cfg, s, e))
  {
    hide Inv, Enabled, Next, Recover, Enqueued, EncodeAll;
    RestartIs(cfg, s, e);
    LogIsProduced(cfg, s);
    PrefixFacts(s.log, e.k);
    var log := s.log[..e.k];
    forall id | id in Next(cfg, s, e).mem.tasks
      ensures Enqueued(log, id)
    {
      RecoveredIsEnqueued(log, e.clock, id);
    }
    forall i | 0 <= i < |log|
      ensures Enqueued(log[..i + 1], log[i].id)
    {
      assert log[..i + 1] == s.log[..i + 1] && log[i] == s.log[i];
    }
  }

  lemma StepKeepsRooted(cfg: Config, s: Sys, e: Event)
    requires Inv(cfg, s) && Rooted(s) && Enabled(cfg, s, e) && !e.CrashRestart?
    ensures Rooted(Next(cfg, s, e))
  {
    hide Inv, Enqueued, EncodeRecord, Encodable, EncodeFrame, ReadyHeap.Push, ReadyHeap.Pop;
    match e
    case Send(c) => RootedSend(s, EnqueueRecord(s.calls[c].id, s.calls[c].task));
    case Begin(op, now) =>
      NotAnEnqueue(s.mem, op, now, cfg.maxRetries);
      RootedSend(s, OpRecord(s.mem, op, now, cfg.maxRetries));
    case Commit(c) => LoggedCallIsPending(cfg, s, c);
    case Finish(availableAt) => OpKeepsTasks(s.mem, s.holder.value.record, availableAt);
    case _ =>
  }

  lemma RootedSend(s: Sys, r: Record)
    requires Rooted(s) && (r.Enqueue? || r.id in s.mem.tasks)
    ensures var s' := SendRecord(s, r); Rooted(s')
  {
    hide EncodeRecord, Enqueued;
    RootedSnoc(s.log, r);
    forall id | id in s.mem.tasks
      ensures Enqueued(s.log + [r], id)
    {
      EnqueuedSnoc(s.log, r, id);
    }
  }

  /** Every step of every run keeps the lives of the tasks that are not shadowed. */
  lemma EventKeepsLives(cfg: Config, s: Sys, e: Event)
    requires Inv(cfg, s) && LivesInv(s) && Rooted(s) && Enabled(cfg, s, e)
    ensures LivesInv(Next(cfg, s, e)) && Rooted(Next(cfg, s, e))
  {
    hide Inv, LivesInv, Enabled, Next, Rooted;
    if e.CrashRestart? {
      RestartKeepsRooted(cfg, s, e);
    } else {
      StepKeepsRooted(cfg, s, e);
    }
    match e
    case Send(_) => SendKeepsLives(cfg, s, e);
    case Commit(_) => CommitKeepsLives(cfg, s, e);
    case Begin(_, _) => BeginKeepsLives(cfg, s, e);
    case Finish(_) => FinishKeepsLives(cfg, s, e);
    case CrashRestart(_, _, _) => RestartKeepsLives(cfg, s, e);
    case _ => QuietKeepsLives(cfg, s, e);
  }

  /** No restriction at all. */
  ghost predicate AnyStep(cfg: Config, s: Sys, e: Event) {
    true
  }

  lemma {:induction false} RunKeepsLives(cfg: Config, s: Sys, es: seq<Event>)
    requires Inv(cfg, s) && LivesInv(s) && Rooted(s) && RunOf(cfg, s, es, AnyStep)
    ensures LivesInv(Final(cfg, s, es, AnyStep))
    decreases |es|
  {
    hide Inv, LivesInv, Enabled, Next, Rooted;
    if es != [] {
      EventKeepsInv(cfg, s, es[0]);
      EventKeepsLives(cfg, s, es[0]);
      RunKeepsLives(cfg, Next(cfg, s, es[0]), es[1..]);
    }
  }

  lemma InitialLives()
    ensures LivesInv(Initial()) && Rooted(Initial())
  {
  }

  lemma LogIsLegal(cfg: Config, s: Sys)
    requires Inv(cfg, s) && LivesInv(s)
    ensures Legal(s.log) && forall r :: r in s.log ==> Encodable(r)
  {
    hide Life, Shadowed, Sound, Frames, IdInv, CallInv, HolderInv, PendingInv, Encodable;
  }

  lemma OpensIffReplays(crc: Checksum, log: seq<Record>, clock: seq<Time>)
    requires Legal(log) && forall r :: r in log ==> Encodable(r)
    requires |clock| == |Parse(crc, Frames(crc, EncodeAll(log)))|
    ensures var opening := NewQueue(crc, Frames(crc, EncodeAll(log)), clock);
            if Effects(log).Some? then opening.Opened? else opening == Panicked
  {
    hide Frames, Parse, EncodeRecord, Life, Effects, Shadowed;
    EncodedIsFramable(log);
    ParseInvertsFrames(crc, EncodeAll(log));
    ReplayOfEncoded(log, clock);
    ReplayRebuilds(log, clock);
  }

  lemma RunLogs(cfg: Config, es: seq<Event>)
    requires RunOf(cfg, Initial(), es, AnyStep)
    ensures var log := Final(cfg, Initial(), es, AnyStep).log; Legal(log) && forall r :: r in log ==> Encodable(r)
  {
    InitialInv(cfg);
    InitialLives();
    hide Inv, LivesInv, RunOf, Final, Legal, Encodable, Rooted;
    RunKeepsInv(cfg, Initial(), es, AnyStep);
    RunKeepsLives(cfg, Initial(), es);
    LogIsLegal(cfg, Final(cfg, Initial(), es, AnyStep));
  }

  /**
    * Exactly when a start fails. The log of every run from an empty file, restarts included, opens, and does not panic,
    * if and only if no Retry, Dead or Requeue record in it is about a task that another Enqueue with its key preceded.
    */
  lemma OpensIffNoShadowUsed(cfg: Config, es: seq<Event>, clock: seq<Time>)
    requires RunOf(cfg, Initial(), es, AnyStep)
    requires var log := Final(cfg, Initial(), es, AnyStep).log;
             |clock| == |Parse(cfg.crc, Frames(cfg.crc, EncodeAll(log)))|
    ensures var log := Final(cfg, Initial(), es, AnyStep).log;
            var opening := NewQueue(cfg.crc, Frames(cfg.crc, EncodeAll(log)), clock);
            && (opening.Opened? <==> NoShadowUsed(log))
            && (opening == Panicked <==> !NoShadowUsed(log))
  {
    hide RunOf, Final, Frames, Parse, NewQueue, NoShadowUsed, Legal, Effects, Encodable, EncodeRecord;
    var log := Final(cfg, Initial(), es, AnyStep).log;
    RunLogs(cfg, es);
    ReplayableIffNoShadowUsed(log);
    OpensIffReplays(cfg.crc, log, clock);
  }
}
