/** What a caller hands to Enqueue is what the queue holds and hands out, and the ID it gets back is that task's. */
module Submissions {
  import opened ByteStrings
  import opened Codec
  import opened Framing
  import opened LiveQueue
  import opened Replay
  import opened Recovery
  import opened Machine
  import opened KeyOrder
  import opened Outcomes
  import opened RecoveryOrder
  import ReadyHeap

  predicate Submits(r: Record, key: Key, payload: Bytes, now: Time) {
    r.Enqueue? && r.key == key && r.payload == payload && r.enqueuedAt == now
  }

  /** Wherever this ID appears, in a call, in the log or in memory, it stands for what the caller submitted. */
  ghost predicate Submitted(s: Sys, id: Id, key: Key, payload: Bytes, now: Time) {
    && id in s.used
    && (forall c :: c in s.calls && !s.calls[c].Returned? && s.calls[c].id == id ==>
          Carries(s.calls[c].task, key, payload, now))
    && (forall i :: 0 <= i < |s.log| && s.log[i].Enqueue? && s.log[i].id == id ==> Submits(s.log[i], key, payload, now))
    && (id in s.mem.tasks ==> Carries(s.mem.tasks[id], key, payload, now))
  }

  lemma CheckSubmits(cfg: Config, s: Sys, e: Event)
    requires Inv(cfg, s) && Enabled(cfg, s, e) && e.Check? && !Bound(s.mem, e.key)
    ensures Submitted(Next(cfg, s, e), e.id, e.key, e.payload, e.now)
    ensures var s' := Next(cfg, s, e); e.c in s'.calls && s'.calls[e.c].Checked? && s'.calls[e.c].id == e.id
  {
    NotYetUsed(cfg, s, e.id);
    hide Inv, Encodable;
  }

  lemma NotYetUsed(cfg: Config, s: Sys, id: Id)
    requires Inv(cfg, s) && id !in s.used
    ensures id !in s.mem.tasks
    ensures forall i :: 0 <= i < |s.log| && s.log[i].Enqueue? ==> s.log[i].id != id
    ensures forall c :: c in s.calls && !s.calls[c].Returned? ==> s.calls[c].id != id
  {
    hide Sound, LogInv, HolderInv, PendingInv;
  }

  lemma MemoryKeepsSubmission(cfg: Config, s: Sys, e: Event, id: Id)
    requires Inv(cfg, s) && Enabled(cfg, s, e) && (e.Finish? || e.Deliver?)
    ensures var m' := Next(cfg, s, e).mem;
            && (id in m'.tasks <==> id in s.mem.tasks)
            && (id in s.mem.tasks ==> SameSubmission(s.mem.tasks[id], m'.tasks[id]))
  {
    if e.Finish? {
      hide Inv, Enabled, Next, OpMem, OpRecord;
      FinishDoes(cfg, s, e);
      FinishIs(cfg, s, e);
      OpKeepsTasks(s.mem, s.holder.value.record, e.availableAt);
      var h := s.holder.value;
      if id in s.mem.tasks {
        DoneKeepsSubmission(s.mem, Next(cfg, s, e).mem, h.op, h.now, e.availableAt, cfg.maxRetries, id);
      }
    } else {
      hide Inv, ReadyHeap.Pop;
    }
  }

  lemma DoneKeepsSubmission(m: Mem, m': Mem, op: Op, now: Time, availableAt: Time, maxRetries: int, id: Id)
    requires Done(m, m', op, now, availableAt, maxRetries) && id in m.tasks
    ensures id in m'.tasks && SameSubmission(m.tasks[id], m'.tasks[id])
  {
    assert Moved(m, m', op.id, 0) || Moved(m, m', op.id, 1);
    hide Done;
  }

  lemma RestartKeepsSubmission(cfg: Config, s: Sys, e: Event, id: Id, key: Key, payload: Bytes, now: Time)
    requires Inv(cfg, s) && Submitted(s, id, key, payload, now) && Enabled(cfg, s, e) && e.CrashRestart?
    ensures id in Next(cfg, s, e).mem.tasks ==> Carries(Next(cfg, s, e).mem.tasks[id], key, payload, now)
  {
    hide Inv, Enabled, Next, Recover, EncodeAll;
    RestartIs(cfg, s, e);
    LogIsProduced(cfg, s);
    PrefixFacts(s.log, e.k);
    var log := s.log[..e.k];
    RecoveryRedelivers(log, e.clock, LatestOf(e.clock));
    if id in Next(cfg, s, e).mem.tasks {
      assert Enqueued(log, id);
      var j :| 0 <= j < |log| && log[j].Enqueue? && log[j].id == id;
      RecoveredTimes(log, e.clock, id, j);
      assert log[j] == s.log[j];
    }
  }

  lemma RestartBooks(cfg: Config, s: Sys, e: Event)
    requires Enabled(cfg, s, e) && e.CrashRestart?
    ensures var s' := Next(cfg, s, e); s'.used == s.used && forall c :: c in s'.calls ==> s'.calls[c].Returned?
  {
    hide Recover, Frames;
  }

  /** One record more keeps it, unless it enqueues the ID as something else. */
  lemma RecordKeepsSubmission(s: Sys, s': Sys, r: Record, id: Id, key: Key, payload: Bytes, now: Time)
    requires Submitted(s, id, key, payload, now) && s'.log == s.log + [r] && s'.mem == s.mem && s'.used == s.used
    requires r.Enqueue? && r.id == id ==> Submits(r, key, payload, now)
    requires forall c :: c in s'.calls && !s'.calls[c].Returned? ==>
               && c in s.calls && !s.calls[c].Returned?
               && s'.calls[c].id == s.calls[c].id && s'.calls[c].task == s.calls[c].task
    ensures Submitted(s', id, key, payload, now)
  {
  }

  lemma SendKeepsSubmission(cfg: Config, s: Sys, e: Event, id: Id, key: Key, payload: Bytes, now: Time)
    requires Submitted(s, id, key, payload, now) && Enabled(cfg, s, e) && e.Send?
    ensures Submitted(Next(cfg, s, e), id, key, payload, now)
  {
    hide EncodeRecord;
    var Checked(x, task) := s.calls[e.c];
    assert x == id ==> Carries(task, key, payload, now);
    var s' := Next(cfg, s, e);
    assert s'.log == s.log + [EnqueueRecord(x, task)] && s'.mem == s.mem && s'.used == s.used;
    assert forall c :: c in s'.calls && !s'.calls[c].Returned? ==>
             && c in s.calls && !s.calls[c].Returned?
             && s'.calls[c].id == s.calls[c].id && s'.calls[c].task == s.calls[c].task;
    hide Submitted, Next;
    RecordKeepsSubmission(s, s', EnqueueRecord(x, task), id, key, payload, now);
  }

  lemma BeginKeepsSubmission(cfg: Config, s: Sys, e: Event, id: Id, key: Key, payload: Bytes, now: Time)
    requires Submitted(s, id, key, payload, now) && Enabled(cfg, s, e) && e.Begin?
    ensures Submitted(Next(cfg, s, e), id, key, payload, now)
  {
    hide EncodeRecord, Encodable, OpRecord, Submitted;
    NotAnEnqueue(s.mem, e.op, e.now, cfg.maxRetries);
    RecordKeepsSubmission(s, Next(cfg, s, e), OpRecord(s.mem, e.op, e.now, cfg.maxRetries), id, key, payload, now);
  }

  lemma CheckKeepsSubmission(cfg: Config, s: Sys, e: Event, id: Id, key: Key, payload: Bytes, now: Time)
    requires Submitted(s, id, key, payload, now) && Enabled(cfg, s, e) && (e.Check? || e.Disk?)
    ensures Submitted(Next(cfg, s, e), id, key, payload, now)
  {
    hide Encodable, EncodeFrame, Carries, Submits;
    var s' := Next(cfg, s, e);
    assert s'.log == s.log && s'.mem == s.mem && s.used <= s'.used;
    assert forall c :: c in s'.calls && !s'.calls[c].Returned? ==>
             (c in s.calls && s'.calls[c] == s.calls[c]) || s'.calls[c].id != id;
  }

  /** Every step of every run keeps it, restarts included. */
  lemma EventKeepsSubmission(cfg: Config, s: Sys, e: Event, id: Id, key: Key, payload: Bytes, now: Time)
    requires Inv(cfg, s) && Submitted(s, id, key, payload, now) && Enabled(cfg, s, e)
    ensures Submitted(Next(cfg, s, e), id, key, payload, now)
  {
    hide Inv;
    if e.Send? {
      SendKeepsSubmission(cfg, s, e, id, key, payload, now);
    } else if e.Begin? {
      BeginKeepsSubmission(cfg, s, e, id, key, payload, now);
    } else if e.Check? || e.Disk? {
      CheckKeepsSubmission(cfg, s, e, id, key, payload, now);
    } else if e.CrashRestart? {
      hide Enabled, Next, Recover;
      RestartIs(cfg, s, e);
      RestartBooks(cfg, s, e);
      RestartKeepsSubmission(cfg, s, e, id, key, payload, now);
    } else if e.Commit? {
      hide ReadyHeap.Push;
    } else {
      MemoryKeepsSubmission(cfg, s, e, id);
      hide OpMem, DequeueMem;
    }
  }

  lemma {:induction false} SubmissionIsKept(cfg: Config, s: Sys, es: seq<Event>, P: (Config, Sys, Event) -> bool,
                                            id: Id, key: Key, payload: Bytes, now: Time)
    requires Inv(cfg, s) && Submitted(s, id, key, payload, now) && RunOf(cfg, s, es, P)
    ensures Submitted(Final(cfg, s, es, P), id, key, payload, now)
    decreases |es|
  {
    hide Inv, Enabled, Next, Submitted;
    if es != [] {
      EventKeepsInv(cfg, s, es[0]);
      EventKeepsSubmission(cfg, s, es[0], id, key, payload, now);
      SubmissionIsKept(cfg, Next(cfg, s, es[0]), es[1..], P, id, key, payload, now);
    }
  }

  // --- the answer ---

  /** The call is on its way with its own ID; or it has returned, that ID with its task in memory, or its key's task. */
  ghost predicate Answered(s: Sys, c: nat, id: Id, key: Key) {
    && c in s.calls
    && match s.calls[c] {
         case Checked(i, t) => i == id && t.key == key
         case Logged(i, t, _) => i == id && t.key == key
         case Returned(k, i) =>
           && k == key
           && ((i == id && id in s.mem.tasks) || (key != [] && key in s.mem.keys && s.mem.keys[key] == i))
       }
  }

  lemma CommitAnswers(cfg: Config, s: Sys, e: Event, id: Id, key: Key)
    requires Inv(cfg, s) && Enabled(cfg, s, e) && e.Commit? && Answered(s, e.c, id, key)
    ensures Answered(Next(cfg, s, e), e.c, id, key)
    ensures !Bound(s.mem, key) ==>
              Next(cfg, s, e).calls[e.c] == Returned(key, id) && id in Next(cfg, s, e).mem.index
  {
    BoundIsKnown(cfg, s, e.c);
    hide Inv, ReadyHeap.Push;
  }

  /** A call that comes back for the lock is not yet the owner of its key. */
  lemma BoundIsKnown(cfg: Config, s: Sys, c: nat)
    requires Inv(cfg, s) && InPhase(s, c, true)
    ensures s.calls[c].id !in s.mem.tasks
  {
    LoggedCallIsPending(cfg, s, c);
  }

  lemma TasksStay(cfg: Config, s: Sys, e: Event, id: Id)
    requires Inv(cfg, s) && Enabled(cfg, s, e) && !e.CrashRestart? && id in s.mem.tasks
    ensures id in Next(cfg, s, e).mem.tasks
  {
    if e.Finish? || e.Deliver? {
      MemoryKeepsSubmission(cfg, s, e, id);
    }
    hide Inv, OpMem, DequeueMem, ReadyHeap.Push, EncodeRecord, Encodable, EncodeFrame;
  }

  lemma OthersStay(cfg: Config, s: Sys, e: Event, c: nat)
    requires Enabled(cfg, s, e) && !e.CrashRestart? && c in s.calls
    requires !(e.Commit? && e.c == c) && !(e.Send? && e.c == c)
    ensures c in Next(cfg, s, e).calls && Next(cfg, s, e).calls[c] == s.calls[c]
  {
    hide OpMem, DequeueMem, CommitEnqueue, EncodeRecord, Encodable, EncodeFrame, OpRecord;
  }

  lemma EventKeepsAnswer(cfg: Config, s: Sys, e: Event, c: nat, id: Id, key: Key)
    requires Inv(cfg, s) && Answered(s, c, id, key) && Enabled(cfg, s, e) && !e.CrashRestart?
    ensures Answered(Next(cfg, s, e), c, id, key)
  {
    if e.Commit? && e.c == c {
      CommitAnswers(cfg, s, e, id, key);
    } else if e.Send? && e.c == c {
      hide Inv, EncodeRecord;
    } else {
      hide Inv, Enabled, Next;
      OthersStay(cfg, s, e, c);
      if id in s.mem.tasks {
        TasksStay(cfg, s, e, id);
      }
      if key != [] && key in s.mem.keys {
        BindingsStay(cfg, s, e, key);
      }
    }
  }

  /**
    * In every crash-free run, a call that finds its key unbound and returns, returns the ID of its own task, which is
    * there as it was submitted, or, for a non-empty key only, the ID its key was bound to in the meantime.
    */
  lemma {:induction false} AnswerIsKept(cfg: Config, s: Sys, es: seq<Event>, c: nat, id: Id, key: Key)
    requires Inv(cfg, s) && Answered(s, c, id, key) && RunOf(cfg, s, es, NoCrash)
    ensures Answered(Final(cfg, s, es, NoCrash), c, id, key)
    decreases |es|
  {
    hide Inv, Enabled, Next, Answered;
    if es != [] {
      EventKeepsInv(cfg, s, es[0]);
      EventKeepsAnswer(cfg, s, es[0], c, id, key);
      AnswerIsKept(cfg, Next(cfg, s, es[0]), es[1..], c, id, key);
    }
  }

  /** The two together, from the call's first critical section on. */
  lemma EnqueueGivesBack(cfg: Config, s: Sys, e: Event, es: seq<Event>)
    requires Inv(cfg, s) && Enabled(cfg, s, e) && e.Check? && !Bound(s.mem, e.key)
    requires RunOf(cfg, Next(cfg, s, e), es, NoCrash)
    ensures var s' := Final(cfg, Next(cfg, s, e), es, NoCrash);
            && Answered(s', e.c, e.id, e.key)
            && (e.id in s'.mem.tasks ==> Carries(s'.mem.tasks[e.id], e.key, e.payload, e.now))
            && (s'.calls[e.c].Returned? && e.key == [] ==> s'.calls[e.c] == Returned([], e.id) && e.id in s'.mem.tasks)
  {
    CheckSubmits(cfg, s, e);
    assert Answered(Next(cfg, s, e), e.c, e.id, e.key);
    hide Inv, Enabled, Next, RunOf, Final;
    EventKeepsInv(cfg, s, e);
    AnswerIsKept(cfg, Next(cfg, s, e), es, e.c, e.id, e.key);
    SubmissionIsKept(cfg, Next(cfg, s, e), es, NoCrash, e.id, e.key, e.payload, e.now);
  }
}
