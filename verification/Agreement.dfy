/** Replaying the log gives the live durable state plus exactly the operations still waiting for their reply. */
module Agreement {
  import opened Codec
  import opened Framing
  import opened LiveQueue
  import opened Replay
  import opened Recovery
  import opened GroupCommit
  import opened Machine

  /** The first k log entries whose operation has not finished in memory, in log order. */
  function Pending(log: seq<Record>, done: set<nat>, k: nat): seq<Record>
    requires k <= |log|
  {
    if k == 0 then []
    else Pending(log, done, k - 1) + (if k - 1 in done then [] else [log[k - 1]])
  }

  lemma {:induction false} PendingOfPrefix(log: seq<Record>, log': seq<Record>, done: set<nat>, k: nat)
    requires k <= |log| <= |log'| && log'[..|log|] == log
    ensures Pending(log', done, k) == Pending(log, done, k)
  {
    if k != 0 {
      PendingOfPrefix(log, log', done, k - 1);
      assert log'[k - 1] == log'[..|log|][k - 1];
    }
  }

  lemma {:induction false} NothingPending(log: seq<Record>, done: set<nat>, k: nat)
    requires k <= |log| && forall p: nat :: p < k ==> p in done
    ensures Pending(log, done, k) == []
  {
    if k != 0 {
      NothingPending(log, done, k - 1);
    }
  }

  lemma {:induction false} PendingMember(log: seq<Record>, done: set<nat>, k: nat, i: nat) returns (p: nat)
    requires k <= |log| && i < |Pending(log, done, k)|
    ensures p < k && p !in done && Pending(log, done, k)[i] == log[p]
  {
    if i < |Pending(log, done, k - 1)| {
      p := PendingMember(log, done, k - 1, i);
    } else {
      p := k - 1;
    }
  }

  /** Finishing entry p takes it out of the pending list and moves nothing else. */
  lemma {:induction false} PendingWithout(log: seq<Record>, done: set<nat>, p: nat, k: nat) returns (after: seq<Record>)
    requires p < k <= |log| && p !in done
    ensures Pending(log, done, k) == Pending(log, done, p) + [log[p]] + after
    ensures Pending(log, done + {p}, k) == Pending(log, done, p) + after
    decreases k
  {
    if k == p + 1 {
      after := [];
      PendingBelow(log, done, p, p);
      assert Pending(log, done, p) + [] == Pending(log, done, p);
      assert Pending(log, done, p) + [log[p]] + [] == Pending(log, done, p) + [log[p]];
    } else {
      var rest := PendingWithout(log, done, p, k - 1);
      var last := if k - 1 in done then [] else [log[k - 1]];
      after := rest + last;
      var before := Pending(log, done, p);
      assert before + [log[p]] + rest + last == before + [log[p]] + after;
      assert before + rest + last == before + after;
    }
  }

  lemma {:induction false} PendingBelow(log: seq<Record>, done: set<nat>, p: nat, k: nat)
    requires k <= p && k <= |log|
    ensures Pending(log, done + {p}, k) == Pending(log, done, k)
  {
    if k != 0 {
      PendingBelow(log, done, p, k - 1);
    }
  }

  /** The log cut after a record not yet answered for replays to the live state plus what is pending before the cut. */
  ghost predicate AgreesAt(s: Sys, k: nat)
    requires k <= |s.log|
  {
    && Effects(s.log[..k]).Some?
    && Effects(s.log[..k]) == EffectsFrom(DurableOf(s.mem), Pending(s.log, s.done, k))
  }

  ghost predicate Agrees(s: Sys) {
    forall k :: s.wal.replied <= k <= |s.log| ==> AgreesAt(s, k)
  }

  /**
    * The same-key order hypothesis: an Enqueue that is about to bind its key has no rival with the same key
    * whose record lies earlier in the log and which has not yet come back for the lock.
    */
  ghost predicate InOrder(cfg: Config, s: Sys, e: Event) {
    e.Commit? && InPhase(s, e.c, true) ==>
      var Logged(_, task, pos) := s.calls[e.c];
      || task.key == []
      || task.key in s.mem.keys
      || (forall p :: 0 <= p < pos && pos <= |s.log| && p !in s.done && s.log[p].Enqueue? ==> s.log[p].key != task.key)
  }

  /** In order, and no restart loses records that an earlier one had read back. */
  ghost predicate Lasting(cfg: Config, s: Sys, e: Event) {
    InOrder(cfg, s, e) && (e.CrashRestart? ==> s.wal.replied <= e.k)
  }

  /** In order, and no crash comes before the bytes found at the last start are synced. */
  ghost predicate FirmCrashes(cfg: Config, s: Sys, e: Event) {
    InOrder(cfg, s, e) && (e.CrashRestart? ==> Firm(cfg.crc, s.wal))
  }

  // --- each kind of step keeps agreement ---

  lemma AgreesAtFrame(s: Sys, s': Sys, k: nat)
    requires k <= |s.log| <= |s'.log| && s'.log[..|s.log|] == s.log
    requires s'.done == s.done && DurableOf(s'.mem) == DurableOf(s.mem) && AgreesAt(s, k)
    ensures AgreesAt(s', k)
  {
    hide Effects, DurableOf;
    PendingOfPrefix(s.log, s'.log, s.done, k);
    assert s'.log[..k] == s.log[..k];
  }

  lemma LogGrowthKeepsAgreement(s: Sys, s': Sys, r: Record)
    requires s'.log == s.log + [r] && s'.done == s.done && s'.mem == s.mem && s'.wal.replied == s.wal.replied
    requires |s.log| !in s.done && s.wal.replied <= |s.log|
    requires Agrees(s) && EffectsFrom(DurableOf(s.mem), Pending(s.log, s.done, |s.log|) + [r]).Some?
    ensures Agrees(s')
  {
    hide EffectsFrom, DurableOf, Effect;
    forall k | s'.wal.replied <= k <= |s'.log|
      ensures AgreesAt(s', k)
    {
      if k <= |s.log| {
        assert s'.log[..|s.log|] == s.log;
        AgreesAtFrame(s, s', k);
      } else {
        var n := |s.log|;
        assert AgreesAt(s, n);
        assert s'.log[..n] == s.log && s.log[..n] == s.log && s'.log[..k] == s.log + [r];
        EffectsSnoc(EMPTY_DURABLE, s.log, r);
        PendingOfPrefix(s.log, s'.log, s.done, n);
        EffectsSnoc(DurableOf(s.mem), Pending(s.log, s.done, n), r);
      }
    }
  }

  /** Finishing the operation of entry p, whose record has the effect the memory shows, changes no replayed state. */
  lemma FinishKeepsAgreement(s: Sys, s': Sys, p: nat)
    requires s'.log == s.log && s'.wal == s.wal && s'.done == s.done + {p}
    requires p < s.wal.replied && p < |s.log| && p !in s.done
    requires Effect(DurableOf(s.mem), s.log[p]) == Some(DurableOf(s'.mem))
    requires forall q :: 0 <= q < p && q !in s.done ==> Independent(DurableOf(s.mem), s.log[q], s.log[p])
    requires Agrees(s)
    ensures Agrees(s')
  {
    hide DurableOf, Effect;
    var d := DurableOf(s.mem);
    var before := Pending(s.log, s.done, p);
    forall i | 0 <= i < |before|
      ensures Independent(d, before[i], s.log[p])
    {
      var q := PendingMember(s.log, s.done, p, i);
    }
    forall k | s'.wal.replied <= k <= |s'.log|
      ensures AgreesAt(s', k)
    {
      assert AgreesAt(s, k);
      var after := PendingWithout(s.log, s.done, p, k);
      CommitFromMiddle(d, before, s.log[p], after);
    }
  }

  /** With no operation holding the mutex, everything pending is an enqueue unknown to memory. */
  lemma PendingAreIndependent(cfg: Config, s: Sys, r: Record, q: nat)
    requires Inv(cfg, s) && q < |s.log| && q !in s.done && s.log[q].id != r.id
    requires s.holder.Some? ==> s.holder.value.pos != q
    requires !r.Enqueue? || r.key == [] || r.key in DurableOf(s.mem).keys || r.key != s.log[q].key
    ensures Independent(DurableOf(s.mem), s.log[q], r)
  {
    hide Sound, LogInv, IdInv, CallInv, HolderInv;
  }

  lemma EnqueueAlwaysApplies(d: Durable, rs: seq<Record>, r: Record)
    requires EffectsFrom(d, rs).Some? && r.Enqueue?
    ensures EffectsFrom(d, rs + [r]).Some?
  {
    EffectsSnoc(d, rs, r);
  }

  lemma SendKeepsAgreement(cfg: Config, s: Sys, e: Event)
    requires Inv(cfg, s) && Agrees(s) && Enabled(cfg, s, e) && e.Send?
    ensures Agrees(Next(cfg, s, e))
  {
    ReplyBound(cfg, s);
    var Checked(id, task) := s.calls[e.c];
    assert AgreesAt(s, |s.log|);
    EnqueueAlwaysApplies(DurableOf(s.mem), Pending(s.log, s.done, |s.log|), EnqueueRecord(id, task));
    LogGrowthKeepsAgreement(s, Next(cfg, s, e), EnqueueRecord(id, task));
  }

  lemma ReplyBound(cfg: Config, s: Sys)
    requires Inv(cfg, s)
    ensures s.wal.replied <= |s.log| && |s.log| !in s.done
  {
    hide Sound, IdInv, CallInv, HolderInv, EncodeRecord, Frames;
    assert |EncodeAll(s.log)| == |s.log|;
  }

  lemma BeginKeepsAgreement(cfg: Config, s: Sys, e: Event)
    requires Inv(cfg, s) && Agrees(s) && Enabled(cfg, s, e) && e.Begin?
    ensures Agrees(Next(cfg, s, e))
  {
    ReplyBound(cfg, s);
    var r := OpRecord(s.mem, e.op, e.now, cfg.maxRetries);
    LiveOpHasEffect(s.mem, e.op, e.now, cfg.maxRetries, 0);
    NotAnEnqueue(s.mem, e.op, e.now, cfg.maxRetries);
    var d := DurableOf(s.mem);
    var es := Pending(s.log, s.done, |s.log|);
    forall i | 0 <= i < |es|
      ensures Independent(d, es[i], r)
    {
      var q := PendingMember(s.log, s.done, |s.log|, i);
      assert s.log[q].id !in s.mem.tasks;
      PendingAreIndependent(cfg, s, r, q);
    }
    PendingCommutes(d, es, r);
    LogGrowthKeepsAgreement(s, Next(cfg, s, e), r);
  }

  lemma CommitKeepsAgreement(cfg: Config, s: Sys, e: Event)
    requires Inv(cfg, s) && Agrees(s) && Enabled(cfg, s, e) && e.Commit? && InOrder(cfg, s, e)
    ensures Agrees(Next(cfg, s, e))
  {
    var Logged(id, task, pos) := s.calls[e.c];
    assert s.log[pos] == EnqueueRecord(id, task) && id !in s.mem.tasks;
    LiveEnqueueHasEffect(s.mem, id, task);
    MembersOf(s.mem);
    forall q | 0 <= q < pos && q !in s.done
      ensures Independent(DurableOf(s.mem), s.log[q], s.log[pos])
    {
      assert s.log[q].Enqueue? && s.log[q].id != s.log[pos].id;
      PendingAreIndependent(cfg, s, s.log[pos], q);
    }
    FinishKeepsAgreement(s, Next(cfg, s, e), pos);
  }

  lemma FinishOpKeepsAgreement(cfg: Config, s: Sys, e: Event)
    requires Inv(cfg, s) && Agrees(s) && Enabled(cfg, s, e) && e.Finish?
    ensures Agrees(Next(cfg, s, e))
  {
    var h := s.holder.value;
    LiveOpHasEffect(s.mem, h.op, h.now, cfg.maxRetries, e.availableAt);
    NotAnEnqueue(s.mem, h.op, h.now, cfg.maxRetries);
    forall q | 0 <= q < h.pos && q !in s.done
      ensures Independent(DurableOf(s.mem), s.log[q], h.record)
    {
      assert s.log[q].id !in s.mem.tasks;
      PendingAreIndependent(cfg, s, h.record, q);
    }
    FinishKeepsAgreement(s, Next(cfg, s, e), h.pos);
  }

  /** With every record answered and finished, agreement is equality with the replayed log. */
  lemma SettledAgrees(s: Sys)
    requires s.wal.replied == |s.log| && Effects(s.log) == Some(DurableOf(s.mem))
    requires forall p: nat :: p < |s.log| ==> p in s.done
    ensures Agrees(s)
  {
    hide DurableOf, Effects;
    NothingPending(s.log, s.done, |s.log|);
    assert s.log[..|s.log|] == s.log;
  }

  lemma RestartAgrees(cfg: Config, s: Sys, e: Event)
    requires Inv(cfg, s) && Enabled(cfg, s, e) && e.CrashRestart?
    ensures Agrees(Next(cfg, s, e))
  {
    hide Recover, DurableOf, Effects, EncodeAll, Frames, EncodeRecord;
    hide WriterInv, Sound, IdInv, CallInv, HolderInv, PendingInv;
    PrefixFacts(s.log, e.k);
    RecoveryRedelivers(s.log[..e.k], e.clock, LatestOf(e.clock));
    SettledAgrees(Next(cfg, s, e));
  }

  /** The refinement step: every event except an out-of-order binding commit keeps agreement. */
  lemma EventKeepsAgreement(cfg: Config, s: Sys, e: Event)
    requires Inv(cfg, s) && Agrees(s) && Enabled(cfg, s, e) && InOrder(cfg, s, e)
    ensures Agrees(Next(cfg, s, e))
  {
    hide Inv, Agrees, Enabled, Next, InOrder;
    match e
    case Send(_) => SendKeepsAgreement(cfg, s, e);
    case Commit(_) => CommitKeepsAgreement(cfg, s, e);
    case Begin(_, _) => BeginKeepsAgreement(cfg, s, e);
    case Finish(_) => FinishOpKeepsAgreement(cfg, s, e);
    case CrashRestart(_, _, _) => RestartAgrees(cfg, s, e);
    case _ =>
      QuietIs(cfg, s, e);
      QuietKeepsAgreement(cfg, s, e);
  }

  /** The steps that touch neither the log nor anything durable, and settle no less than before. */
  lemma QuietIs(cfg: Config, s: Sys, e: Event)
    requires Enabled(cfg, s, e) && (e.Check? || e.Deliver? || e.Disk?)
    ensures var s' := Next(cfg, s, e);
            && s'.log == s.log && s'.done == s.done
            && DurableOf(s'.mem) == DurableOf(s.mem) && s.wal.replied <= s'.wal.replied
  {
    hide DurableOf, EncodeRecord, Encodable, EncodeFrame;
    if e.Deliver? {
      DequeueIsNotDurable(s.mem, e.now, cfg.visibility);
    } else if e.Disk? {
      RepliesGrow(cfg, s, e.step);
    }
  }

  lemma QuietKeepsAgreement(cfg: Config, s: Sys, e: Event)
    requires Agrees(s) && Enabled(cfg, s, e)
    requires var s' := Next(cfg, s, e);
             && s'.log == s.log && s'.done == s.done
             && DurableOf(s'.mem) == DurableOf(s.mem) && s.wal.replied <= s'.wal.replied
    ensures Agrees(Next(cfg, s, e))
  {
    hide Enabled, Next, DurableOf, Effects;
    var s' := Next(cfg, s, e);
    assert s'.log[..|s.log|] == s.log;
    forall k | s'.wal.replied <= k <= |s'.log|
      ensures AgreesAt(s', k)
    {
      assert AgreesAt(s, k);
      AgreesAtFrame(s, s', k);
    }
  }

  lemma RepliesGrow(cfg: Config, s: Sys, step: WriterStep)
    requires CanStep(cfg.crc, s.wal, step)
    ensures s.wal.replied <= Step(cfg.crc, s.wal, step).replied
  {
    hide EncodeFrame;
  }

  /**
    * Replay refinement: at every point of every in-order run, crashes included, replaying the log up to any
    * record not yet answered for gives the live durable state plus exactly the operations pending before it.
    */
  lemma {:induction false} ReplayRefinesLive(cfg: Config, s: Sys, es: seq<Event>)
    requires Inv(cfg, s) && Agrees(s) && RunOf(cfg, s, es, InOrder)
    ensures Inv(cfg, Final(cfg, s, es, InOrder)) && Agrees(Final(cfg, s, es, InOrder))
    decreases |es|
  {
    if es != [] {
      EventKeepsInv(cfg, s, es[0]);
      EventKeepsAgreement(cfg, s, es[0]);
      ReplayRefinesLive(cfg, Next(cfg, s, es[0]), es[1..]);
    }
  }

  /** Only a restart can leave the writer less than firm, and a sync makes it firm again. */
  lemma FirmStays(cfg: Config, s: Sys, e: Event)
    requires Inv(cfg, s) && Enabled(cfg, s, e) && !e.CrashRestart? && (Firm(cfg.crc, s.wal) || e == Disk(Sync))
    ensures Firm(cfg.crc, Next(cfg, s, e).wal)
  {
    hide EncodeRecord, Frames, EncodeFrame, OpMem, CommitEnqueue, DequeueMem;
    hide Sound, IdInv, CallInv, HolderInv, PendingInv;
    if e.Disk? {
      FirmSteps(cfg.crc, s.wal, e.step);
    } else {
      assert Next(cfg, s, e).wal.requests[..s.wal.replied] == s.wal.requests[..s.wal.replied];
    }
  }

  /** A firm writer loses nothing that is settled. */
  lemma FirmCrashLasts(cfg: Config, s: Sys, e: Event)
    requires Enabled(cfg, s, e) && e.CrashRestart? && Firm(cfg.crc, s.wal) && s.wal.replied <= |s.wal.requests|
    ensures s.wal.replied <= e.k
  {
    hide Frames, Recover;
    if e.k < s.wal.replied {
      FramesGrow(cfg.crc, s.wal.requests, e.k, s.wal.replied);
    }
  }

  /** So the runs whose crashes find the writer firm are lasting. */
  lemma {:induction false} FirmCrashesLast(cfg: Config, s: Sys, es: seq<Event>)
    requires Inv(cfg, s) && RunOf(cfg, s, es, FirmCrashes)
    ensures RunOf(cfg, s, es, Lasting)
    decreases |es|
  {
    if es != [] {
      assert s.wal.replied <= |s.wal.requests|;
      hide Enabled, Next, Inv, Firm;
      if es[0].CrashRestart? {
        FirmCrashLasts(cfg, s, es[0]);
      }
      EventKeepsInv(cfg, s, es[0]);
      FirmCrashesLast(cfg, Next(cfg, s, es[0]), es[1..]);
    }
  }

  lemma {:induction false} LastingIsInOrder(cfg: Config, s: Sys, es: seq<Event>)
    requires RunOf(cfg, s, es, Lasting)
    ensures RunOf(cfg, s, es, InOrder) && Final(cfg, s, es, InOrder) == Final(cfg, s, es, Lasting)
    decreases |es|
  {
    if es != [] {
      hide Enabled, Next;
      LastingIsInOrder(cfg, Next(cfg, s, es[0]), es[1..]);
    }
  }

  lemma InitialAgrees(cfg: Config)
    ensures Inv(cfg, Initial()) && Agrees(Initial())
  {
    InitialInv(cfg);
    var s := Initial();
    assert DurableOf(s.mem) == EMPTY_DURABLE;
    assert s.log[..0] == [];
  }
}
