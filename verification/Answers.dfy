/** From the writer's answers to the calls that returned: what a caller was told has happened is never lost. */
module Answers {
  import opened ByteStrings
  import opened Codec
  import opened Framing
  import opened LiveQueue
  import opened Replay
  import opened Recovery
  import opened GroupCommit
  import opened Machine
  import opened Agreement
  import opened CrashSafety
  import opened KeyOrder

  /** An Enqueue that returns through its second critical section, or a logged operation that returns nil. */
  predicate Returns(e: Event) {
    e.Commit? || e.Finish?
  }

  /** The log entry of the operation that returns. */
  function Position(s: Sys, e: Event): nat {
    if e.Commit? && InPhase(s, e.c, true) then s.calls[e.c].pos
    else if s.holder.Some? then s.holder.value.pos
    else 0
  }

  /** Who waits below the settled mark has been answered: a restart, which raises it alone, leaves no one waiting. */
  ghost predicate AnsweredInv(s: Sys) {
    || s.wal.answered == s.wal.replied
    || (&& (forall c :: InPhase(s, c, true) ==> s.wal.replied <= s.calls[c].pos)
        && (s.holder.Some? ==> s.wal.replied <= s.holder.value.pos))
  }

  /** A step that is neither the writer's nor a restart: who starts to wait does so at the end of the log. */
  lemma CallerKeepsAnswered(cfg: Config, s: Sys, e: Event)
    requires s.wal.replied <= |s.log| && AnsweredInv(s) && Enabled(cfg, s, e) && !e.Disk? && !e.CrashRestart?
    ensures AnsweredInv(Next(cfg, s, e))
  {
    hide EncodeRecord, Encodable, Frames, EncodeFrame, OpMem, CommitEnqueue, DequeueMem, OpRecord;
    var s' := Next(cfg, s, e);
    assert s'.wal.answered == s.wal.answered && s'.wal.replied == s.wal.replied;
    assert forall c :: InPhase(s', c, true) ==>
             (InPhase(s, c, true) && s'.calls[c] == s.calls[c]) || s'.calls[c].pos == |s.log|;
    assert s'.holder.Some? ==> s'.holder == s.holder || s'.holder.value.pos == |s.log|;
  }

  lemma EventKeepsAnswered(cfg: Config, s: Sys, e: Event)
    requires Inv(cfg, s) && AnsweredInv(s) && Enabled(cfg, s, e)
    ensures AnsweredInv(Next(cfg, s, e))
  {
    ReplyBound(cfg, s);
    hide Inv, Enabled, Next, AnsweredInv;
    match e
    case Disk(_) => WriterKeepsAnswered(cfg, s, e);
    case CrashRestart(_, _, _) => RestartLeavesNoWaiters(cfg, s, e);
    case _ => CallerKeepsAnswered(cfg, s, e);
  }

  lemma WriterKeepsAnswered(cfg: Config, s: Sys, e: Event)
    requires AnsweredInv(s) && Enabled(cfg, s, e) && e.Disk?
    ensures AnsweredInv(Next(cfg, s, e))
  {
    hide EncodeFrame;
    var s' := Next(cfg, s, e);
    assert s'.calls == s.calls && s'.holder == s.holder;
    assert s'.wal.answered == s'.wal.replied || (s'.wal.answered == s.wal.answered && s'.wal.replied == s.wal.replied);
  }

  lemma RestartLeavesNoWaiters(cfg: Config, s: Sys, e: Event)
    requires Enabled(cfg, s, e) && e.CrashRestart?
    ensures AnsweredInv(Next(cfg, s, e))
  {
    hide Frames, Recover;
    var s' := Next(cfg, s, e);
    assert s'.holder.None? && forall c :: !InPhase(s', c, true);
  }

  /** An operation that returns success has its record among those answered. */
  lemma ReturnedIsAnswered(cfg: Config, s: Sys, e: Event)
    requires AnsweredInv(s) && Enabled(cfg, s, e) && Returns(e)
    ensures Position(s, e) < s.wal.answered
  {
    hide Frames;
  }

  /** Answers are never withdrawn: the answered part of the log only grows, through restarts as well. */
  lemma AnswersStay(cfg: Config, s: Sys, e: Event)
    requires Inv(cfg, s) && Enabled(cfg, s, e)
    ensures s.wal.answered <= Next(cfg, s, e).wal.answered <= |Next(cfg, s, e).log| && s.wal.answered <= |s.log|
    ensures Next(cfg, s, e).log[..s.wal.answered] == s.log[..s.wal.answered]
  {
    hide Inv, Enabled, Next;
    EventKeepsInv(cfg, s, e);
    AnsweredBound(cfg, s);
    AnsweredBound(cfg, Next(cfg, s, e));
    if e.CrashRestart? {
      RestartKeepsAnswers(cfg, s, e);
    } else {
      LogStays(cfg, s, e);
      AnswersGrow(cfg, s, e);
      var n, log' := |s.log|, Next(cfg, s, e).log;
      assert log'[..n][..s.wal.answered] == log'[..s.wal.answered];
    }
  }

  lemma AnsweredBound(cfg: Config, s: Sys)
    requires Inv(cfg, s)
    ensures s.wal.answered <= s.wal.replied <= |s.log| == |s.wal.requests|
    ensures |Frames(cfg.crc, s.wal.requests[..s.wal.answered])| <= s.wal.synced
  {
    hide Sound, IdInv, CallInv, HolderInv, PendingInv, EncodeRecord, Frames;
    assert |EncodeAll(s.log)| == |s.log|;
  }

  lemma AnswersGrow(cfg: Config, s: Sys, e: Event)
    requires Enabled(cfg, s, e) && !e.CrashRestart? && s.wal.answered <= s.wal.replied
    ensures s.wal.answered <= Next(cfg, s, e).wal.answered
  {
    hide EncodeRecord, Encodable, Frames, EncodeFrame, OpMem, CommitEnqueue, DequeueMem, OpRecord;
  }

  lemma RestartKeepsAnswers(cfg: Config, s: Sys, e: Event)
    requires Inv(cfg, s) && Enabled(cfg, s, e) && e.CrashRestart?
    ensures s.wal.answered <= e.k <= |s.log|
    ensures Next(cfg, s, e).wal.answered == s.wal.answered && Next(cfg, s, e).log == s.log[..e.k]
    ensures Next(cfg, s, e).log[..s.wal.answered] == s.log[..s.wal.answered]
  {
    hide Inv, Frames, Recover;
    AnsweredBound(cfg, s);
    if e.k < s.wal.answered {
      FramesGrow(cfg.crc, s.wal.requests, e.k, s.wal.answered);
    }
    assert s.log[..e.k][..s.wal.answered] == s.log[..s.wal.answered];
  }

  lemma {:induction false} RunKeepsAnswers(cfg: Config, s: Sys, es: seq<Event>)
    requires Inv(cfg, s) && AnsweredInv(s) && RunOf(cfg, s, es, InOrder)
    ensures var s' := Final(cfg, s, es, InOrder);
            && AnsweredInv(s') && s.wal.answered <= s'.wal.answered <= |s'.log| && s.wal.answered <= |s.log|
            && s'.log[..s.wal.answered] == s.log[..s.wal.answered]
    decreases |es|
  {
    if es == [] {
      AnsweredBound(cfg, s);
    } else {
      hide Inv, AnsweredInv, Enabled, Next;
      var s1 := Next(cfg, s, es[0]);
      EventKeepsInv(cfg, s, es[0]);
      EventKeepsAnswered(cfg, s, es[0]);
      AnswersStay(cfg, s, es[0]);
      RunKeepsAnswers(cfg, s1, es[1..]);
      PrefixOfPrefix(Final(cfg, s1, es[1..], InOrder).log, s1.log, s.wal.answered, s1.wal.answered);
    }
  }

  lemma PrefixOfPrefix(log': seq<Record>, log: seq<Record>, n: nat, m: nat)
    requires n <= m <= |log| && m <= |log'| && log'[..m] == log[..m]
    ensures log'[..n] == log[..n]
  {
    assert log'[..n] == log'[..m][..n] && log[..n] == log[..m][..n];
  }

  /** What holds of every state of every in-order run from an empty log. */
  ghost predicate Reached(cfg: Config, s: Sys) {
    Inv(cfg, s) && Agrees(s) && AnsweredInv(s)
  }

  lemma RunReaches(cfg: Config, es: seq<Event>)
    requires RunOf(cfg, Initial(), es, InOrder)
    ensures Reached(cfg, Final(cfg, Initial(), es, InOrder))
  {
    InitialAgrees(cfg);
    assert AnsweredInv(Initial());
    hide Inv, Agrees, AnsweredInv, RunOf, Final;
    ReplayRefinesLive(cfg, Initial(), es);
    RunKeepsAnswers(cfg, Initial(), es);
  }

  /**
    * No success is taken back. Let an operation return in an in-order run, let the run go on in any way, restarts
    * included, and let a crash leave any bytes that contain the synced ones. Then the file opens, and its state is the
    * effect of a log prefix in which the operation's record stands where it stood when the operation returned.
    */
  lemma ReturnedSurvives(
    cfg: Config, s: Sys, e: Event, es: seq<Event>, disk: Bytes, clock: seq<Time>, late: Time) returns (k: nat)
    requires Reached(cfg, s) && Enabled(cfg, s, e) && InOrder(cfg, s, e) && Returns(e)
    requires RunOf(cfg, Next(cfg, s, e), es, InOrder)
    requires var s' := Final(cfg, Next(cfg, s, e), es, InOrder); disk <= s'.wal.file && s'.wal.synced <= |disk|
    requires |clock| == |Parse(cfg.crc, disk)|
    requires ZERO_TIME <= late && forall t :: t in clock ==> t <= late
    ensures var s', p := Final(cfg, Next(cfg, s, e), es, InOrder), Position(s, e);
            && p < |s.log| && p < k <= |s'.log| && s'.log[p] == s.log[p]
            && NewQueue(cfg.crc, disk, clock).Opened?
            && Effects(s'.log[..k]) == Some(DurableOf(NewQueue(cfg.crc, disk, clock).mem))
  {
    hide Inv, Agrees, AnsweredInv, RunOf, Final, Parse, NewQueue, Next, Effects, DurableOf, Enabled, InOrder;
    var p, s1, n := Position(s, e), Next(cfg, s, e), s.wal.answered;
    ReturnedIsAnswered(cfg, s, e);
    AnswersStay(cfg, s, e);
    EventKeepsInv(cfg, s, e);
    EventKeepsAgreement(cfg, s, e);
    EventKeepsAnswered(cfg, s, e);
    ReplayRefinesLive(cfg, s1, es);
    RunKeepsAnswers(cfg, s1, es);
    var s' := Final(cfg, s1, es, InOrder);
    PrefixOfPrefix(s'.log, s1.log, n, s1.wal.answered);
    assert s'.log[p] == s'.log[..n][p] && s.log[p] == s.log[..n][p];
    k := AnyCutRecoversLiveState(cfg, s', disk, clock, late);
  }

  // --- one process, from its start to its crash ---

  /** In order, within one process. */
  ghost predicate OneProcess(cfg: Config, s: Sys, e: Event) {
    InOrder(cfg, s, e) && !e.CrashRestart?
  }

  lemma {:induction false} OneProcessStaysFirm(cfg: Config, s: Sys, es: seq<Event>)
    requires Inv(cfg, s) && Agrees(s) && Firm(cfg.crc, s.wal) && RunOf(cfg, s, es, OneProcess)
    ensures var s' := Final(cfg, s, es, OneProcess); Inv(cfg, s') && Agrees(s') && Firm(cfg.crc, s'.wal)
    decreases |es|
  {
    hide Inv, Agrees, Firm, Enabled, Next, InOrder;
    if es != [] {
      EventKeepsInv(cfg, s, es[0]);
      EventKeepsAgreement(cfg, s, es[0]);
      FirmStays(cfg, s, es[0]);
      OneProcessStaysFirm(cfg, Next(cfg, s, es[0]), es[1..]);
    }
  }

  /**
    * A process that starts on an empty file, or on one that is synced, and runs in order until it crashes: whatever
    * bytes are left beside the synced ones, the next start recovers the durable state of its memory plus exactly the
    * operations pending among the first k records, for a k past every record answered.
    */
  lemma OneProcessRecovers(
    cfg: Config, s: Sys, es: seq<Event>, disk: Bytes, clock: seq<Time>, late: Time) returns (k: nat)
    requires Inv(cfg, s) && Agrees(s) && Firm(cfg.crc, s.wal) && RunOf(cfg, s, es, OneProcess)
    requires var s' := Final(cfg, s, es, OneProcess); disk <= s'.wal.file && s'.wal.synced <= |disk|
    requires |clock| == |Parse(cfg.crc, disk)|
    requires ZERO_TIME <= late && forall t :: t in clock ==> t <= late
    ensures var s' := Final(cfg, s, es, OneProcess);
            && s'.wal.replied <= k <= |s'.log|
            && NewQueue(cfg.crc, disk, clock).Opened?
            && var m := NewQueue(cfg.crc, disk, clock).mem;
               && EffectsFrom(DurableOf(s'.mem), Pending(s'.log, s'.done, k)) == Some(DurableOf(m))
               && m.inflight == {} && WellFormed(m) && AllDue(m, late)
  {
    hide Inv, Agrees, Firm, RunOf, Final, Parse, NewQueue, DurableOf, EffectsFrom, Effects, WellFormed, AllDue;
    OneProcessStaysFirm(cfg, s, es);
    k := AnyCutRecoversLiveState(cfg, Final(cfg, s, es, OneProcess), disk, clock, late);
  }

  lemma InitialIsFirm(cfg: Config)
    ensures Reached(cfg, Initial()) && Firm(cfg.crc, Initial().wal)
  {
    InitialAgrees(cfg);
    NoFrames(cfg.crc);
    hide Inv, Agrees, Frames;
    assert Initial().wal.requests[..0] == [];
  }
}
