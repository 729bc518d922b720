/** Retry counts: a Retry record counts one more, a Dead record states the total, and the two always fit. */
module Accounting {
  import opened ByteStrings
  import opened Codec
  import opened Framing
  import opened LiveQueue
  import opened Replay
  import opened Recovery
  import opened Machine
  import opened Agreement
  import opened CrashSafety
  import opened KeyOrder
  import opened Conservation
  import ReadyHeap

  /** A live task has used at most maxRetries retries; a dead one exactly one more. */
  ghost predicate Accounted(cfg: Config, m: Mem) {
    forall id :: AccountedId(cfg, m, id)
  }

  ghost predicate AccountedId(cfg: Config, m: Mem, id: Id) {
    && (id in m.index ==> id in m.tasks && 0 <= m.tasks[id].retries <= cfg.maxRetries)
    && (id in m.dlq ==> id in m.tasks && m.tasks[id].retries == cfg.maxRetries + 1)
  }

  lemma AccountedStep(cfg: Config, s: Sys, e: Event)
    requires 0 <= cfg.maxRetries && Inv(cfg, s) && Accounted(cfg, s.mem) && Enabled(cfg, s, e) && !e.CrashRestart?
    ensures Accounted(cfg, Next(cfg, s, e).mem)
  {
    hide EncodeRecord, ReadyHeap.Push, ReadyHeap.Pop, Frames, EncodeFrame, LogInv, IdInv;
    var s' := Next(cfg, s, e);
    forall id
      ensures AccountedId(cfg, s'.mem, id)
    {
      assert AccountedId(cfg, s.mem, id);
    }
  }

  /** The same of durable state. */
  ghost predicate Counted(cfg: Config, d: Durable) {
    forall id :: CountedId(cfg, d, id)
  }

  ghost predicate CountedId(cfg: Config, d: Durable, id: Id) {
    && (id in d.index ==> 0 <= d.index[id].retries <= cfg.maxRetries)
    && (id in d.dlq ==> d.dlq[id].retries == cfg.maxRetries + 1)
  }

  /** Wherever the log is cut, what it replays to is within bounds. */
  ghost predicate LogCounted(cfg: Config, log: seq<Record>) {
    forall k :: 0 <= k <= |log| && Effects(log[..k]).Some? ==> Counted(cfg, Effects(log[..k]).value)
  }

  lemma CountedMemory(cfg: Config, m: Mem)
    requires Sound(m) && Counted(cfg, DurableOf(m))
    ensures Accounted(cfg, m)
  {
    MembersOf(m);
    hide DurableOf;
    forall id
      ensures AccountedId(cfg, m, id)
    {
      assert CountedId(cfg, DurableOf(m), id);
    }
  }

  lemma CountedEntry(cfg: Config, s: Sys, k: nat, d: Durable, id: Id)
    requires 0 <= cfg.maxRetries && Inv(cfg, s) && Accounted(cfg, s.mem) && k <= |s.log|
    requires EffectsFrom(DurableOf(s.mem), Pending(s.log, s.done, k)) == Some(d)
    ensures CountedId(cfg, d, id)
  {
    hide EffectsFrom, Pending, PendingEnqueue;
    MembersOf(s.mem);
    if s.holder.Some? {
      HolderPlace(cfg, s);
      HolderCount(cfg, s);
    }
    assert AccountedId(cfg, s.mem, id);
    hide Inv, DurableOf;
    TaskComesBack(cfg, s, k, d, id);
  }

  /** The whole log of a state that agrees is within bounds. */
  lemma CountedLog(cfg: Config, s: Sys)
    requires 0 <= cfg.maxRetries && Inv(cfg, s) && Agrees(s) && Accounted(cfg, s.mem)
    ensures Effects(s.log).Some? && Counted(cfg, Effects(s.log).value)
  {
    ReplyBound(cfg, s);
    hide Inv, EffectsFrom, DurableOf, Effects, Accounted;
    assert AgreesAt(s, |s.log|) && s.log[..|s.log|] == s.log;
    forall id
      ensures CountedId(cfg, Effects(s.log).value, id)
    {
      CountedEntry(cfg, s, |s.log|, Effects(s.log).value, id);
    }
  }

  lemma LogCountedGrows(cfg: Config, log: seq<Record>, log': seq<Record>)
    requires LogCounted(cfg, log) && |log| <= |log'| <= |log| + 1 && log'[..|log|] == log
    requires Effects(log').Some? && Counted(cfg, Effects(log').value)
    ensures LogCounted(cfg, log')
  {
    hide Effects, Counted;
    forall k | 0 <= k <= |log'| && Effects(log'[..k]).Some?
      ensures Counted(cfg, Effects(log'[..k]).value)
    {
      if k <= |log| {
        assert log'[..k] == log[..k];
      } else {
        assert log'[..k] == log';
      }
    }
  }

  lemma RecoveredIsCounted(cfg: Config, log: seq<Record>, clock: seq<Time>)
    requires |log| == |clock| && DistinctEnqueues(log) && NoDequeues(log) && Recover(log, clock).Some?
    requires LogCounted(cfg, log)
    ensures Accounted(cfg, Recover(log, clock).value)
  {
    RecoveryRedelivers(log, clock, LatestOf(clock));
    var m := Recover(log, clock).value;
    assert Sound(m);
    hide Recover, Effects, DurableOf, Counted, Accounted, Sound, WellFormed;
    assert log[..|log|] == log;
    CountedMemory(cfg, m);
  }

  lemma AccountedRestart(cfg: Config, s: Sys, e: Event)
    requires Inv(cfg, s) && LogCounted(cfg, s.log) && Enabled(cfg, s, e) && e.CrashRestart?
    ensures Accounted(cfg, Next(cfg, s, e).mem) && LogCounted(cfg, Next(cfg, s, e).log)
  {
    PrefixFacts(s.log, e.k);
    hide Inv, EncodeRecord, Frames, EncodeAll, Recover, Effects, Counted, Accounted;
    var log := s.log[..e.k];
    assert forall k :: 0 <= k <= e.k ==> log[..k] == s.log[..k];
    RecoveredIsCounted(cfg, log, e.clock);
  }

  /** The count a waiting Dead record carries, and the room a waiting Retry record has left. */
  lemma HolderCount(cfg: Config, s: Sys)
    requires 0 <= cfg.maxRetries && Inv(cfg, s) && Accounted(cfg, s.mem) && s.holder.Some?
    ensures var h := s.holder.value;
            && h.op.id in s.mem.tasks
            && (h.record.Retry? ==> s.mem.tasks[h.op.id].retries < cfg.maxRetries)
            && (h.record.Dead? ==> h.record.retries == cfg.maxRetries + 1)
  {
    hide LogInv, IdInv, CallInv, PendingInv;
    assert AccountedId(cfg, s.mem, s.holder.value.op.id);
  }

  /** Retry counts stay within bounds in every in-order run, even through restarts that lose unsynced records. */
  lemma {:induction false} RetriesAccounted(cfg: Config, s: Sys, es: seq<Event>)
    requires 0 <= cfg.maxRetries && Inv(cfg, s) && Agrees(s) && Accounted(cfg, s.mem) && LogCounted(cfg, s.log)
    requires RunOf(cfg, s, es, InOrder)
    ensures Accounted(cfg, Final(cfg, s, es, InOrder).mem) && LogCounted(cfg, Final(cfg, s, es, InOrder).log)
    decreases |es|
  {
    if es != [] {
      hide Enabled, Next, Inv, Agrees, Accounted, LogCounted, Effects, Counted;
      var e := es[0];
      EventKeepsInv(cfg, s, e);
      EventKeepsAgreement(cfg, s, e);
      if e.CrashRestart? {
        AccountedRestart(cfg, s, e);
      } else {
        AccountedStep(cfg, s, e);
        CountedLog(cfg, Next(cfg, s, e));
        LogStays(cfg, s, e);
        LogCountedGrows(cfg, s.log, Next(cfg, s, e).log);
      }
      RetriesAccounted(cfg, Next(cfg, s, e), es[1..]);
    }
  }

  /** And in every crash-free run, in order or not. */
  lemma {:induction false} CrashFreeAccounted(cfg: Config, s: Sys, es: seq<Event>)
    requires 0 <= cfg.maxRetries && Inv(cfg, s) && Accounted(cfg, s.mem) && RunOf(cfg, s, es, NoCrash)
    ensures Accounted(cfg, Final(cfg, s, es, NoCrash).mem)
    decreases |es|
  {
    if es != [] {
      hide Enabled, Next, Inv, Accounted;
      EventKeepsInv(cfg, s, es[0]);
      AccountedStep(cfg, s, es[0]);
      CrashFreeAccounted(cfg, Next(cfg, s, es[0]), es[1..]);
    }
  }

  /** With maxRetries below 2^32 - 1 and the clock in range, no logged operation outgrows its record's fields. */
  lemma OperationsAreEncodable(cfg: Config, m: Mem, op: Op, now: Time)
    requires 0 <= cfg.maxRetries && cfg.maxRetries + 1 < TWO_32 && IsInt64(now) && Accounted(cfg, m) && Found(m, op)
    ensures Encodable(OpRecord(m, op, now, cfg.maxRetries))
  {
    hide PutUint32, PutInt64;
    assert AccountedId(cfg, m, op.id);
  }
}
