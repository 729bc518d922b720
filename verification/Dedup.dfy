/** Enqueue's two critical sections act as one: a key is bound once, to one task, and every caller gets that task. */
module Dedup {
  import opened Codec
  import opened Framing
  import opened LiveQueue
  import opened Replay
  import opened Recovery
  import opened Machine
  import opened Agreement
  import opened CrashSafety
  import opened KeyOrder
  import ReadyHeap

  /** A task with a key is the task its key is bound to, so no key ever has two tasks. */
  ghost predicate OneTaskPerKey(m: Mem) {
    forall id :: id in m.tasks && m.tasks[id].key != [] ==> m.tasks[id].key in m.keys && m.keys[m.tasks[id].key] == id
  }

  /** Every Enqueue that returned was given the task its key is bound to. */
  ghost predicate ReturnsBound(s: Sys) {
    forall c :: c in s.calls && s.calls[c].Returned? && s.calls[c].key != [] ==>
      s.calls[c].key in s.mem.keys && s.mem.keys[s.calls[c].key] == s.calls[c].id
  }

  ghost predicate DedupInv(s: Sys) {
    OneTaskPerKey(s.mem) && ReturnsBound(s)
  }

  lemma OneTaskStep(cfg: Config, s: Sys, e: Event)
    requires Inv(cfg, s) && OneTaskPerKey(s.mem) && Enabled(cfg, s, e) && !e.CrashRestart?
    ensures OneTaskPerKey(Next(cfg, s, e).mem)
  {
    hide EncodeRecord, ReadyHeap.Push, ReadyHeap.Pop, Frames, EncodeFrame, LogInv, IdInv, Sound, PendingInv, HolderInv;
  }

  lemma ReturnsStep(cfg: Config, s: Sys, e: Event)
    requires ReturnsBound(s) && Enabled(cfg, s, e) && !e.CrashRestart?
    ensures ReturnsBound(Next(cfg, s, e))
  {
    hide EncodeRecord, ReadyHeap.Push, ReadyHeap.Pop, Frames, EncodeFrame;
    var s' := Next(cfg, s, e);
    forall c | c in s'.calls && s'.calls[c].Returned? && s'.calls[c].key != []
      ensures s'.calls[c].key in s'.mem.keys && s'.mem.keys[s'.calls[c].key] == s'.calls[c].id
    {
      if c in s.calls && s.calls[c].Returned? && s'.calls[c] == s.calls[c] {
        BindingsStay(cfg, s, e, s.calls[c].key);
      }
    }
  }

  lemma ApplyKeepsOneTask(m: Mem, r: Record, now: Time)
    requires OneTaskPerKey(m) && ApplyRecord(m, r, now).Some? && (r.Enqueue? ==> r.id !in m.tasks)
    ensures OneTaskPerKey(ApplyRecord(m, r, now).value)
  {
    hide Drop;
  }

  lemma {:induction false} ReplayKeepsOneTask(log: seq<Record>, clock: seq<Time>)
    requires |log| == |clock| && DistinctEnqueues(log) && NoDequeues(log) && ReplayLog(log, clock).Some?
    ensures OneTaskPerKey(ReplayLog(log, clock).value)
  {
    if log != [] {
      var n := |log| - 1;
      assert forall i :: 0 <= i < n ==> log[..n][i] in log;
      ReplayKeepsOneTask(log[..n], clock[..n]);
      ReplayRebuilds(log[..n], clock[..n]);
      LastIsFresh(log);
      ApplyKeepsOneTask(ReplayLog(log[..n], clock[..n]).value, log[n], clock[n]);
    }
  }

  lemma KeysOutliveRestart(cfg: Config, s: Sys, e: Event, key: Key)
    requires Inv(cfg, s) && Agrees(s) && Enabled(cfg, s, e) && e.CrashRestart? && s.wal.replied <= e.k
    requires key != [] && key in s.mem.keys
    ensures key in Next(cfg, s, e).mem.keys && Next(cfg, s, e).mem.keys[key] == s.mem.keys[key]
  {
    RestartRecovers(cfg, s, e);
    hide Inv, Enabled, Next, EffectsFrom, Pending, InfosOf;
    var m := Next(cfg, s, e).mem;
    KeysComeBack(s, e.k, DurableOf(m));
    assert key in RealKeys(m.keys);
  }

  lemma OneTaskRestart(cfg: Config, s: Sys, e: Event)
    requires Inv(cfg, s) && Enabled(cfg, s, e) && e.CrashRestart?
    ensures OneTaskPerKey(Next(cfg, s, e).mem)
  {
    hide Inv, Enabled, Next, ReplayLog, ReadyHeap.Init, EncodeAll;
    RestartIs(cfg, s, e);
    LogIsProduced(cfg, s);
    PrefixFacts(s.log, e.k);
    ReplayKeepsOneTask(s.log[..e.k], e.clock);
  }

  lemma DedupRestart(cfg: Config, s: Sys, e: Event)
    requires Inv(cfg, s) && Agrees(s) && DedupInv(s) && Enabled(cfg, s, e) && e.CrashRestart? && s.wal.replied <= e.k
    ensures DedupInv(Next(cfg, s, e))
  {
    hide Inv, Agrees, Enabled, Next, Recover, OneTaskPerKey;
    OneTaskRestart(cfg, s, e);
    ReturnedCallsStay(cfg, s, e);
    var s' := Next(cfg, s, e);
    forall c | c in s'.calls && s'.calls[c].Returned? && s'.calls[c].key != []
      ensures s'.calls[c].key in s'.mem.keys && s'.mem.keys[s'.calls[c].key] == s'.calls[c].id
    {
      KeysOutliveRestart(cfg, s, e, s.calls[c].key);
    }
  }

  lemma ReturnedCallsStay(cfg: Config, s: Sys, e: Event)
    requires Enabled(cfg, s, e) && e.CrashRestart?
    ensures forall c :: c in Next(cfg, s, e).calls ==> c in s.calls && Next(cfg, s, e).calls[c] == s.calls[c]
  {
    hide Recover, Frames;
  }

  /** In every crash-free interleaving of check, append and commit steps, enqueues are deduplicated as if atomic. */
  lemma {:induction false} EnqueueIsAtomic(cfg: Config, s: Sys, es: seq<Event>, key: Key)
    requires Inv(cfg, s) && DedupInv(s) && RunOf(cfg, s, es, NoCrash)
    ensures DedupInv(Final(cfg, s, es, NoCrash))
    ensures key != [] && key in s.mem.keys ==>
              key in Final(cfg, s, es, NoCrash).mem.keys && Final(cfg, s, es, NoCrash).mem.keys[key] == s.mem.keys[key]
    decreases |es|
  {
    if es != [] {
      EventKeepsInv(cfg, s, es[0]);
      OneTaskStep(cfg, s, es[0]);
      ReturnsStep(cfg, s, es[0]);
      if key != [] && key in s.mem.keys {
        BindingsStay(cfg, s, es[0], key);
      }
      EnqueueIsAtomic(cfg, Next(cfg, s, es[0]), es[1..], key);
    }
  }

  /** And across restarts, for lasting runs: a key bound once stays bound to the same task for good. */
  lemma {:induction false} BindingsOutliveRestarts(cfg: Config, s: Sys, es: seq<Event>, key: Key)
    requires Inv(cfg, s) && Agrees(s) && DedupInv(s) && RunOf(cfg, s, es, Lasting)
    ensures DedupInv(Final(cfg, s, es, Lasting))
    ensures key != [] && key in s.mem.keys ==>
              key in Final(cfg, s, es, Lasting).mem.keys && Final(cfg, s, es, Lasting).mem.keys[key] == s.mem.keys[key]
    decreases |es|
  {
    if es != [] {
      var e := es[0];
      EventKeepsInv(cfg, s, e);
      EventKeepsAgreement(cfg, s, e);
      if e.CrashRestart? {
        DedupRestart(cfg, s, e);
      } else {
        OneTaskStep(cfg, s, e);
        ReturnsStep(cfg, s, e);
      }
      if key != [] && key in s.mem.keys {
        if e.CrashRestart? {
          KeysOutliveRestart(cfg, s, e, key);
        } else {
          BindingsStay(cfg, s, e, key);
        }
      }
      BindingsOutliveRestarts(cfg, Next(cfg, s, e), es[1..], key);
    }
  }

  /** So any two calls that return for one key return one ID. */
  lemma SameKeySameId(s: Sys, c: nat, c': nat)
    requires DedupInv(s) && c in s.calls && c' in s.calls && s.calls[c].Returned? && s.calls[c'].Returned?
    requires s.calls[c].key == s.calls[c'].key != []
    ensures s.calls[c].id == s.calls[c'].id
  {
  }
}
