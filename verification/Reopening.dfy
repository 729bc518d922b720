/** What reopening without a sync costs: a second crash may take back records that a start has already answered from. */
module Reopening {
  import opened Codec
  import opened Framing
  import opened LiveQueue
  import opened Replay
  import opened Recovery
  import opened GroupCommit
  import opened Machine
  import opened Agreement
  import opened KeyOrder
  import opened KeyRace
  import opened Conservation
  import opened Dedup

  /** Clock readings for replaying n records. */
  function Midnights(n: nat): (clock: seq<Time>)
    ensures |clock| == n
  {
    seq(n, _ => 0)
  }

  /** A recovered memory binds the keys its log binds, and holds tasks that the log enqueues and has kept. */
  ghost predicate HoldsWhatLogHolds(m: Mem, log: seq<Record>, key: Key)
    requires Effects(log).Some?
  {
    var d := Effects(log).value;
    && (key in m.keys <==> key in d.keys) && (key in m.keys ==> m.keys[key] == d.keys[key])
    && (forall id :: id in m.index <==> id in d.index)
    && (forall id :: id in m.index || id in m.dlq ==> Enqueued(log, id))
  }

  lemma RecoveredKeys(log: seq<Record>, clock: seq<Time>, key: Key)
    requires |log| == |clock| && DistinctEnqueues(log) && NoDequeues(log) && Effects(log).Some? && key != []
    ensures Recover(log, clock).Some? && HoldsWhatLogHolds(Recover(log, clock).value, log, key)
  {
    RecoveryRedelivers(log, clock, LatestOf(clock));
    var m := Recover(log, clock).value;
    MembersOf(m);
    assert forall id :: id in m.index || id in m.dlq ==> id in m.tasks;
    hide Recover, Effects, WellFormed, Enqueued;
    assert key in m.keys ==> RealKeys(m.keys)[key] == m.keys[key];
    assert forall id :: id in m.index <==> id in DurableOf(m).index.Keys;
  }

  /** What has ever been committed, acked and purged. */
  ghost predicate SameBooks(s: Sys, s': Sys) {
    s'.committed == s.committed && s'.acked == s.acked && s'.purged == s.purged
  }

  /** One more record at the end of the file, none of it synced, and nobody answered. */
  ghost predicate OneUnsynced(cfg: Config, s: Sys, s': Sys, r: Record) {
    && s'.log == s.log + [r] && s'.holder.None?
    && s'.wal.file == Frames(cfg.crc, s'.wal.requests)
    && s'.wal.synced == s.wal.synced && s'.wal.answered == s.wal.answered
  }

  lemma SendOne(cfg: Config, s: Sys, key: Key, a: Id, c: nat) returns (es: seq<Event>)
    requires Quiet(s) && !Bound(s.mem, key) && c !in s.calls && a !in s.used
    requires Encodable(EnqueueRecord(a, NewTask(key, [], 0)))
    ensures RunOf(cfg, s, es, InOrder)
    ensures var s', r := Final(cfg, s, es, InOrder), EnqueueRecord(a, NewTask(key, [], 0));
            && s'.log == s.log + [r] && s'.wal == Submit(s.wal, EncodeRecord(r)) && s'.holder.None?
            && s'.used == s.used + {a} && s'.calls.Keys == s.calls.Keys + {c} && s'.calls[c].Logged? && SameBooks(s, s')
  {
    hide EncodeRecord, Encodable;
    RunOfTwo(cfg, s, Check(c, key, [], a, 0), Send(c), InOrder);
    es := [Check(c, key, [], a, 0), Send(c)];
  }

  lemma WriteOne(cfg: Config, s: Sys) returns (es: seq<Event>)
    requires !s.wal.failed && s.wal.taken == s.wal.replied == s.wal.written == |s.wal.requests| - 1
    ensures RunOf(cfg, s, es, InOrder)
    ensures var s' := Final(cfg, s, es, InOrder);
            && SameBut(s, s') && s'.wal.written == |s'.wal.requests|
            && s'.wal.synced == s.wal.synced && s'.wal.answered == s.wal.answered
  {
    hide EncodeFrame;
    RunOfTwo(cfg, s, Disk(Take(|s.wal.requests|)), Disk(Write), InOrder);
    es := [Disk(Take(|s.wal.requests|)), Disk(Write)];
  }

  lemma WriteUnsynced(cfg: Config, s: Sys, key: Key, a: Id, c: nat) returns (es: seq<Event>)
    requires Inv(cfg, s) && Quiet(s) && !Bound(s.mem, key) && c !in s.calls && a !in s.used
    requires Encodable(EnqueueRecord(a, NewTask(key, [], 0)))
    ensures RunOf(cfg, s, es, InOrder)
    ensures var s' := Final(cfg, s, es, InOrder);
            && Inv(cfg, s') && OneUnsynced(cfg, s, s', EnqueueRecord(a, NewTask(key, [], 0)))
            && s'.used == s.used + {a} && s'.calls.Keys == s.calls.Keys + {c} && s'.calls[c].Logged? && SameBooks(s, s')
  {
    hide Enabled, Inv, EncodeRecord, Encodable, Frames, RunOf;
    var es1 := SendOne(cfg, s, key, a, c);
    var s1 := Final(cfg, s, es1, InOrder);
    var es2 := WriteOne(cfg, s1);
    RunConcat(cfg, s, es1, es2, InOrder);
    es := es1 + es2;
    RunKeepsInv(cfg, s, es, InOrder);
    AllWritten(cfg, Final(cfg, s, es, InOrder));
  }

  lemma AllWritten(cfg: Config, s: Sys)
    requires Inv(cfg, s) && !s.wal.failed && s.wal.written == |s.wal.requests|
    ensures s.wal.file == Frames(cfg.crc, s.wal.requests)
  {
    hide Frames, EncodeRecord, Sound, IdInv, CallInv, HolderInv, PendingInv;
    assert s.wal.requests[..|s.wal.requests|] == s.wal.requests;
  }

  lemma LogFacts(cfg: Config, s: Sys)
    requires Inv(cfg, s)
    ensures |s.wal.requests| == |s.log| && s.wal.synced <= |s.wal.file|
    ensures DistinctEnqueues(s.log) && NoDequeues(s.log)
  {
    hide Frames, EncodeRecord, Sound, IdInv, CallInv, HolderInv, PendingInv;
  }

  /** A restart on the first k records, syncing nothing. */
  function RestartAt(s: Sys, k: nat): Event {
    CrashRestart(k, s.wal.synced, Midnights(k))
  }

  /** It is possible where the frames and the log allow it, and memory then binds the keys that those records bind. */
  lemma RestartBinds(cfg: Config, s: Sys, k: nat, key: Key)
    requires Inv(cfg, s) && k <= |s.log| && CutAfter(cfg, s.wal, k) && Effects(s.log[..k]).Some? && key != []
    ensures Enabled(cfg, s, RestartAt(s, k)) && InOrder(cfg, s, RestartAt(s, k))
    ensures var s' := Next(cfg, s, RestartAt(s, k));
            && s'.log == s.log[..k] && s'.wal == Reopen(cfg.crc, s.wal, k, s.wal.synced) && s'.used == s.used
            && s'.holder.None? && (forall c :: c in s'.calls <==> c in s.calls && s.calls[c].Returned?)
            && (forall c :: c in s'.calls ==> s'.calls[c] == s.calls[c])
            && HoldsWhatLogHolds(s'.mem, s.log[..k], key)
            && s'.committed == s.committed + s'.mem.index + s'.mem.dlq
            && (s.holder.None? ==> s'.acked == s.acked && s'.purged == s.purged)
  {
    hide Inv, EncodeRecord, Frames, Recover, Effects;
    LogFacts(cfg, s);
    PrefixFacts(s.log, k);
    RecoveredKeys(s.log[..k], Midnights(k), key);
  }

  /** The process dies and starts again on the same file; the key's Enqueue is repeated and answered from memory. */
  lemma RestartAndRepeat(cfg: Config, s0: Sys, s: Sys, key: Key, a: Id, b: Id, c': nat) returns (es: seq<Event>)
    requires Inv(cfg, s) && OneUnsynced(cfg, s0, s, EnqueueRecord(a, NewTask(key, [], 0)))
    requires Effects(s0.log).Some? && key != []
    requires forall i :: 0 <= i < |s0.log| && s0.log[i].Enqueue? ==> s0.log[i].key != key
    requires c' !in s.calls && b !in s.used && Encodable(EnqueueRecord(b, NewTask(key, [], 0)))
    ensures RunOf(cfg, s, es, InOrder)
    ensures var s' := Final(cfg, s, es, InOrder);
            && s'.log == s.log && s'.wal == Reopen(cfg.crc, s.wal, |s.log|, s.wal.synced) && s'.holder.None?
            && c' in s'.calls && s'.calls[c'] == Returned(key, a)
            && a in s'.committed && s'.acked == s.acked && s'.purged == s.purged
  {
    var n := |s.log|;
    NoBindingYet(s0.log, key);
    EffectsSnoc(EMPTY_DURABLE, s0.log, s.log[n - 1]);
    hide Inv, EncodeRecord, Encodable, Frames, Effects, EffectsFrom;
    LogFacts(cfg, s);
    assert s.log[..n] == s.log && s.wal.requests[..n] == s.wal.requests;
    RestartBinds(cfg, s, n, key);
    var s1 := Next(cfg, s, RestartAt(s, n));
    RepeatAnswers(cfg, s1, key, b, c');
    hide Enabled, Next;
    RunOfTwo(cfg, s, RestartAt(s, n), Check(c', key, [], b, 0), InOrder);
    es := [RestartAt(s, n), Check(c', key, [], b, 0)];
  }

  /** The fast path: a bound key is answered with its ID, and nothing else happens. */
  lemma RepeatAnswers(cfg: Config, s: Sys, key: Key, b: Id, c: nat)
    requires s.holder.None? && Bound(s.mem, key) && c !in s.calls && b !in s.used
    requires Encodable(EnqueueRecord(b, NewTask(key, [], 0)))
    ensures var e := Check(c, key, [], b, 0);
            && Enabled(cfg, s, e) && InOrder(cfg, s, e)
            && Next(cfg, s, e) == s.(calls := s.calls[c := Returned(key, s.mem.keys[key])])
  {
    hide Encodable;
  }

  /** Then the machine loses power, and with it the bytes that were never synced. */
  lemma PowerLoss(cfg: Config, s: Sys, s0: Sys, key: Key)
    requires Inv(cfg, s) && |s.log| == |s0.log| + 1 && s.log[..|s0.log|] == s0.log && key != []
    requires s.wal.synced <= |Frames(cfg.crc, s.wal.requests[..|s0.log|])|
    requires s.wal.file == Frames(cfg.crc, s.wal.requests) && |s.wal.requests| == |s.log|
    requires Effects(s0.log).Some?
    requires forall i :: 0 <= i < |s0.log| && s0.log[i].Enqueue? ==> s0.log[i].key != key
    ensures var e := RestartAt(s, |s0.log|);
            && Enabled(cfg, s, e) && InOrder(cfg, s, e) && key !in Next(cfg, s, e).mem.keys
            && s.committed <= Next(cfg, s, e).committed
            && (s.holder.None? ==> Next(cfg, s, e).acked == s.acked && Next(cfg, s, e).purged == s.purged)
            && (forall id :: id in Next(cfg, s, e).mem.index || id in Next(cfg, s, e).mem.dlq ==> Enqueued(s0.log, id))
            && (forall c :: c in s.calls && s.calls[c].Returned? ==>
                  c in Next(cfg, s, e).calls && Next(cfg, s, e).calls[c] == s.calls[c])
  {
    hide Inv, EncodeRecord, Frames, Effects;
    FramesPrefix(cfg.crc, s.wal.requests, |s0.log|);
    NoBindingYet(s0.log, key);
    RestartBinds(cfg, s, |s0.log|, key);
  }

  /**
    * An Enqueue that returned success can be forgotten. From every quiet state, for any key not used so far: a record
    * is written and not synced, the process restarts on the file, the key's Enqueue is repeated and returns the ID it
    * read back, without appending anything; then a power loss drops the record. The run is in order, but not lasting:
    * the key's answer is forgotten, and a task that was committed is in no place any more.
    */
  lemma UnsyncedStartForgets(cfg: Config, s: Sys, key: Key, a: Id, b: Id, c: nat, c': nat) returns (es: seq<Event>)
    requires Inv(cfg, s) && Agrees(s) && ConservationInv(s) && Quiet(s) && !Bound(s.mem, key) && key != []
    requires forall i :: 0 <= i < |s.log| && s.log[i].Enqueue? ==> s.log[i].key != key
    requires c !in s.calls && c' !in s.calls && c != c' && a !in s.used && b !in s.used && a != b
    requires Encodable(EnqueueRecord(a, NewTask(key, [], 0))) && Encodable(EnqueueRecord(b, NewTask(key, [], 0)))
    ensures RunOf(cfg, s, es, InOrder)
    ensures var s' := Final(cfg, s, es, InOrder);
            && c' in s'.calls && s'.calls[c'] == Returned(key, a) && key !in s'.mem.keys && !DedupInv(s')
            && a in s'.committed && !Conserved(s')
  {
    LogFacts(cfg, s);
    UnusedIsNowhere(cfg, s, a);
    assert Effects(s.log).Some? by { assert AgreesAt(s, |s.log|) && s.log[..|s.log|] == s.log; }
    hide Enabled, Inv, Agrees, EncodeRecord, Encodable, Frames, RunOf, Effects, InOrder, Next;
    hide Enqueued, ConservationInv;
    var es1 := ReadBackUnsynced(cfg, s, key, a, b, c, c');
    var s1 := Final(cfg, s, es1, InOrder);
    PowerLoss(cfg, s1, s, key);
    var e := RestartAt(s1, |s.log|);
    RunOfOne(cfg, s1, e, InOrder);
    RunConcat(cfg, s, es1, [e], InOrder);
    es := es1 + [e];
    assert !ConservedId(Next(cfg, s1, e), a);
  }

  /** An ID never drawn is in no book and in no record. */
  lemma UnusedIsNowhere(cfg: Config, s: Sys, a: Id)
    requires Inv(cfg, s) && ConservationInv(s) && a !in s.used
    ensures a !in s.acked && a !in s.purged && !Enqueued(s.log, a)
  {
    hide Sound, LogInv, CallInv, HolderInv, PendingInv;
    assert ConservedId(s, a);
  }

  /** The run up to the power loss: the record is in the file and in memory, and not on disk. */
  lemma ReadBackUnsynced(cfg: Config, s: Sys, key: Key, a: Id, b: Id, c: nat, c': nat) returns (es: seq<Event>)
    requires Inv(cfg, s) && Effects(s.log).Some? && Quiet(s) && !Bound(s.mem, key) && key != []
    requires forall i :: 0 <= i < |s.log| && s.log[i].Enqueue? ==> s.log[i].key != key
    requires c !in s.calls && c' !in s.calls && c != c' && a !in s.used && b !in s.used && a != b
    requires Encodable(EnqueueRecord(a, NewTask(key, [], 0))) && Encodable(EnqueueRecord(b, NewTask(key, [], 0)))
    ensures RunOf(cfg, s, es, InOrder)
    ensures var s' := Final(cfg, s, es, InOrder);
            && Inv(cfg, s') && s'.holder.None? && c' in s'.calls && s'.calls[c'] == Returned(key, a)
            && a in s'.committed && s'.acked == s.acked && s'.purged == s.purged
            && |s'.log| == |s.log| + 1 && s'.log[..|s.log|] == s.log && |s'.wal.requests| == |s'.log|
            && s'.wal.synced <= |Frames(cfg.crc, s'.wal.requests[..|s.log|])|
            && s'.wal.file == Frames(cfg.crc, s'.wal.requests)
  {
    hide Enabled, Inv, EncodeRecord, Encodable, Frames, RunOf, Effects, InOrder, Next;
    LogFacts(cfg, s);
    var es1 := WriteUnsynced(cfg, s, key, a, c);
    var s1 := Final(cfg, s, es1, InOrder);
    var es2 := RestartAndRepeat(cfg, s, s1, key, a, b, c');
    var s2 := Final(cfg, s1, es2, InOrder);
    RunConcat(cfg, s, es1, es2, InOrder);
    es := es1 + es2;
    RunKeepsInv(cfg, s, es, InOrder);
    SamePrefix(cfg, s, s2);
  }

  lemma SamePrefix(cfg: Config, s: Sys, s': Sys)
    requires Inv(cfg, s) && Inv(cfg, s') && Quiet(s) && |s.log| <= |s'.log| && s'.log[..|s.log|] == s.log
    ensures |s'.wal.requests| == |s'.log| && Frames(cfg.crc, s'.wal.requests[..|s.log|]) == s.wal.file
  {
    FileIsLog(cfg, s);
    hide Frames, EncodeRecord, Sound, IdInv, CallInv, HolderInv, PendingInv;
    assert s'.wal.requests[..|s.log|] == EncodeAll(s.log);
  }
}
