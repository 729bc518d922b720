/** What an overtaken key costs: memory goes on with a task the log does not create, and the next start panics. */
module KeyRace {
  import opened ByteStrings
  import opened Codec
  import opened Framing
  import opened Tasks
  import opened LiveQueue
  import opened Replay
  import opened Recovery
  import opened GroupCommit
  import opened Machine
  import opened CrashSafety
  import opened Durability
  import opened KeyOrder
  import ReadyHeap

  /** Every enqueue of id comes after another enqueue with the same key. */
  ghost predicate Shadowed(log: seq<Record>, id: Id) {
    forall i :: 0 <= i < |log| && log[i].Enqueue? && log[i].id == id ==>
      log[i].key != [] && exists j :: 0 <= j < i && log[j].Enqueue? && log[j].key == log[i].key
  }

  lemma ShadowedPrefix(log: seq<Record>, id: Id, n: nat)
    requires Shadowed(log, id) && n <= |log|
    ensures Shadowed(log[..n], id)
  {
    forall i | 0 <= i < n && log[..n][i].Enqueue? && log[..n][i].id == id
      ensures log[..n][i].key != []
      ensures exists j :: 0 <= j < i && log[..n][j].Enqueue? && log[..n][j].key == log[..n][i].key
    {
      var j :| 0 <= j < i && log[j].Enqueue? && log[j].key == log[i].key;
      assert log[..n][j] == log[j];
    }
  }

  /** Replay never creates a shadowed task. */
  lemma {:induction false} ShadowedIsNeverCreated(log: seq<Record>, id: Id)
    requires Shadowed(log, id) && Effects(log).Some?
    ensures id !in Effects(log).value.index && id !in Effects(log).value.dlq
  {
    if log != [] {
      var n := |log| - 1;
      ShadowedPrefix(log, id, n);
      ShadowedIsNeverCreated(log[..n], id);
      if log[n].Enqueue? && log[n].id == id {
        var j :| 0 <= j < n && log[j].Enqueue? && log[j].key == log[n].key;
        var f := FindFirst(log[..n], log[n].key, j);
        ReplayKeepsFirst(log[..n], log[n].key, f);
      }
    }
  }

  /** A record that replay can only apply to a task it has. */
  predicate Dereferences(r: Record, id: Id) {
    r.id == id && (r.Retry? || r.Dead? || r.Requeue?)
  }

  lemma ShadowedCannotReplay(log: seq<Record>, id: Id, q: nat)
    requires Shadowed(log, id) && q < |log| && Dereferences(log[q], id)
    ensures Effects(log).None?
  {
    ShadowedPrefix(log, id, q);
    assert log[..q + 1][..q] == log[..q];
    if Effects(log[..q]).Some? {
      ShadowedIsNeverCreated(log[..q], id);
    }
    if Effects(log).Some? {
      PrefixReplays(log, q + 1);
    }
  }

  lemma SplitIsShadowed(cfg: Config, s: Sys, key: Key, f: nat, p: nat)
    requires Inv(cfg, s) && Split(s, key, f, p)
    ensures Shadowed(s.log, s.mem.keys[key])
  {
    DistinctIn(cfg, s);
    hide Inv;
    forall i | 0 <= i < |s.log| && s.log[i].Enqueue? && s.log[i].id == s.mem.keys[key]
      ensures s.log[i].key != [] && exists j :: 0 <= j < i && s.log[j].Enqueue? && s.log[j].key == s.log[i].key
    {
      assert i == p;
      assert s.log[f].Enqueue? && s.log[f].key == s.log[i].key;
    }
  }

  /**
    * Once a key is split, the first Retry, death or revival of the task memory bound to it makes the log
    * unreadable: whatever follows, opening the file the log was written to dereferences a missing task.
    */
  lemma SplitTaskBreaksReplay(cfg: Config, s: Sys, key: Key, f: nat, p: nat, q: nat, clock: seq<Time>)
    requires Inv(cfg, s) && Split(s, key, f, p)
    requires q < |s.log| && Dereferences(s.log[q], s.mem.keys[key])
    requires var file := Frames(cfg.crc, EncodeAll(s.log)); |clock| == |Parse(cfg.crc, file)|
    ensures NewQueue(cfg.crc, Frames(cfg.crc, EncodeAll(s.log)), clock) == Panicked
  {
    SplitIsShadowed(cfg, s, key, f, p);
    ShadowedCannotReplay(s.log, s.mem.keys[key], q);
    hide Frames, Parse, EncodeRecord, Sound, IdInv, PendingInv, CallInv, HolderInv, Shadowed;
    EncodedIsFramable(s.log);
    ParseInvertsFrames(cfg.crc, EncodeAll(s.log));
    ReplayOfEncoded(s.log, clock);
    ReplayRebuilds(s.log, clock);
  }

  /**
    * Carrying on after a refused Enqueue whose frame stayed. The caller repeats the call: memory binds the key to the
    * second task, replay to the first, and the next Retry, death or revival of the task in memory cannot be replayed.
    */
  lemma RefusedEnqueueSplits(
    crc: Checksum, file: Bytes, log: seq<Record>, m: Mem, a: Id, ta: Task, b: Id, tb: Task, r: Record)
    requires RecoverableAs(crc, file, log, m) && a !in m.tasks && b !in m.tasks && a != b
    requires ta.key == tb.key != [] && !Bound(m, ta.key)
    ensures var ra, rb, m' := EnqueueRecord(a, ta), EnqueueRecord(b, tb), CommitEnqueue(m, b, tb);
            && file + EncodeFrame(crc, EncodeRecord(ra)) + EncodeFrame(crc, EncodeRecord(rb))
               == Frames(crc, EncodeAll(log + [ra] + [rb]))
            && m'.keys[ta.key] == b && b in m'.index
            && Effects(log + [ra] + [rb]).Some?
            && (Dereferences(r, b) ==> Effects(log + [ra] + [rb] + [r]).None?)
    ensures var d := Effects(log + [EnqueueRecord(a, ta)] + [EnqueueRecord(b, tb)]).value;
            ta.key in d.keys && d.keys[ta.key] == a && a in d.index && b !in d.index && b !in d.dlq
  {
    var ra, rb := EnqueueRecord(a, ta), EnqueueRecord(b, tb);
    SecondIsDropped(log, m, a, ta, b, tb, r);
    hide Frames, EncodeFrame, EncodeRecord, EncodeAll, Effects, ReadyHeap.Push;
    AppendKeepsFile(crc, file, log, ra);
    AppendKeepsFile(crc, file + EncodeFrame(crc, EncodeRecord(ra)), log + [ra], rb);
  }

  /** Of two enqueues with one new key, replay drops the second, and cannot apply a later operation on it. */
  lemma SecondIsDropped(log: seq<Record>, m: Mem, a: Id, ta: Task, b: Id, tb: Task, r: Record)
    requires Sound(m) && Effects(log) == Some(DurableOf(m)) && a !in m.tasks && b !in m.tasks && a != b
    requires ta.key == tb.key != [] && !Bound(m, ta.key)
    ensures var log' := log + [EnqueueRecord(a, ta)] + [EnqueueRecord(b, tb)];
            && Effects(log').Some?
            && (Dereferences(r, b) ==> Effects(log' + [r]).None?)
            && var d := Effects(log').value;
               ta.key in d.keys && d.keys[ta.key] == a && a in d.index && b !in d.index && b !in d.dlq
  {
    var ra, rb := EnqueueRecord(a, ta), EnqueueRecord(b, tb);
    EffectsSnoc(EMPTY_DURABLE, log, ra);
    EffectsSnoc(EMPTY_DURABLE, log + [ra], rb);
    EffectsSnoc(EMPTY_DURABLE, log + [ra] + [rb], r);
    MembersOf(m);
    hide DurableOf, EffectsFrom;
  }

  // --- the race, step by step ---

  /** Only the writer has moved. */
  ghost predicate SameBut(s: Sys, s': Sys) {
    s'.(wal := s.wal) == s && s'.wal.requests == s.wal.requests && !s'.wal.failed && s'.wal.taken == |s'.wal.requests|
  }

  lemma {:induction false} WriteBatch(cfg: Config, s: Sys) returns (es: seq<Event>)
    requires !s.wal.failed && s.wal.written <= s.wal.taken == |s.wal.requests|
    ensures RunOf(cfg, s, es, NoCrash)
    ensures var s' := Final(cfg, s, es, NoCrash);
            SameBut(s, s') && s'.wal.written == s'.wal.taken && s'.wal.replied == s.wal.replied
    decreases s.wal.taken - s.wal.written
  {
    if s.wal.written == s.wal.taken {
      es := [];
    } else {
      var e := Disk(Write);
      RunOfOne(cfg, s, e, NoCrash);
      var s1 := Next(cfg, s, e);
      assert SameBut(s, s1) && s1.wal.replied == s.wal.replied;
      hide Next, Enabled;
      var rest := WriteBatch(cfg, s1);
      RunConcat(cfg, s, [e], rest, NoCrash);
      es := [e] + rest;
    }
  }

  ghost predicate Idle(w: Writer) {
    !w.failed && w.taken == w.replied == |w.requests|
  }

  /** Everything sent has been written, synced and answered. */
  ghost predicate Served(w: Writer) {
    Idle(w) && w.written == |w.requests| && w.synced == |w.file|
  }

  lemma SyncAndReply(cfg: Config, s: Sys)
    requires !s.wal.failed && s.wal.replied < s.wal.taken == s.wal.written == |s.wal.requests|
    ensures RunOf(cfg, s, [Disk(Sync), Disk(Reply)], NoCrash)
    ensures var s' := Final(cfg, s, [Disk(Sync), Disk(Reply)], NoCrash);
            SameBut(s, s') && Served(s'.wal)
  {
    RunOfTwo(cfg, s, Disk(Sync), Disk(Reply), NoCrash);
  }

  /** An idle writer serves whatever is sent to it next. */
  lemma Serve(cfg: Config, s: Sys) returns (es: seq<Event>)
    requires !s.wal.failed && s.wal.replied == s.wal.taken < |s.wal.requests| && s.wal.written <= |s.wal.requests|
    ensures RunOf(cfg, s, es, NoCrash)
    ensures var s' := Final(cfg, s, es, NoCrash); SameBut(s, s') && Served(s'.wal)
  {
    var take := Disk(Take(|s.wal.requests|));
    RunOfOne(cfg, s, take, NoCrash);
    var s1 := Next(cfg, s, take);
    assert SameBut(s, s1) && s1.wal.replied < s1.wal.taken && s1.wal.written <= s1.wal.taken;
    hide Next, Enabled;
    var writes := WriteBatch(cfg, s1);
    var s2 := Final(cfg, s1, writes, NoCrash);
    RunConcat(cfg, s, [take], writes, NoCrash);
    SyncAndReply(cfg, s2);
    RunConcat(cfg, s, [take] + writes, [Disk(Sync), Disk(Reply)], NoCrash);
    es := [take] + writes + [Disk(Sync), Disk(Reply)];
  }

  ghost predicate Quiet(s: Sys) {
    s.holder.None? && Idle(s.wal) && s.wal.written == |s.wal.requests| == |s.log|
  }

  /** Two callers with one key have passed the check and sent their records; neither has its reply. */
  ghost predicate BothLogged(s: Sys, s': Sys, key: Key, a: Id, b: Id, c: nat, c': nat) {
    var ta, tb := NewTask(key, [], 0), NewTask(key, [], 0);
    && s'.mem == s.mem && s'.holder.None?
    && s'.log == s.log + [EnqueueRecord(a, ta), EnqueueRecord(b, tb)]
    && c in s'.calls && s'.calls[c] == Logged(a, ta, |s.log|)
    && c' in s'.calls && s'.calls[c'] == Logged(b, tb, |s.log| + 1)
  }

  lemma TwoSends(cfg: Config, s: Sys, key: Key, a: Id, b: Id, c: nat, c': nat) returns (es: seq<Event>)
    requires Quiet(s) && !Bound(s.mem, key) && key != []
    requires c !in s.calls && c' !in s.calls && c != c' && a !in s.used && b !in s.used && a != b
    requires Encodable(EnqueueRecord(a, NewTask(key, [], 0))) && Encodable(EnqueueRecord(b, NewTask(key, [], 0)))
    ensures RunOf(cfg, s, es, NoCrash)
    ensures var s' := Final(cfg, s, es, NoCrash);
            && BothLogged(s, s', key, a, b, c, c')
            && s'.wal.(requests := s.wal.requests) == s.wal && |s'.wal.requests| == |s'.log|
  {
    hide EncodeRecord;
    RunOfTwo(cfg, s, Check(c, key, [], a, 0), Check(c', key, [], b, 0), NoCrash);
    var s1 := Next(cfg, Next(cfg, s, Check(c, key, [], a, 0)), Check(c', key, [], b, 0));
    RunOfTwo(cfg, s1, Send(c), Send(c'), NoCrash);
    RunConcat(cfg, s, [Check(c, key, [], a, 0), Check(c', key, [], b, 0)], [Send(c), Send(c')], NoCrash);
    es := [Check(c, key, [], a, 0), Check(c', key, [], b, 0)] + [Send(c), Send(c')];
  }

  /** The later record's caller takes the lock first, and its task is retried at once. */
  lemma OvertakeAndRetry(cfg: Config, s: Sys, key: Key, a: Id, b: Id, c: nat, c': nat, s0: Sys) returns (es: seq<Event>)
    requires BothLogged(s0, s, key, a, b, c, c') && s.wal.replied == |s.log| && !Bound(s.mem, key)
    requires key != [] && a != b && forall i :: 0 <= i < |s0.log| && s0.log[i].Enqueue? ==> s0.log[i].key != key
    ensures RunOf(cfg, s, es, NoCrash)
    ensures var s', n := Final(cfg, s, es, NoCrash), |s0.log|;
            && Split(s', key, n, n + 1) && |s'.log| == n + 3 && Dereferences(s'.log[n + 2], s'.mem.keys[key])
            && s'.wal.(requests := s.wal.requests) == s.wal && |s'.wal.requests| == |s.wal.requests| + 1
            && s'.holder.Some? && s'.holder.value.pos == n + 2 && s'.holder.value.record.id in s'.mem.tasks
            && s'.mem.keys[key] == b && n + 1 in s'.done
            && c in s'.calls && s'.calls[c] == Logged(a, NewTask(key, [], 0), n)
            && c' in s'.calls && s'.calls[c'] == Returned(key, b)
  {
    hide EncodeRecord, ReadyHeap.Push;
    var s1 := Next(cfg, s, Commit(c'));
    RetryFits(s1.mem, b, cfg.maxRetries);
    RunOfTwo(cfg, s, Commit(c'), Begin(RetryOp(b), 0), NoCrash);
    es := [Commit(c'), Begin(RetryOp(b), 0)];
  }

  lemma RetryFits(m: Mem, id: Id, maxRetries: int)
    requires Found(m, RetryOp(id)) && m.tasks[id].retries == 0
    ensures Encodable(OpRecord(m, RetryOp(id), 0, maxRetries))
  {
  }

  /** Both Enqueues have returned b and its Retry is done: the key is split, and replay cannot apply the last record. */
  ghost predicate Broken(cfg: Config, s: Sys, key: Key, b: Id, c: nat, c': nat, n: nat) {
    && Inv(cfg, s) && Quiet(s) && Served(s.wal) && Split(s, key, n, n + 1)
    && |s.log| == n + 3 && Dereferences(s.log[n + 2], s.mem.keys[key])
    && AllReturned(s, key, b, c, c', n)
  }

  ghost predicate AllReturned(s: Sys, key: Key, b: Id, c: nat, c': nat, n: nat) {
    && c in s.calls && s.calls[c] == Returned(key, b)
    && c' in s.calls && s.calls[c'] == Returned(key, b)
    && {n, n + 1, n + 2} <= s.done
  }

  lemma BreakKey(cfg: Config, s: Sys, key: Key, a: Id, b: Id, c: nat, c': nat) returns (es: seq<Event>)
    requires Inv(cfg, s) && Quiet(s) && !Bound(s.mem, key) && key != []
    requires forall i :: 0 <= i < |s.log| && s.log[i].Enqueue? ==> s.log[i].key != key
    requires c !in s.calls && c' !in s.calls && c != c' && a !in s.used && b !in s.used && a != b
    requires Encodable(EnqueueRecord(a, NewTask(key, [], 0))) && Encodable(EnqueueRecord(b, NewTask(key, [], 0)))
    ensures RunOf(cfg, s, es, NoCrash) && Broken(cfg, Final(cfg, s, es, NoCrash), key, b, c, c', |s.log|)
  {
    hide Enabled, Inv, EncodeRecord, Encodable, RunOf;
    var es1 := TwoSends(cfg, s, key, a, b, c, c');
    var s1 := Final(cfg, s, es1, NoCrash);
    var es2 := Serve(cfg, s1);
    var s2 := Final(cfg, s1, es2, NoCrash);
    assert BothLogged(s, s2, key, a, b, c, c');
    var es3 := OvertakeAndRetry(cfg, s2, key, a, b, c, c', s);
    var s3 := Final(cfg, s2, es3, NoCrash);
    var es4 := Serve(cfg, s3);
    var s4 := Final(cfg, s3, es4, NoCrash);
    var es5 := FinishBoth(cfg, s4, key, a, b, c, c', |s.log|);
    RunConcat(cfg, s, es1, es2, NoCrash);
    RunConcat(cfg, s, es1 + es2, es3, NoCrash);
    RunConcat(cfg, s, es1 + es2 + es3, es4, NoCrash);
    RunConcat(cfg, s, es1 + es2 + es3 + es4, es5, NoCrash);
    es := es1 + es2 + es3 + es4 + es5;
    RunKeepsInv(cfg, s, es, NoCrash);
  }

  /** The Retry gets its reply; then the overtaken caller comes back, and is given the winner's ID. */
  lemma FinishBoth(cfg: Config, s: Sys, key: Key, a: Id, b: Id, c: nat, c': nat, n: nat) returns (es: seq<Event>)
    requires Split(s, key, n, n + 1) && |s.log| == n + 3 && Dereferences(s.log[n + 2], s.mem.keys[key])
    requires Served(s.wal) && |s.wal.requests| == |s.log| && s.mem.keys[key] == b && n + 1 in s.done
    requires s.holder.Some? && s.holder.value.pos == n + 2 && s.holder.value.record.id in s.mem.tasks
    requires c in s.calls && s.calls[c] == Logged(a, NewTask(key, [], 0), n)
    requires c' in s.calls && s.calls[c'] == Returned(key, b) && c != c'
    ensures RunOf(cfg, s, es, NoCrash)
    ensures var s' := Final(cfg, s, es, NoCrash);
            && Quiet(s') && Served(s'.wal) && Split(s', key, n, n + 1) && s'.log == s.log && s'.mem.keys == s.mem.keys
            && AllReturned(s', key, b, c, c', n)
  {
    hide ReadyHeap.Push;
    RunOfTwo(cfg, s, Finish(0), Commit(c), NoCrash);
    es := [Finish(0), Commit(c)];
  }

  /**
    * The same-key race is reachable from every quiet state and fatal: for any key not used so far, two concurrent
    * Enqueues, both of which return the same ID, and one Retry of it, which succeeds, leave a fully synced file that
    * NewQueue cannot open.
    */
  lemma RaceBreaksRecovery(cfg: Config, s: Sys, key: Key, a: Id, b: Id, c: nat, c': nat) returns (es: seq<Event>)
    requires Inv(cfg, s) && Quiet(s) && !Bound(s.mem, key) && key != []
    requires forall i :: 0 <= i < |s.log| && s.log[i].Enqueue? ==> s.log[i].key != key
    requires c !in s.calls && c' !in s.calls && c != c' && a !in s.used && b !in s.used && a != b
    requires Encodable(EnqueueRecord(a, NewTask(key, [], 0))) && Encodable(EnqueueRecord(b, NewTask(key, [], 0)))
    ensures RunOf(cfg, s, es, NoCrash) && Quiet(Final(cfg, s, es, NoCrash))
    ensures AllReturned(Final(cfg, s, es, NoCrash), key, b, c, c', |s.log|)
    ensures var file := Final(cfg, s, es, NoCrash).wal.file;
            && Final(cfg, s, es, NoCrash).wal.synced == |file|
            && forall clock: seq<Time> | |clock| == |Parse(cfg.crc, file)| :: NewQueue(cfg.crc, file, clock) == Panicked
  {
    hide Inv, Parse, NewQueue, RunOf, Final, EncodeRecord, Encodable;
    es := BreakKey(cfg, s, key, a, b, c, c');
    var s' := Final(cfg, s, es, NoCrash);
    FileIsLog(cfg, s');
    forall clock: seq<Time> | |clock| == |Parse(cfg.crc, s'.wal.file)|
      ensures NewQueue(cfg.crc, s'.wal.file, clock) == Panicked
    {
      SplitTaskBreaksReplay(cfg, s', key, |s.log|, |s.log| + 1, |s.log| + 2, clock);
    }
  }

  lemma FileIsLog(cfg: Config, s: Sys)
    requires Inv(cfg, s) && Quiet(s)
    ensures s.wal.file == Frames(cfg.crc, EncodeAll(s.log))
  {
    hide Frames, EncodeRecord, Sound, IdInv, CallInv, HolderInv, PendingInv;
    assert s.wal.requests[..|s.wal.requests|] == s.wal.requests;
  }
}
