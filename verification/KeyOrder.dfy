/** Concurrent Enqueues with one idempotency key: when log and memory name the same winner, and what if not. */
module KeyOrder {
  import opened Codec
  import opened Framing
  import opened LiveQueue
  import opened Replay
  import opened Recovery
  import opened Machine
  import opened Agreement
  import ReadyHeap

  ghost predicate NoCrash(cfg: Config, s: Sys, e: Event) {
    !e.CrashRestart?
  }

  /** The first enqueue record with this key. */
  ghost predicate FirstWith(log: seq<Record>, key: Key, f: nat) {
    && f < |log| && log[f].Enqueue? && log[f].key == key
    && (forall i :: 0 <= i < f && log[i].Enqueue? ==> log[i].key != key)
  }

  lemma {:induction false} FindFirst(log: seq<Record>, key: Key, p: nat) returns (f: nat)
    requires p < |log| && log[p].Enqueue? && log[p].key == key
    ensures f <= p && FirstWith(log, key, f)
    decreases p
  {
    if i: nat :| i < p && log[i].Enqueue? && log[i].key == key {
      f := FindFirst(log, key, i);
    } else {
      f := p;
    }
  }

  /** In replay the first record in the log wins the key. */
  lemma {:induction false} ReplayKeepsFirst(log: seq<Record>, key: Key, f: nat)
    requires key != [] && FirstWith(log, key, f) && Effects(log).Some?
    ensures key in Effects(log).value.keys && Effects(log).value.keys[key] == log[f].id
  {
    var n := |log| - 1;
    assert log[..n] + [log[n]] == log;
    EffectsSnoc(EMPTY_DURABLE, log[..n], log[n]);
    if f < n {
      assert FirstWith(log[..n], key, f);
      ReplayKeepsFirst(log[..n], key, f);
    } else {
      NoBindingYet(log[..n], key);
    }
  }

  lemma {:induction false} NoBindingYet(log: seq<Record>, key: Key)
    requires Effects(log).Some? && forall i :: 0 <= i < |log| && log[i].Enqueue? ==> log[i].key != key
    ensures key !in Effects(log).value.keys
  {
    if log != [] {
      var n := |log| - 1;
      NoBindingYet(log[..n], key);
    }
  }

  /** Memory has bound the key to the task of entry p, and the log holds an earlier one for it: entry f is the first. */
  ghost predicate Split(s: Sys, key: Key, f: nat, p: nat) {
    && key != [] && key in s.mem.keys && FirstWith(s.log, key, f)
    && f < p < |s.log| && s.log[p].Enqueue? && s.log[p].key == key
    && s.log[p].id == s.mem.keys[key] != s.log[f].id
  }

  lemma SplitDisagrees(cfg: Config, s: Sys, key: Key, f: nat, p: nat)
    requires Inv(cfg, s) && Split(s, key, f, p)
    ensures !Agrees(s)
  {
    ReplyBound(cfg, s);
    var n := |s.log|;
    if AgreesAt(s, n) {
      assert s.log[..n] == s.log;
      ReplayKeepsFirst(s.log, key, f);
      KeysPersist(DurableOf(s.mem), Pending(s.log, s.done, n));
      assert false;
    }
  }

  lemma BindingsStay(cfg: Config, s: Sys, e: Event, key: Key)
    requires Enabled(cfg, s, e) && !e.CrashRestart? && key != [] && key in s.mem.keys
    ensures key in Next(cfg, s, e).mem.keys && Next(cfg, s, e).mem.keys[key] == s.mem.keys[key]
  {
    hide ReadyHeap.Push, ReadyHeap.Pop, Frames, EncodeFrame;
  }

  lemma LogStays(cfg: Config, s: Sys, e: Event)
    requires Enabled(cfg, s, e) && !e.CrashRestart?
    ensures |s.log| <= |Next(cfg, s, e).log| <= |s.log| + 1 && Next(cfg, s, e).log[..|s.log|] == s.log
  {
    hide ReadyHeap.Push, ReadyHeap.Pop, Frames, EncodeFrame, EncodeRecord;
  }

  lemma SplitPersists(cfg: Config, s: Sys, e: Event, key: Key, f: nat, p: nat)
    requires Enabled(cfg, s, e) && !e.CrashRestart? && Split(s, key, f, p)
    ensures Split(Next(cfg, s, e), key, f, p)
  {
    BindingsStay(cfg, s, e, key);
    LogStays(cfg, s, e);
    hide Next, Enabled;
    var s' := Next(cfg, s, e);
    assert forall i :: 0 <= i <= p ==> s'.log[i] == s'.log[..|s.log|][i];
  }

  /** A binding commit that overtakes an earlier rival splits the key for good. */
  lemma OvertakingSplits(cfg: Config, s: Sys, e: Event) returns (f: nat)
    requires Inv(cfg, s) && Enabled(cfg, s, e) && e.Commit? && !InOrder(cfg, s, e)
    ensures Split(Next(cfg, s, e), s.calls[e.c].task.key, f, s.calls[e.c].pos)
  {
    hide Sound, LogInv, IdInv, HolderInv, ReadyHeap.Push;
    var Logged(id, task, pos) := s.calls[e.c];
    var p :| 0 <= p < pos && p !in s.done && s.log[p].Enqueue? && s.log[p].key == task.key;
    f := FindFirst(s.log, task.key, p);
    assert s.log[f].id != s.log[pos].id by { DistinctIn(cfg, s); }
  }

  lemma DistinctIn(cfg: Config, s: Sys)
    requires Inv(cfg, s)
    ensures DistinctEnqueues(s.log)
  {
  }

  lemma {:induction false} SplitForever(cfg: Config, s: Sys, es: seq<Event>, key: Key, f: nat, p: nat)
    requires Inv(cfg, s) && Split(s, key, f, p) && RunOf(cfg, s, es, NoCrash)
    ensures !Agrees(Final(cfg, s, es, NoCrash))
    decreases |es|
  {
    if es == [] {
      SplitDisagrees(cfg, s, key, f, p);
    } else {
      EventKeepsInv(cfg, s, es[0]);
      SplitPersists(cfg, s, es[0], key, f, p);
      SplitForever(cfg, Next(cfg, s, es[0]), es[1..], key, f, p);
    }
  }

  /**
    * Exactly when log and memory agree: at the end of a crash-free run replay refines memory if and only if no
    * Enqueue in it bound a key past an earlier logged rival.
    */
  lemma {:induction false} AgreesIffInOrder(cfg: Config, s: Sys, es: seq<Event>)
    requires Inv(cfg, s) && Agrees(s) && RunOf(cfg, s, es, NoCrash)
    ensures Agrees(Final(cfg, s, es, NoCrash)) <==> RunOf(cfg, s, es, InOrder)
    decreases |es|
  {
    if es != [] {
      var e := es[0];
      EventKeepsInv(cfg, s, e);
      if InOrder(cfg, s, e) {
        EventKeepsAgreement(cfg, s, e);
        AgreesIffInOrder(cfg, Next(cfg, s, e), es[1..]);
      } else {
        var f := OvertakingSplits(cfg, s, e);
        SplitForever(cfg, Next(cfg, s, e), es[1..], s.calls[e.c].task.key, f, s.calls[e.c].pos);
      }
    }
  }

  // --- a condition callers can keep: one Enqueue per key at a time ---

  predicate Outstanding(s: Sys, c: nat, key: Key) {
    c in s.calls && !s.calls[c].Returned? && s.calls[c].task.key == key
  }

  /** No call starts while another with the same non-empty key is outstanding. */
  ghost predicate OnePerKey(cfg: Config, s: Sys, e: Event) {
    e.Check? && e.key != [] ==> forall c :: !Outstanding(s, c, e.key)
  }

  ghost predicate DistinctKeys(s: Sys) {
    forall c, c' :: c in s.calls && c' in s.calls && c != c' && !s.calls[c].Returned? && !s.calls[c'].Returned? ==>
      s.calls[c].task.key == [] || s.calls[c].task.key != s.calls[c'].task.key
  }

  /** Every pending enqueue record has its caller. */
  ghost predicate PendingHaveCallers(s: Sys) {
    forall p :: 0 <= p < |s.log| && p !in s.done && s.log[p].Enqueue? ==>
      exists c :: c in s.calls && s.calls[c].Logged? && s.calls[c].pos == p
  }

  ghost predicate SerialInv(s: Sys) {
    DistinctKeys(s) && PendingHaveCallers(s)
  }

  lemma KeysStayDistinct(cfg: Config, s: Sys, e: Event)
    requires DistinctKeys(s) && Enabled(cfg, s, e) && OnePerKey(cfg, s, e)
    ensures DistinctKeys(Next(cfg, s, e))
  {
    hide EncodeRecord, ReadyHeap.Push, ReadyHeap.Pop, Frames, EncodeFrame, Recover;
    var s' := Next(cfg, s, e);
    if e.Check? {
      forall c | c in s.calls && e.key != []
        ensures s.calls[c].Returned? || s.calls[c].task.key != e.key
      {
        assert !Outstanding(s, c, e.key);
      }
    }
  }

  lemma CallersStay(cfg: Config, s: Sys, e: Event)
    requires Inv(cfg, s) && PendingHaveCallers(s) && Enabled(cfg, s, e)
    ensures PendingHaveCallers(Next(cfg, s, e))
  {
    hide Sound, LogInv, IdInv, EncodeRecord, ReadyHeap.Push, ReadyHeap.Pop, Frames, EncodeFrame, Recover;
    var s' := Next(cfg, s, e);
    if e.Begin? {
      NotAnEnqueue(s.mem, e.op, e.now, cfg.maxRetries);
    }
    forall p | 0 <= p < |s'.log| && p !in s'.done && s'.log[p].Enqueue?
      ensures exists c :: c in s'.calls && s'.calls[c].Logged? && s'.calls[c].pos == p
    {
      if e.Send? && p == |s.log| {
        assert s'.calls[e.c].Logged? && s'.calls[e.c].pos == p;
      } else {
        assert p < |s.log| && s.log[p] == s'.log[p] && p !in s.done;
        var c :| c in s.calls && s.calls[c].Logged? && s.calls[c].pos == p;
        assert s'.calls[c].Logged? && s'.calls[c].pos == p;
      }
    }
  }

  lemma SerialIsInOrder(cfg: Config, s: Sys, e: Event)
    requires Inv(cfg, s) && SerialInv(s) && Enabled(cfg, s, e)
    ensures InOrder(cfg, s, e)
  {
    hide Sound, LogInv, IdInv, HolderInv, PendingInv;
    if e.Commit? {
      var Logged(_, task, pos) := s.calls[e.c];
      forall p | 0 <= p < pos && p !in s.done && s.log[p].Enqueue?
        ensures task.key == [] || s.log[p].key != task.key
      {
        var c :| c in s.calls && s.calls[c].Logged? && s.calls[c].pos == p;
        assert c != e.c;
      }
    }
  }

  /** If no two Enqueues with one key ever overlap, every run is in order, so replay refines memory. */
  lemma {:induction false} OnePerKeyIsInOrder(cfg: Config, s: Sys, es: seq<Event>)
    requires Inv(cfg, s) && SerialInv(s) && RunOf(cfg, s, es, OnePerKey)
    ensures RunOf(cfg, s, es, InOrder)
    decreases |es|
  {
    if es != [] {
      SerialIsInOrder(cfg, s, es[0]);
      KeysStayDistinct(cfg, s, es[0]);
      CallersStay(cfg, s, es[0]);
      EventKeepsInv(cfg, s, es[0]);
      OnePerKeyIsInOrder(cfg, Next(cfg, s, es[0]), es[1..]);
    }
  }
}
