/** From a crash that cuts the file at any byte to the queue that NewQueue opens on what is left. */
module CrashSafety {
  import opened ByteStrings
  import opened Codec
  import opened Framing
  import opened LiveQueue
  import opened Replay
  import opened Recovery
  import opened GroupCommit
  import opened Machine
  import opened Agreement
  import ReadyHeap

  /** How opening a queue ends: a memory, a decode error returned by applyRecord, or a nil dereference. */
  datatype Opening<+T> = Opened(mem: T) | Refused(error: DecodeError) | Panicked

  /** Replay calling applyRecord on each body; clock[i] is the time at which body i is applied. */
  function ReplayBodies(bodies: seq<Bytes>, clock: seq<Time>): Opening<Mem>
    requires |bodies| == |clock|
  {
    if bodies == [] then Opened(EMPTY) else
    var n := |bodies| - 1;
    var before := ReplayBodies(bodies[..n], clock[..n]);
    if !before.Opened? then before else
    match DecodeRecord(bodies[n])
    case Err(error) => Refused(error)
    case Ok(r) =>
      match ApplyRecord(before.mem, r, clock[n])
      case None => Panicked
      case Some(m) => Opened(m)
  }

  /** NewQueue on a file. */
  function NewQueue(crc: Checksum, file: Bytes, clock: seq<Time>): Opening<Mem>
    requires |clock| == |Parse(crc, file)|
  {
    match ReplayBodies(Parse(crc, file), clock)
    case Opened(m) => Opened(m.(ready := ReadyHeap.Init(m.tasks, m.ready)))
    case other => other
  }

  /** On encoded records the byte-level replay is the record-level one. */
  lemma {:induction false} ReplayOfEncoded(log: seq<Record>, clock: seq<Time>)
    requires |log| == |clock| && forall r :: r in log ==> Encodable(r)
    ensures ReplayBodies(EncodeAll(log), clock) ==
            match ReplayLog(log, clock) { case None => Panicked case Some(m) => Opened(m) }
  {
    hide DecodeRecord, EncodeRecord, ApplyRecord, Encodable;
    if log != [] {
      var n := |log| - 1;
      assert EncodeAll(log)[..n] == EncodeAll(log[..n]);
      assert forall i :: 0 <= i < n ==> log[..n][i] in log;
      assert log[n] in log;
      ReplayOfEncoded(log[..n], clock[..n]);
      EncodableDecodes(log[n]);
    }
  }

  lemma EncodableDecodes(r: Record)
    requires Encodable(r)
    ensures DecodeRecord(EncodeRecord(r)) == Ok(r)
  {
    RoundTripIffInBounds(r);
  }

  /**
    * Crash safety at the byte level. Let a crash leave any byte prefix of the file that contains the synced
    * bytes. Then NewQueue opens; what it recovers is the effect of the first k log records, for a k past every
    * record that was answered; nothing is in flight, and every live task is listed once in a well-ordered heap and due
    * at once. If the cut is past everything settled, as it is when the writer is firm, that effect is the durable state
    * memory had at the crash plus the operations pending among those k records.
    */
  lemma AnyCutRecoversLiveState(cfg: Config, s: Sys, disk: Bytes, clock: seq<Time>, late: Time) returns (k: nat)
    requires Inv(cfg, s) && Agrees(s)
    requires disk <= s.wal.file && s.wal.synced <= |disk|
    requires |clock| == |Parse(cfg.crc, disk)|
    requires ZERO_TIME <= late && forall t :: t in clock ==> t <= late
    ensures s.wal.answered <= k <= |s.log| && (Firm(cfg.crc, s.wal) ==> s.wal.replied <= k)
    ensures NewQueue(cfg.crc, disk, clock).Opened?
    ensures var m := NewQueue(cfg.crc, disk, clock).mem;
            && RecoveredAs(s, k, m)
            && m.inflight == {} && WellFormed(m) && AllDue(m, late)
            && (forall id :: id in m.ready <==> id in m.index)
  {
    hide Parse, Frames, EncodeRecord, DurableOf, WellFormed, AllDue, EffectsFrom, Effects, Firm;
    k := SurvivorsIncludeAnswered(cfg.crc, s.wal, disk);
    var log := s.log[..k];
    PrefixFacts(s.log, k);
    ReplyBound(cfg, s);
    assert AgreesAt(s, |s.log|) && s.log[..|s.log|] == s.log;
    PrefixReplays(s.log, k);
    ReplayOfEncoded(log, clock);
    RecoveryRedelivers(log, clock, late);
    assert s.wal.replied <= k ==> AgreesAt(s, k);
    if Firm(cfg.crc, s.wal) {
      CrashKeepsSettledIffFirm(cfg.crc, s.wal);
    }
  }

  /** m holds what the first k records do; past everything settled, that is memory plus what is pending before k. */
  ghost predicate RecoveredAs(s: Sys, k: nat, m: Mem)
    requires k <= |s.log|
  {
    && Effects(s.log[..k]) == Some(DurableOf(m))
    && (s.wal.replied <= k ==> EffectsFrom(DurableOf(s.mem), Pending(s.log, s.done, k)) == Some(DurableOf(m)))
  }

  /** The same, for every in-order run of the system from an empty log, restarts included. */
  lemma EndToEndCrashSafety(cfg: Config, es: seq<Event>, disk: Bytes, clock: seq<Time>, late: Time) returns (k: nat)
    requires RunOf(cfg, Initial(), es, InOrder)
    requires var s := Final(cfg, Initial(), es, InOrder); disk <= s.wal.file && s.wal.synced <= |disk|
    requires |clock| == |Parse(cfg.crc, disk)|
    requires ZERO_TIME <= late && forall t :: t in clock ==> t <= late
    ensures var s := Final(cfg, Initial(), es, InOrder);
            && s.wal.answered <= k <= |s.log| && (Firm(cfg.crc, s.wal) ==> s.wal.replied <= k)
            && NewQueue(cfg.crc, disk, clock).Opened?
            && var m := NewQueue(cfg.crc, disk, clock).mem;
               && RecoveredAs(s, k, m)
               && m.inflight == {} && WellFormed(m) && AllDue(m, late)
               && (forall id :: id in m.ready <==> id in m.index)
  {
    hide Parse, Frames, RecoveredAs, WellFormed, AllDue, Firm, Inv, Agrees, NewQueue, Final, RunOf;
    InitialAgrees(cfg);
    ReplayRefinesLive(cfg, Initial(), es);
    k := AnyCutRecoversLiveState(cfg, Final(cfg, Initial(), es, InOrder), disk, clock, late);
  }

  // --- what that says about one task ---

  /** Records on other IDs leave a task where it is and as it is. */
  lemma {:induction false} EffectsElsewhere(d: Durable, rs: seq<Record>, id: Id)
    requires EffectsFrom(d, rs).Some? && forall i :: 0 <= i < |rs| ==> rs[i].id != id
    ensures var d' := EffectsFrom(d, rs).value;
            SameEntry(d, d', id)
  {
    if rs != [] {
      EffectsElsewhere(d, rs[..|rs| - 1], id);
    }
  }

  /** The two states hold the same thing, or nothing, under this ID. */
  ghost predicate SameEntry(d: Durable, d': Durable, id: Id) {
    && (id in d'.index <==> id in d.index) && (id in d.index ==> d'.index[id] == d.index[id])
    && (id in d'.dlq <==> id in d.dlq) && (id in d.dlq ==> d'.dlq[id] == d.dlq[id])
  }

  /** An enqueue of id has been logged and not finished. */
  ghost predicate PendingEnqueue(s: Sys, id: Id) {
    exists p :: 0 <= p < |s.log| && p !in s.done && s.log[p].Enqueue? && s.log[p].id == id
  }

  /** Memory's durable state, with the waiting operation on id finished if its record is among the first k. */
  function WithWaiter(s: Sys, k: nat, id: Id): Option<Durable> {
    if Survived(s, k) && s.holder.value.op.id == id then Effect(DurableOf(s.mem), s.holder.value.record)
    else Some(DurableOf(s.mem))
  }

  lemma HolderIsOnlyRival(cfg: Config, s: Sys, p: nat, id: Id)
    requires Inv(cfg, s) && p < |s.log| && p !in s.done && s.log[p].id == id && id in s.mem.tasks
    ensures s.holder.Some? && s.holder.value.pos == p && s.holder.value.op.id == id
  {
    hide Sound, LogInv, IdInv, CallInv;
    if s.holder.Some? {
      NotAnEnqueue(s.mem, s.holder.value.op, s.holder.value.now, cfg.maxRetries);
    }
  }

  lemma PendingElsewhere(cfg: Config, s: Sys, k: nat, id: Id)
    requires Inv(cfg, s) && k <= |s.log| && id in s.mem.tasks
    requires !(Survived(s, k) && s.holder.value.op.id == id)
    ensures forall i :: 0 <= i < |Pending(s.log, s.done, k)| ==> Pending(s.log, s.done, k)[i].id != id
  {
    forall i | 0 <= i < |Pending(s.log, s.done, k)|
      ensures Pending(s.log, s.done, k)[i].id != id
    {
      var p := PendingMember(s.log, s.done, k, i);
      if s.log[p].id == id {
        HolderIsOnlyRival(cfg, s, p, id);
      }
    }
  }

  /**
    * What comes back, task by task. A task memory knows comes back exactly as memory held it, or as memory would
    * hold it had the one operation waiting on it finished, if that record survived: live with its retry count,
    * dead with its failure time, or gone. A task memory does not know is at most a fresh one.
    */
  lemma TaskComesBack(cfg: Config, s: Sys, k: nat, d: Durable, id: Id)
    requires Inv(cfg, s) && k <= |s.log|
    requires EffectsFrom(DurableOf(s.mem), Pending(s.log, s.done, k)) == Some(d)
    ensures id in s.mem.tasks ==> WithWaiter(s, k, id).Some? && SameEntry(WithWaiter(s, k, id).value, d, id)
    ensures id !in s.mem.tasks ==> id !in d.dlq && (id in d.index ==> d.index[id].retries == 0 && PendingEnqueue(s, id))
  {
    hide Inv, Pending, DurableOf;
    if id !in s.mem.tasks {
      StrangerComesBack(cfg, s, k, d, id);
    } else if Survived(s, k) && s.holder.value.op.id == id {
      WaiterComesBack(cfg, s, k, d, id);
    } else {
      PendingElsewhere(cfg, s, k, id);
      EffectsElsewhere(DurableOf(s.mem), Pending(s.log, s.done, k), id);
    }
  }

  lemma StrangerComesBack(cfg: Config, s: Sys, k: nat, d: Durable, id: Id)
    requires Inv(cfg, s) && k <= |s.log| && id !in s.mem.tasks
    requires EffectsFrom(DurableOf(s.mem), Pending(s.log, s.done, k)) == Some(d)
    ensures id !in d.dlq && (id in d.index ==> d.index[id].retries == 0 && PendingEnqueue(s, id))
  {
    var rs := Pending(s.log, s.done, k);
    MembersOf(s.mem);
    if s.holder.Some? {
      HolderKnown(cfg, s);
    }
    forall i | 0 <= i < |rs|
      ensures rs[i].id == id ==> rs[i].Enqueue? && PendingEnqueue(s, id)
    {
      var p := PendingMember(s.log, s.done, k, i);
    }
    hide DurableOf, PendingEnqueue;
    FreshAtMost(DurableOf(s.mem), rs, id);
  }

  lemma HolderKnown(cfg: Config, s: Sys)
    requires Inv(cfg, s) && s.holder.Some?
    ensures s.holder.value.record.id in s.mem.tasks && !s.holder.value.record.Enqueue?
    ensures s.holder.value.record.id == s.holder.value.op.id
  {
    NotAnEnqueue(s.mem, s.holder.value.op, s.holder.value.now, cfg.maxRetries);
  }

  lemma {:induction false} FreshAtMost(d: Durable, rs: seq<Record>, id: Id)
    requires EffectsFrom(d, rs).Some? && id !in d.index && id !in d.dlq
    requires forall i :: 0 <= i < |rs| && rs[i].id == id ==> rs[i].Enqueue?
    ensures var d' := EffectsFrom(d, rs).value;
            && id !in d'.dlq
            && (id in d'.index ==> d'.index[id].retries == 0 && exists i :: 0 <= i < |rs| && rs[i].id == id)
  {
    if rs != [] {
      FreshAtMost(d, rs[..|rs| - 1], id);
    }
  }

  lemma WaiterComesBack(cfg: Config, s: Sys, k: nat, d: Durable, id: Id)
    requires Inv(cfg, s) && k <= |s.log| && Survived(s, k) && s.holder.value.op.id == id
    requires EffectsFrom(DurableOf(s.mem), Pending(s.log, s.done, k)) == Some(d)
    ensures WithWaiter(s, k, id).Some? && SameEntry(WithWaiter(s, k, id).value, d, id)
  {
    var h := s.holder.value;
    var p := h.pos;
    var d0 := DurableOf(s.mem);
    HolderKnown(cfg, s);
    LiveOpHasEffect(s.mem, h.op, h.now, cfg.maxRetries, 0);
    var before := Pending(s.log, s.done, p);
    var after := PendingWithout(s.log, s.done, p, k);
    forall i | 0 <= i < |before|
      ensures Independent(d0, before[i], h.record)
    {
      var q := PendingMember(s.log, s.done, p, i);
      assert s.log[q].id !in s.mem.tasks;
      PendingAreIndependent(cfg, s, h.record, q);
    }
    CommitFromMiddle(d0, before, h.record, after);
    var rest := before + after;
    forall i | 0 <= i < |rest|
      ensures rest[i].id != id
    {
      assert rest == Pending(s.log, s.done + {p}, k);
      var q := PendingMember(s.log, s.done + {p}, k, i);
      if s.log[q].id == id {
        HolderIsOnlyRival(cfg, s, q, id);
      }
    }
    EffectsElsewhere(Effect(d0, h.record).value, rest, id);
  }

  /** A key that was bound comes back bound to the same task. */
  lemma KeysComeBack(s: Sys, k: nat, d: Durable)
    requires k <= |s.log| && EffectsFrom(DurableOf(s.mem), Pending(s.log, s.done, k)) == Some(d)
    ensures forall key :: key in s.mem.keys && key != [] ==> key in d.keys && d.keys[key] == s.mem.keys[key]
  {
    KeysPersist(DurableOf(s.mem), Pending(s.log, s.done, k));
  }

  /** A restart that keeps all that is settled recovers the live state plus the pending operations before the cut. */
  lemma RestartRecovers(cfg: Config, s: Sys, e: Event)
    requires Inv(cfg, s) && Agrees(s) && Enabled(cfg, s, e) && e.CrashRestart? && s.wal.replied <= e.k
    ensures e.k <= |s.log|
    ensures EffectsFrom(DurableOf(s.mem), Pending(s.log, s.done, e.k)) == Some(DurableOf(Next(cfg, s, e).mem))
  {
    hide DurableOf, EffectsFrom, Frames, EncodeRecord, Sound, IdInv, CallInv, HolderInv, PendingInv, Recover;
    PrefixFacts(s.log, e.k);
    RecoveryRedelivers(s.log[..e.k], e.clock, LatestOf(e.clock));
    assert AgreesAt(s, e.k);
  }
}
