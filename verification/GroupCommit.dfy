/** wal.go: the single writer, which cuts the request FIFO into batches and syncs once per batch. */
module GroupCommit {
  import opened ByteStrings
  import opened Framing

  /**
    * requests is everything ever sent on the channel, in channel order; the counters say how much of it
    * has been received into batches, wholly written, and settled: answered nil, or read back when the file was
    * opened. answered counts only what some caller was answered nil. synced bytes of file are on disk.
    */
  datatype Writer = Writer(
    requests: seq<Bytes>,
    taken: nat,
    written: nat,
    replied: nat,
    answered: nat,
    file: Bytes,
    synced: nat,
    failed: bool)

  datatype WriterStep =
    | Take(upTo: nat)         // the first receive and the drain loop
    | Write                   // one frame of the batch
    | WriteFails(part: nat)   // an error after part of the frame went out
    | Sync                    // the batch's one fsync
    | SyncFails
    | Reply                   // nil to every caller of the batch

  function Fresh(): Writer {
    Writer([], 0, 0, 0, 0, [], 0, false)
  }

  /** The frame the batch loop writes next. */
  function NextFrame(crc: Checksum, w: Writer): Bytes
    requires w.written < |w.requests|
  {
    EncodeFrame(crc, w.requests[w.written])
  }

  predicate CanStep(crc: Checksum, w: Writer, e: WriterStep) {
    && !w.failed
    && match e {
         case Take(upTo) => w.replied == w.taken < upTo <= |w.requests|
         case Write => w.written < w.taken <= |w.requests|
         case WriteFails(part) => w.written < w.taken <= |w.requests| && part <= |NextFrame(crc, w)|
         case Sync => w.replied < w.taken == w.written
         case SyncFails => w.replied < w.taken == w.written
         case Reply => w.replied < w.taken == w.written && w.synced == |w.file|
       }
  }

  function Step(crc: Checksum, w: Writer, e: WriterStep): Writer
    requires CanStep(crc, w, e)
  {
    match e
    case Take(upTo) => w.(taken := upTo)
    case Write => w.(file := w.file + NextFrame(crc, w), written := w.written + 1)
    case WriteFails(part) => w.(file := w.file + NextFrame(crc, w)[..part], failed := true)
    case Sync => w.(synced := |w.file|)
    case SyncFails => w.(failed := true)
    case Reply => w.(replied := w.taken, answered := w.taken)
  }

  /** A caller's send on the channel. */
  function Submit(w: Writer, record: Bytes): Writer {
    w.(requests := w.requests + [record])
  }

  /** Reopening a file that holds exactly the frames of the first k requests; nothing is synced by opening it. */
  function Reopen(crc: Checksum, w: Writer, k: nat, synced: nat): Writer
    requires k <= |w.requests|
  {
    Writer(w.requests[..k], k, k, k, w.answered, Frames(crc, w.requests[..k]), synced, false)
  }

  /**
    * The file is the frames of the requests in channel order, up to a torn frame after a failure;
    * every request that was answered lies inside the synced bytes.
    */
  ghost predicate WriterInv(crc: Checksum, w: Writer) {
    && w.answered <= w.replied <= w.written <= w.taken <= |w.requests|
    && Framable(w.requests)
    && Frames(crc, w.requests[..w.written]) <= w.file <= Frames(crc, w.requests)
    && (!w.failed ==> w.file == Frames(crc, w.requests[..w.written]))
    && |Frames(crc, w.requests[..w.answered])| <= w.synced <= |w.file|
  }

  lemma OneMore<T>(s: seq<T>, n: nat)
    requires n < |s|
    ensures s[..n + 1] == s[..n] + [s[n]]
  {
  }

  lemma FramesOneMore(crc: Checksum, rs: seq<Bytes>, n: nat)
    requires n < |rs|
    ensures Frames(crc, rs[..n + 1]) == Frames(crc, rs[..n]) + EncodeFrame(crc, rs[n])
    ensures Frames(crc, rs[..n]) + EncodeFrame(crc, rs[n]) <= Frames(crc, rs)
  {
    hide Frames, EncodeFrame;
    OneMore(rs, n);
    FramesSnoc(crc, rs[..n], rs[n]);
    FramesPrefix(crc, rs, n + 1);
  }

  lemma StepKeepsInv(crc: Checksum, w: Writer, e: WriterStep)
    requires WriterInv(crc, w) && CanStep(crc, w, e)
    ensures WriterInv(crc, Step(crc, w, e))
  {
    hide Frames, EncodeFrame;
    if e.Write? || e.WriteFails? {
      FramesOneMore(crc, w.requests, w.written);
    }
  }

  lemma SubmitKeepsInv(crc: Checksum, w: Writer, record: Bytes)
    requires WriterInv(crc, w) && IsUint32(|record|)
    ensures WriterInv(crc, Submit(w, record))
  {
    hide Frames;
    var rs := w.requests + [record];
    assert rs[..|w.requests|] == w.requests;
    FramesPrefix(crc, rs, |w.requests|);
    assert rs[..w.written] == w.requests[..w.written];
    assert rs[..w.answered] == w.requests[..w.answered];
  }

  /** Each further frame takes bytes, so byte lengths order the prefixes of the request list. */
  lemma {:induction false} FramesGrow(crc: Checksum, rs: seq<Bytes>, i: nat, j: nat)
    requires i <= j <= |rs|
    ensures |Frames(crc, rs[..i])| + (j - i) <= |Frames(crc, rs[..j])|
    decreases j - i
  {
    hide Frames;
    if i < j {
      FramesOneMore(crc, rs, i);
      FramesGrow(crc, rs, i + 1, j);
    }
  }

  /** The first n bytes hold k whole frames if and only if those frames fit. */
  lemma HoldsIffFits(crc: Checksum, rs: seq<Bytes>, n: nat, k: nat)
    requires k <= |rs|
    ensures k <= WholeFrames(crc, rs, n) <==> |Frames(crc, rs[..k])| <= n
  {
    hide Frames;
    var whole := WholeFrames(crc, rs, n);
    WholeFramesFit(crc, rs, n);
    if k <= whole {
      FramesGrow(crc, rs, k, whole);
    } else {
      FramesGrow(crc, rs, whole + 1, k);
    }
  }

  /** What any part of the writer's file reads back. */
  lemma PartReadsBack(crc: Checksum, w: Writer, disk: Bytes)
    requires WriterInv(crc, w) && disk <= w.file
    ensures Parse(crc, disk) == w.requests[..WholeFrames(crc, w.requests, |disk|)]
  {
    hide Frames, Parse;
    assert disk == Frames(crc, w.requests)[..|disk|];
    AnyCutRecovery(crc, w.requests, |disk|);
  }

  /** A file whose last frame may be torn reads back with that record if the frame is whole, otherwise without it. */
  lemma LastFrameReads(crc: Checksum, rs: seq<Bytes>, r: Bytes, file: Bytes)
    requires Framable(rs) && IsUint32(|r|)
    requires Frames(crc, rs) <= file <= Frames(crc, rs) + EncodeFrame(crc, r)
    ensures Parse(crc, file) == if |file| == |Frames(crc, rs) + EncodeFrame(crc, r)| then rs + [r] else rs
  {
    hide Frames, Parse, EncodeFrame;
    var n := |file| - |Frames(crc, rs)|;
    var part := EncodeFrame(crc, r)[..n];
    assert file == Frames(crc, rs) + part;
    ParseAppend(crc, rs, part);
    if n < |EncodeFrame(crc, r)| {
      ParseTornFrame(crc, r, n);
      assert part + [] == part && rs + [] == rs;
    } else {
      ParseWholeFrame(crc, r, []);
      ParseInvertsFrames(crc, []);
      assert part + [] == EncodeFrame(crc, r) + [] && [r] + [] == [r] && Frames(crc, []) == [] by { NoFrames(crc); }
    }
  }

  lemma NoFrames(crc: Checksum)
    ensures Frames(crc, []) == []
  {
  }

  lemma ReopenIsInv(crc: Checksum, w: Writer, k: nat, synced: nat)
    requires WriterInv(crc, w) && k <= |w.requests| && w.synced <= synced <= |Frames(crc, w.requests[..k])|
    ensures WriterInv(crc, Reopen(crc, w, k, synced))
  {
    hide Frames;
    var rs := w.requests[..k];
    assert rs[..k] == rs;
    assert forall r :: r in rs ==> r in w.requests;
    if k < w.answered {
      FramesGrow(crc, w.requests, k, w.answered);
    }
    assert rs[..w.answered] == w.requests[..w.answered];
  }

  /**
    * Group commit keeps the promise of one sync per append: whatever the batching, if a crash leaves any
    * byte prefix of the file that contains the synced bytes, the reader gets back the requests in channel
    * order up to some point that includes every request answered nil.
    */
  lemma SurvivorsIncludeAnswered(crc: Checksum, w: Writer, disk: Bytes) returns (k: nat)
    requires WriterInv(crc, w) && disk <= w.file && w.synced <= |disk|
    ensures w.answered <= k <= |w.requests| && Parse(crc, disk) == w.requests[..k]
    ensures |Frames(crc, w.requests[..k])| <= |disk|
  {
    hide Frames, Parse;
    k := WholeFrames(crc, w.requests, |disk|);
    PartReadsBack(crc, w, disk);
    HoldsIffFits(crc, w.requests, |disk|, k);
    HoldsIffFits(crc, w.requests, |disk|, w.answered);
  }

  /** Everything settled is on disk: so it is while the file has not been reopened, and again after the first sync. */
  ghost predicate Firm(crc: Checksum, w: Writer) {
    w.replied <= |w.requests| && |Frames(crc, w.requests[..w.replied])| <= w.synced
  }

  /**
    * Exactly when a crash cannot take back what this start has read: every surviving prefix that contains the synced
    * bytes reads back all that is settled if and only if the writer is firm.
    */
  lemma CrashKeepsSettledIffFirm(crc: Checksum, w: Writer)
    requires WriterInv(crc, w)
    ensures (forall disk | disk <= w.file && w.synced <= |disk| :: w.replied <= |Parse(crc, disk)|) <==> Firm(crc, w)
  {
    hide Frames, Parse, WholeFrames;
    forall disk | disk <= w.file && w.synced <= |disk|
      ensures w.replied <= |Parse(crc, disk)| <==> |Frames(crc, w.requests[..w.replied])| <= |disk|
    {
      PartReadsBack(crc, w, disk);
      HoldsIffFits(crc, w.requests, |disk|, w.replied);
    }
    var least := w.file[..w.synced];
    assert |least| == w.synced && least <= w.file;
    assert w.replied <= |Parse(crc, least)| <==> |Frames(crc, w.requests[..w.replied])| <= w.synced;
  }

  /** How a writer comes to be firm, and stays so. */
  lemma FirmSteps(crc: Checksum, w: Writer, e: WriterStep)
    requires WriterInv(crc, w) && CanStep(crc, w, e) && (Firm(crc, w) || e.Sync?)
    ensures Firm(crc, Step(crc, w, e))
  {
    hide Frames, EncodeFrame;
    if e.Sync? {
      FramesGrow(crc, w.requests, w.replied, w.written);
    }
    if e.Reply? {
      FramesGrow(crc, w.requests, w.replied, w.written);
    }
  }

  /** The writer gives up on a batch: the sync fails, or the write of a frame does. */
  predicate Fails(e: WriterStep) {
    e.SyncFails? || e.WriteFails?
  }

  /**
    * Why an append error must stop the process. The callers of a failed batch are all answered with an error; a request
    * of it is read back all the same if and only if its frame went out whole.
    */
  lemma RefusedIsReadBackIffWhole(crc: Checksum, w: Writer, e: WriterStep, i: nat)
    requires WriterInv(crc, w) && CanStep(crc, w, e) && Fails(e) && w.replied <= i < w.taken
    ensures var w' := Step(crc, w, e);
            && w'.failed && w'.replied == w.replied && Parse(crc, w'.file) <= w.requests
            && (i < |Parse(crc, w'.file)| <==> |Frames(crc, w.requests[..i + 1])| <= |w'.file|)
  {
    hide Frames, Parse, EncodeFrame;
    StepKeepsInv(crc, w, e);
    ReadBackIffWhole(crc, Step(crc, w, e), i);
  }

  lemma ReadBackIffWhole(crc: Checksum, w: Writer, i: nat)
    requires WriterInv(crc, w) && i < |w.requests|
    ensures Parse(crc, w.file) <= w.requests
    ensures i < |Parse(crc, w.file)| <==> |Frames(crc, w.requests[..i + 1])| <= |w.file|
  {
    hide Frames, Parse, WholeFrames;
    PartReadsBack(crc, w, w.file);
    HoldsIffFits(crc, w.requests, |w.file|, i + 1);
  }
}
