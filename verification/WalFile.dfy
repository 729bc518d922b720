/** wal.go: the log file and its single writer, as code. */
module WalFile {
  import opened ByteStrings
  import opened Framing
  import GroupCommit

  /** The whole frame of the record lies in the synced bytes, from position at on. */
  ghost predicate Held(crc: Checksum, file: Bytes, synced: nat, record: Bytes, at: nat) {
    var frame := EncodeFrame(crc, record);
    at + |frame| <= synced <= |file| && file[at..at + |frame|] == frame
  }

  /** One answer for every caller of a batch. */
  function Same(ok: bool, n: nat): (replies: seq<bool>)
    ensures |replies| == n && forall i :: 0 <= i < n ==> replies[i] == ok
  {
    seq(n, _ => ok)
  }

  predicate AllNil(replies: seq<bool>, k: nat) {
    forall i :: 0 <= i < k && i < |replies| ==> replies[i]
  }

  /**
    * The writer's account so far: replies[i] says whether request i was answered nil, and then at[i] is where its
    * frame lies in the synced bytes. Up to the first error the file is the frames in request order; with no error
    * it is nothing else.
    */
  ghost predicate Served(
    crc: Checksum, before: Bytes, file: Bytes, synced: nat, requests: seq<Bytes>, replies: seq<bool>, at: seq<nat>)
  {
    && |replies| == |at| && |replies| <= |requests|
    && before <= file && synced <= |file|
    && (forall i :: 0 <= i < |replies| && replies[i] ==> Held(crc, file, synced, requests[i], at[i]))
    && (forall k :: 0 <= k <= |replies| && AllNil(replies, k) ==> before + Frames(crc, requests[..k]) <= file)
    && (AllNil(replies, |replies|) ==>
          file == before + Frames(crc, requests[..|replies|]) && (replies != [] ==> synced == |file|))
  }

  ghost function StartsOf(crc: Checksum, start: nat, batch: seq<Bytes>): (at: seq<nat>)
    ensures |at| == |batch|
  {
    seq(|batch|, i requires 0 <= i < |batch| => start + |Frames(crc, batch[..i])|)
  }

  lemma HeldStays(crc: Checksum, had: Bytes, hadSynced: nat, file: Bytes, synced: nat, record: Bytes, at: nat)
    requires Held(crc, had, hadSynced, record, at) && had <= file && hadSynced <= synced <= |file|
    ensures Held(crc, file, synced, record, at)
  {
    hide EncodeFrame;
    var end := at + |EncodeFrame(crc, record)|;
    assert file[at..end] == had[at..end];
  }

  lemma ServeBatch(
    crc: Checksum, before: Bytes, had: Bytes, hadSynced: nat, file: Bytes, synced: nat,
    requests: seq<Bytes>, replies: seq<bool>, at: seq<nat>, upTo: nat, ok: bool)
    requires Served(crc, before, had, hadSynced, requests, replies, at) && |replies| < upTo <= |requests|
    requires var batch := requests[|replies|..upTo];
             if ok then file == had + Frames(crc, batch) && synced == |file|
             else synced == hadSynced && had <= file
    ensures var batch := requests[|replies|..upTo];
            Served(crc, before, file, synced, requests, replies + Same(ok, |batch|), at + StartsOf(crc, |had|, batch))
  {
    hide Frames, EncodeFrame;
    var next := |replies|;
    var batch := requests[next..upTo];
    var replies', at' := replies + Same(ok, |batch|), at + StartsOf(crc, |had|, batch);
    forall i | 0 <= i < upTo && replies'[i]
      ensures Held(crc, file, synced, requests[i], at'[i])
    {
      if i < next {
        assert replies[i] == replies'[i] && at[i] == at'[i];
        HeldStays(crc, had, hadSynced, file, synced, requests[i], at[i]);
      } else {
        assert replies'[i] == ok && requests[i] == batch[i - next];
        BatchFrameAt(crc, had, batch, i - next);
      }
    }
    assert AllNil(replies', next) ==> AllNil(replies, next) by {
      assert forall i :: 0 <= i < next ==> replies[i] == replies'[i];
    }
    BatchExtends(crc, before, had, requests, next, upTo);
    forall k | 0 <= k <= upTo && AllNil(replies', k)
      ensures before + Frames(crc, requests[..k]) <= file
    {
      ServedPrefix(crc, before, had, hadSynced, file, requests, replies, at, upTo, ok, k);
    }
    if AllNil(replies', upTo) {
      assert replies'[next];
    }
  }

  lemma ServedPrefix(
    crc: Checksum, before: Bytes, had: Bytes, hadSynced: nat, file: Bytes,
    requests: seq<Bytes>, replies: seq<bool>, at: seq<nat>, upTo: nat, ok: bool, k: nat)
    requires Served(crc, before, had, hadSynced, requests, replies, at) && |replies| < upTo <= |requests| && k <= upTo
    requires had <= file && (ok ==> file == had + Frames(crc, requests[|replies|..upTo]))
    requires AllNil(replies + Same(ok, upTo - |replies|), k)
    ensures before + Frames(crc, requests[..k]) <= file
  {
    hide Frames;
    var next := |replies|;
    var replies' := replies + Same(ok, upTo - next);
    assert forall i :: 0 <= i < next ==> replies[i] == replies'[i];
    if k <= next {
      assert AllNil(replies, k);
    } else {
      assert replies'[next] && AllNil(replies, next);
      BatchExtends(crc, before, had, requests, next, upTo);
      PrefixOfPrefix(crc, requests, k, upTo);
    }
  }

  // --- what the batches leave in the file ---

  /** A batch, how many bytes of its frames reached the file, and whether its callers were answered nil. */
  datatype Batch = Batch(records: seq<Bytes>, left: nat, ok: bool)

  ghost predicate Possible(crc: Checksum, b: Batch) {
    b.left <= |Frames(crc, b.records)| && (b.ok ==> b.left == |Frames(crc, b.records)|)
  }

  function Requests(bs: seq<Batch>): seq<Bytes> {
    if bs == [] then [] else Requests(bs[..|bs| - 1]) + bs[|bs| - 1].records
  }

  function Replies(bs: seq<Batch>): seq<bool> {
    if bs == [] then [] else Replies(bs[..|bs| - 1]) + Same(bs[|bs| - 1].ok, |bs[|bs| - 1].records|)
  }

  function BytesOf(crc: Checksum, b: Batch): Bytes {
    var frames := Frames(crc, b.records);
    if b.left <= |frames| then frames[..b.left] else frames
  }

  function Remains(crc: Checksum, bs: seq<Batch>): Bytes {
    if bs == [] then [] else Remains(crc, bs[..|bs| - 1]) + BytesOf(crc, bs[|bs| - 1])
  }

  /** The records of a batch whose frames are whole. */
  function WholeOf(crc: Checksum, b: Batch): seq<Bytes> {
    b.records[..WholeFrames(crc, b.records, b.left)]
  }

  function AllWhole(crc: Checksum, bs: seq<Batch>): seq<Bytes> {
    if bs == [] then [] else AllWhole(crc, bs[..|bs| - 1]) + WholeOf(crc, bs[|bs| - 1])
  }

  /** The batch left no part of a frame behind. */
  ghost predicate Clean(crc: Checksum, b: Batch) {
    b.left == |Frames(crc, WholeOf(crc, b))|
  }

  lemma OneBatch(crc: Checksum, b: Batch)
    requires Possible(crc, b)
    ensures Frames(crc, WholeOf(crc, b)) <= BytesOf(crc, b)
    ensures Clean(crc, b) <==> BytesOf(crc, b) == Frames(crc, WholeOf(crc, b))
    ensures b.ok ==> Clean(crc, b) && WholeOf(crc, b) == b.records
  {
    hide Frames;
    var k := WholeFrames(crc, b.records, b.left);
    WholeFramesFit(crc, b.records, b.left);
    FramesPrefix(crc, b.records, k);
    assert b.records[..|b.records|] == b.records;
    GroupCommit.HoldsIffFits(crc, b.records, b.left, |b.records|);
  }

  /** The whole frames take at most the bytes that are there, and all of them exactly when every batch is clean. */
  lemma {:induction false} CleanIffFrames(crc: Checksum, bs: seq<Batch>)
    requires forall b :: b in bs ==> Possible(crc, b)
    ensures |Frames(crc, AllWhole(crc, bs))| <= |Remains(crc, bs)|
    ensures (forall b :: b in bs ==> Clean(crc, b)) <==> |Remains(crc, bs)| == |Frames(crc, AllWhole(crc, bs))|
    ensures (forall b :: b in bs ==> Clean(crc, b)) ==> Remains(crc, bs) == Frames(crc, AllWhole(crc, bs))
  {
    hide Frames, Possible, Clean, WholeOf, BytesOf;
    if bs == [] {
      assert Frames(crc, []) == [] by { GroupCommit.NoFrames(crc); }
    } else {
      var n := |bs| - 1;
      var last := bs[n];
      assert last in bs && forall b :: b in bs <==> b in bs[..n] || b == last;
      CleanIffFrames(crc, bs[..n]);
      OneBatch(crc, last);
      FramesAppend(crc, AllWhole(crc, bs[..n]), WholeOf(crc, last));
      CleanByLength(crc, last);
    }
  }

  lemma CleanByLength(crc: Checksum, b: Batch)
    requires Possible(crc, b)
    ensures Clean(crc, b) <==> |BytesOf(crc, b)| == |Frames(crc, WholeOf(crc, b))|
  {
  }

  /**
    * Exactly when the writer may go on after an error. Whatever is appended later is read back behind the records whose
    * frames are whole, the answered ones among them, if and only if no batch left part of a frame behind.
    */
  lemma GoesOnIffClean(crc: Checksum, rs: seq<Bytes>, bs: seq<Batch>)
    requires Framable(rs) && Framable(Requests(bs)) && forall b :: b in bs ==> Possible(crc, b)
    ensures forall b :: b in bs && b.ok ==> WholeOf(crc, b) == b.records
    ensures (forall later | Framable(later) ::
               Parse(crc, Frames(crc, rs) + Remains(crc, bs) + Frames(crc, later)) == rs + AllWhole(crc, bs) + later)
            <==> forall b :: b in bs ==> Clean(crc, b)
  {
    forall b | b in bs && b.ok
      ensures WholeOf(crc, b) == b.records
    {
      OneBatch(crc, b);
    }
    WholeAreRequests(crc, bs);
    hide Frames, Parse, Clean, Possible, WholeOf, Remains, AllWhole;
    CleanIffFrames(crc, bs);
    FramesAppend(crc, rs, AllWhole(crc, bs));
    ReadsOnIffFrames(crc, Frames(crc, rs) + Remains(crc, bs), rs + AllWhole(crc, bs));
    SameTail(Frames(crc, rs), Remains(crc, bs), Frames(crc, AllWhole(crc, bs)));
  }

  lemma {:induction false} WholeAreRequests(crc: Checksum, bs: seq<Batch>)
    ensures forall r :: r in AllWhole(crc, bs) ==> r in Requests(bs)
  {
    if bs != [] {
      WholeAreRequests(crc, bs[..|bs| - 1]);
    }
  }

  lemma Regroup(a: Bytes, b: Bytes, c: Bytes)
    ensures a + b + c == a + (b + c)
  {
  }

  lemma SameTail(a: Bytes, b: Bytes, c: Bytes)
    ensures a + b == a + c <==> b == c
  {
    assert (a + b)[|a|..] == b && (a + c)[|a|..] == c;
  }

  /**
    * Answered nil, synced, and never to be read: a header without its record, left by a failed write, swallows the
    * frame that the next batch writes successfully.
    */
  lemma SyncedButUnreadable(crc: Checksum, x: Bytes, y: Bytes)
    requires IsUint32(|x|) && HEADER + |y| < |x|
    ensures var file := EncodeFrame(crc, x)[..HEADER] + EncodeFrame(crc, y);
            && Served(crc, [], file, |file|, [x, y], [false, true], [0, HEADER])
            && file == Remains(crc, [Batch([x], HEADER, false), Batch([y], HEADER + |y|, true)])
            && Parse(crc, file) == []
  {
    var bs := [Batch([x], HEADER, false), Batch([y], HEADER + |y|, true)];
    DecodeTornFrame(crc, x, HEADER, EncodeFrame(crc, y));
    ServedBehindHeader(crc, x, y);
    hide Served, EncodeFrame, Frames, DecodeFrame;
    FrameOfOne(crc, x);
    FrameOfOne(crc, y);
    assert BytesOf(crc, bs[0]) == EncodeFrame(crc, x)[..HEADER] && BytesOf(crc, bs[1]) == EncodeFrame(crc, y);
    hide BytesOf;
    assert bs[..1] == [bs[0]] && bs[..1][..0] == [];
    assert Remains(crc, bs[..1]) == [] + BytesOf(crc, bs[0]);
  }

  lemma FrameOfOne(crc: Checksum, x: Bytes)
    ensures Frames(crc, [x]) == EncodeFrame(crc, x)
  {
    FramesSnoc(crc, [], x);
    assert [] + [x] == [x];
  }

  lemma ServedBehindHeader(crc: Checksum, x: Bytes, y: Bytes)
    ensures var file := EncodeFrame(crc, x)[..HEADER] + EncodeFrame(crc, y);
            Served(crc, [], file, |file|, [x, y], [false, true], [0, HEADER])
  {
    GroupCommit.NoFrames(crc);
    assert [x, y][..0] == [];
    hide EncodeFrame, Frames;
    var file := EncodeFrame(crc, x)[..HEADER] + EncodeFrame(crc, y);
    assert file[HEADER..HEADER + |EncodeFrame(crc, y)|] == EncodeFrame(crc, y);
    assert forall k :: 1 <= k <= 2 ==> !AllNil([false, true], k) by { assert ![false, true][0]; }
  }

  /** The batches account for every request, every reply and every byte. */
  ghost predicate History(
    crc: Checksum, before: Bytes, file: Bytes, requests: seq<Bytes>, replies: seq<bool>, bs: seq<Batch>)
  {
    && (forall b :: b in bs ==> Possible(crc, b))
    && Requests(bs) == requests && Replies(bs) == replies && file == before + Remains(crc, bs)
  }

  lemma BatchSnoc(crc: Checksum, bs: seq<Batch>, b: Batch)
    ensures Requests(bs + [b]) == Requests(bs) + b.records
    ensures Replies(bs + [b]) == Replies(bs) + Same(b.ok, |b.records|)
    ensures Remains(crc, bs + [b]) == Remains(crc, bs) + BytesOf(crc, b)
  {
    hide BytesOf;
    assert (bs + [b])[..|bs|] == bs;
  }

  lemma PartOf(crc: Checksum, had: Bytes, file: Bytes, batch: seq<Bytes>, ok: bool)
    requires had <= file <= had + Frames(crc, batch) && (ok ==> file == had + Frames(crc, batch))
    ensures var b := Batch(batch, |file| - |had|, ok); Possible(crc, b) && file == had + BytesOf(crc, b)
  {
    hide Frames;
    var part := file[|had|..];
    assert file == had + part;
    assert part == (had + Frames(crc, batch))[..|file|][|had|..] == Frames(crc, batch)[..|part|];
  }

  lemma HistoryGrows(
    crc: Checksum, before: Bytes, had: Bytes, file: Bytes, requests: seq<Bytes>, replies: seq<bool>, bs: seq<Batch>,
    batch: seq<Bytes>, ok: bool)
    requires History(crc, before, had, requests, replies, bs)
    requires had <= file <= had + Frames(crc, batch) && (ok ==> file == had + Frames(crc, batch))
    ensures History(crc, before, file, requests + batch, replies + Same(ok, |batch|),
                    bs + [Batch(batch, |file| - |had|, ok)])
  {
    hide Frames, BytesOf, Possible, Requests, Replies, Remains, Same;
    var b := Batch(batch, |file| - |had|, ok);
    PartOf(crc, had, file, batch, ok);
    BatchSnoc(crc, bs, b);
    Regroup(before, Remains(crc, bs), BytesOf(crc, b));
  }

  /** The two accounts of a loop that has got as far as the replies. */
  ghost predicate SoFar(
    crc: Checksum, before: Bytes, file: Bytes, synced: nat, requests: seq<Bytes>, replies: seq<bool>, at: seq<nat>,
    bs: seq<Batch>)
  {
    && Served(crc, before, file, synced, requests, replies, at)
    && History(crc, before, file, requests[..|replies|], replies, bs)
  }

  lemma SoFarIsAll(
    crc: Checksum, before: Bytes, file: Bytes, synced: nat, requests: seq<Bytes>, replies: seq<bool>, at: seq<nat>,
    bs: seq<Batch>)
    requires SoFar(crc, before, file, synced, requests, replies, at, bs) && |replies| == |requests|
    ensures Served(crc, before, file, synced, requests, replies, at)
    ensures History(crc, before, file, requests, replies, bs)
  {
    hide Served, History;
    assert requests[..|replies|] == requests;
  }

  lemma NothingYet(crc: Checksum, file: Bytes, synced: nat, requests: seq<Bytes>)
    requires synced <= |file|
    ensures SoFar(crc, file, file, synced, requests, [], [], [])
  {
    assert Frames(crc, requests[..0]) == [];
  }

  lemma NextBatch(
    crc: Checksum, before: Bytes, had: Bytes, hadSynced: nat, file: Bytes, synced: nat,
    requests: seq<Bytes>, replies: seq<bool>, at: seq<nat>, bs: seq<Batch>, upTo: nat, ok: bool)
    requires SoFar(crc, before, had, hadSynced, requests, replies, at, bs) && |replies| < upTo <= |requests|
    requires var batch := requests[|replies|..upTo];
             && had <= file <= had + Frames(crc, batch)
             && (if ok then file == had + Frames(crc, batch) && synced == |file| else synced == hadSynced)
    ensures var batch := requests[|replies|..upTo];
            SoFar(crc, before, file, synced, requests, replies + Same(ok, |batch|), at + StartsOf(crc, |had|, batch),
                  bs + [Batch(batch, |file| - |had|, ok)])
  {
    hide Frames, Served, History;
    var batch := requests[|replies|..upTo];
    assert |replies| + |batch| == upTo && requests[..|replies|] + batch == requests[..upTo];
    assert |replies| == |at| by { AtEach(crc, before, had, hadSynced, requests, replies, at); }
    ServeBatch(crc, before, had, hadSynced, file, synced, requests, replies, at, upTo, ok);
    HistoryGrows(crc, before, had, file, requests[..|replies|], replies, bs, batch, ok);
  }

  lemma AtEach(
    crc: Checksum, before: Bytes, file: Bytes, synced: nat, requests: seq<Bytes>, replies: seq<bool>, at: seq<nat>)
    requires Served(crc, before, file, synced, requests, replies, at)
    ensures |replies| == |at| <= |requests|
  {
  }

  /**
    * What the operating system answered while n frames were written and synced: every answer but the last is nil, and
    * the last decides; after n writes and a sync, all of them nil, the batch is good.
    */
  ghost predicate Tried(told: seq<bool>, n: nat, ok: bool) {
    && 1 <= |told| <= n + 1
    && (forall i :: 0 <= i < |told| - 1 ==> told[i])
    && told[|told| - 1] == ok
    && (ok ==> |told| == n + 1)
  }

  /** What it answered so far: i frames went out, and if there was an error it was the last answer. */
  ghost predicate Calls(told: seq<bool>, i: nat, ok: bool) {
    if ok then |told| == i && forall j :: 0 <= j < i ==> told[j]
    else |told| == i + 1 && !told[i] && forall j :: 0 <= j < i ==> told[j]
  }

  lemma CallsSnoc(told: seq<bool>, i: nat, ok: bool)
    requires Calls(told, i, true)
    ensures Calls(told + [ok], if ok then i + 1 else i, ok)
  {
  }

  lemma SyncTried(told: seq<bool>, n: nat, ok: bool)
    requires Calls(told, n, true)
    ensures Tried(told + [ok], n, ok)
  {
  }

  /** A batch on its way into the file: i frames are out, and part of the next if there was an error. */
  ghost predicate Writing(crc: Checksum, before: Bytes, file: Bytes, batch: seq<Bytes>, i: nat, ok: bool)
    requires i <= |batch|
  {
    && before <= file <= before + Frames(crc, batch)
    && (ok ==> file == before + Frames(crc, batch[..i]))
    && (!ok ==> i < |batch|)
  }

  lemma NothingWritten(crc: Checksum, file: Bytes, batch: seq<Bytes>)
    ensures Writing(crc, file, file, batch, 0, true) && Frames(crc, batch[..0]) == [] && Calls([], 0, true)
  {
    assert batch[..0] == [];
  }

  lemma WroteOne(crc: Checksum, before: Bytes, had: Bytes, batch: seq<Bytes>, i: nat, n: nat, ok: bool, file: Bytes)
    requires i < |batch| && Writing(crc, before, had, batch, i, true)
    requires n <= |EncodeFrame(crc, batch[i])| && (ok ==> n == |EncodeFrame(crc, batch[i])|)
    requires file == had + EncodeFrame(crc, batch[i])[..n]
    ensures Writing(crc, before, file, batch, if ok then i + 1 else i, ok)
    ensures |Frames(crc, batch[..i + 1])| == |Frames(crc, batch[..i])| + |EncodeFrame(crc, batch[i])|
  {
    hide Frames, EncodeFrame;
    GroupCommit.FramesOneMore(crc, batch, i);
  }

  lemma BatchWritten(
    crc: Checksum, before: Bytes, file: Bytes, batch: seq<Bytes>, i: nat, ok: bool, told: seq<bool>)
    requires i <= |batch| && Writing(crc, before, file, batch, i, ok) && Calls(told, i, ok) && (ok ==> i == |batch|)
    ensures before <= file <= before + Frames(crc, batch)
    ensures ok ==> file == before + Frames(crc, batch) && batch[..i] == batch
    ensures !ok ==> Tried(told, |batch|, false)
  {
    hide Frames;
    assert i == |batch| ==> batch[..i] == batch;
  }

  /** What it answered to each batch in turn. */
  ghost predicate TriedAll(bs: seq<Batch>, told: seq<bool>) {
    if bs == [] then told == [] else
    var n := |bs| - 1;
    exists k :: 0 <= k <= |told| && TriedAll(bs[..n], told[..k]) && Tried(told[k..], |bs[n].records|, bs[n].ok)
  }

  lemma TriedSnoc(bs: seq<Batch>, told: seq<bool>, b: Batch, more: seq<bool>)
    requires TriedAll(bs, told) && Tried(more, |b.records|, b.ok)
    ensures TriedAll(bs + [b], told + more)
  {
    hide Tried;
    var bs', told', k := bs + [b], told + more, |told|;
    assert bs'[..|bs|] == bs && told'[..k] == told && told'[k..] == more;
    assert TriedAll(bs'[..|bs|], told'[..k]) && Tried(told'[k..], |bs'[|bs|].records|, bs'[|bs|].ok);
  }

  class Wal {
    const crc: Checksum
    var file: Bytes               // what has been handed to the operating system
    var synced: nat               // how much of it is on disk
    var offset: nat               // the writer's own idea of the end of the file
    ghost var told: seq<bool>     // what the operating system has answered, call by call
    ghost var answers: seq<bool>  // what callers have been answered

    ghost predicate Valid()
      reads this
    {
      synced <= |file|
    }

    /** OpenWAL on a file with these contents, of which so much is on disk; opening syncs nothing. */
    constructor (crc: Checksum, contents: Bytes, onDisk: nat)
      requires onDisk <= |contents|
      ensures Valid() && this.crc == crc && file == contents && synced == onDisk && offset == |contents|
      ensures told == [] && answers == []
    {
      this.crc := crc;
      file, synced, offset, told, answers := contents, onDisk, |contents|, [], [];
    }

    /** os.File.Write: some part of the frame goes out; without an error, all of it. */
    method WriteBytes(frame: Bytes) returns (n: nat, ok: bool)
      modifies this`file, this`told
      ensures n <= |frame| && file == old(file) + frame[..n] && (ok ==> n == |frame|)
      ensures told == old(told) + [ok]
    {
      n, ok := *, *;
      if n >= |frame| {
        n := |frame|;
      } else {
        ok := false;
      }
      file := file + frame[..n];
      told := told + [ok];
    }

    /** os.File.Sync. */
    method SyncBytes() returns (ok: bool)
      modifies this`synced, this`told
      ensures synced == if ok then |file| else old(synced)
      ensures told == old(told) + [ok]
    {
      ok := *;
      if ok {
        synced := |file|;
      }
      told := told + [ok];
    }

    /** The body of run's loop for one batch: every frame, then one sync. It fails only if one of those calls does. */
    method WriteBatch(batch: seq<Bytes>) returns (ok: bool)
      requires Valid()
      modifies this`file, this`synced, this`offset, this`told
      ensures Valid()
      ensures old(told) <= told && Tried(told[|old(told)|..], |batch|, ok)
      ensures ok ==> file == old(file) + Frames(crc, batch) && synced == |file|
      ensures ok ==> offset == old(offset) + |Frames(crc, batch)|
      ensures !ok ==> synced == old(synced) && old(file) <= file <= old(file) + Frames(crc, batch)
    {
      hide Frames, EncodeFrame, Writing, Calls, Tried;
      ok := true;
      var i := 0;
      ghost var before, calls := file, [];
      NothingWritten(crc, file, batch);
      while i < |batch| && ok
        decreases |batch| - i, ok
        invariant i <= |batch| && synced == old(synced) && before == old(file)
        invariant Writing(crc, before, file, batch, i, ok)
        invariant ok ==> offset == old(offset) + |Frames(crc, batch[..i])|
        invariant told == old(told) + calls && Calls(calls, i, ok)
      {
        ghost var had := file;
        var n;
        n, ok := WriteBytes(EncodeFrame(crc, batch[i]));
        WroteOne(crc, before, had, batch, i, n, ok, file);
        CallsSnoc(calls, i, ok);
        calls := calls + [ok];
        if ok {
          offset := offset + n;
          i := i + 1;
        }
      }
      BatchWritten(crc, before, file, batch, i, ok, calls);
      if ok {
        ok := SyncBytes();
        SyncTried(calls, i, ok);
        calls := calls + [ok];
      }
      assert told[|old(told)|..] == calls;
    }

    /**
      * run, on everything sent before the channel is closed. The drain loop takes whatever is waiting, so the batches
      * are an arbitrary cut of the request order; after an error the loop goes on with the next batch. at[i] is where
      * the frame of request i starts if the caller was answered nil; batches is what happened.
      */
    method Run(requests: seq<Bytes>) returns (replies: seq<bool>, ghost at: seq<nat>, ghost batches: seq<Batch>)
      requires Valid()
      modifies this
      ensures Valid() && |replies| == |requests| && answers == old(answers) + replies
      ensures old(told) <= told && TriedAll(batches, told[|old(told)|..])
      ensures Served(crc, old(file), file, synced, requests, replies, at)
      ensures History(crc, old(file), file, requests, replies, batches)
    {
      hide Frames, SoFar, Same, Served, History, Tried;
      replies, at, batches := [], [], [];
      NothingYet(crc, file, synced, requests);
      while |replies| < |requests|
        invariant |replies| <= |requests| && Valid()
        invariant SoFar(crc, old(file), file, synced, requests, replies, at, batches)
        invariant answers == old(answers) && old(told) <= told && TriedAll(batches, told[|old(told)|..])
      {
        hide TriedAll;
        var upTo: nat :| |replies| < upTo <= |requests|;
        var batch := requests[|replies|..upTo];
        ghost var had, hadSynced, calls := file, synced, told;
        var ok := WriteBatch(batch);
        TriedSnoc(batches, calls[|old(told)|..], Batch(batch, |file| - |had|, ok), told[|calls|..]);
        assert told[|old(told)|..] == calls[|old(told)|..] + told[|calls|..];
        NextBatch(crc, old(file), had, hadSynced, file, synced, requests, replies, at, batches, upTo, ok);
        at := at + StartsOf(crc, |had|, batch);
        batches := batches + [Batch(batch, |file| - |had|, ok)];
        replies := replies + Same(ok, |batch|);
      }
      SoFarIsAll(crc, old(file), file, synced, requests, replies, at, batches);
      answers := answers + replies;
    }

    /** Append, when nothing else is waiting: a batch of one. */
    method Append(record: Bytes) returns (ok: bool)
      requires Valid()
      modifies this
      ensures Valid()
      ensures answers == old(answers) + [ok]
      ensures old(told) <= told && Tried(told[|old(told)|..], 1, ok)
      ensures ok ==> file == old(file) + EncodeFrame(crc, record) && synced == |file|
      ensures !ok ==> synced == old(synced) && old(file) <= file <= old(file) + EncodeFrame(crc, record)
    {
      ok := WriteBatch([record]);
      answers := answers + [ok];
      FramesSnoc(crc, [], record);
      assert [] + [record] == [record] && Frames(crc, []) == [];
    }

    /** Replay's loop over the file: the records it hands to apply, in order. */
    method Replay() returns (records: seq<Bytes>)
      ensures records == Parse(crc, file)
    {
      records := [];
      var rest := file;
      while true
        invariant records + Parse(crc, rest) == Parse(crc, file)
        decreases |rest|
      {
        hide DecodeFrame;
        match DecodeFrame(crc, rest) {
          case Frame(record, next) =>
            assert records + ([record] + Parse(crc, next)) == records + [record] + Parse(crc, next);
            records, rest := records + [record], next;
          case _ =>
            break;
        }
      }
    }
  }

  lemma BatchFrameAt(crc: Checksum, had: Bytes, batch: seq<Bytes>, i: nat)
    requires i < |batch|
    ensures var file, frame := had + Frames(crc, batch), EncodeFrame(crc, batch[i]);
            var at := |had| + |Frames(crc, batch[..i])|;
            at + |frame| <= |file| && file[at..at + |frame|] == frame
  {
    hide Frames, EncodeFrame;
    GroupCommit.FramesOneMore(crc, batch, i);
  }

  lemma BatchExtends(crc: Checksum, before: Bytes, had: Bytes, requests: seq<Bytes>, next: nat, upTo: nat)
    requires next <= upTo <= |requests|
    ensures had == before + Frames(crc, requests[..next]) ==>
              had + Frames(crc, requests[next..upTo]) == before + Frames(crc, requests[..upTo])
  {
    hide Frames;
    FramesAppend(crc, requests[..next], requests[next..upTo]);
    assert requests[..next] + requests[next..upTo] == requests[..upTo];
  }

  lemma PrefixOfPrefix(crc: Checksum, requests: seq<Bytes>, k: nat, n: nat)
    requires k <= n <= |requests|
    ensures Frames(crc, requests[..k]) <= Frames(crc, requests[..n])
  {
    FramesPrefix(crc, requests[..n], k);
    assert requests[..n][..k] == requests[..k];
  }
}
