/** wal.go: the frame layer, [len uint32][crc32 uint32][record], and the reader that stops at a torn tail. */
module Framing {
  import opened ByteStrings

  type Word = x: int | 0 <= x < TWO_32

  /** crc32.ChecksumIEEE; every result below holds for an arbitrary checksum function. */
  type Checksum = Bytes -> Word

  const HEADER := 8

  function EncodeFrame(crc: Checksum, record: Bytes): (frame: Bytes)
    ensures |frame| == HEADER + |record|
  {
    PutUint32(|record|) + PutUint32(crc(record)) + record
  }

  datatype FrameRead = Frame(record: Bytes, rest: Bytes) | CleanEof | UnexpectedEof | CorruptRecord

  /** io.ReadFull into a buffer of n bytes: which error it gives when b is too short. */
  function ShortRead(b: Bytes): FrameRead {
    if |b| == 0 then CleanEof else UnexpectedEof
  }

  /** decodeFrame: reads one frame from the bytes left in the reader. */
  function DecodeFrame(crc: Checksum, b: Bytes): (r: FrameRead)
    ensures r.Frame? ==> |r.rest| == |b| - HEADER - |r.record|
  {
    if |b| < HEADER then ShortRead(b) else
    var len, stored := Uint32(b[0..4]), Uint32(b[4..8]);
    var body := b[8..];
    if |body| < len then ShortRead(body) else
    var record := body[..len];
    if crc(record) != stored then CorruptRecord else Frame(record, body[len..])
  }

  /** Replay's loop: the records read before the first error that ends the log. */
  function Parse(crc: Checksum, b: Bytes): seq<Bytes>
    decreases |b|
  {
    match DecodeFrame(crc, b)
    case Frame(record, rest) => [record] + Parse(crc, rest)
    case _ => []
  }

  /** What the writer appends for a list of records. */
  function Frames(crc: Checksum, rs: seq<Bytes>): Bytes {
    if rs == [] then [] else EncodeFrame(crc, rs[0]) + Frames(crc, rs[1..])
  }

  /** Records whose length survives the uint32 length field. */
  predicate Framable(rs: seq<Bytes>) {
    forall r :: r in rs ==> IsUint32(|r|)
  }

  lemma {:induction false} FramesAppend(crc: Checksum, xs: seq<Bytes>, ys: seq<Bytes>)
    ensures Frames(crc, xs + ys) == Frames(crc, xs) + Frames(crc, ys)
  {
    if xs == [] {
      assert xs + ys == ys;
    } else {
      assert (xs + ys)[1..] == xs[1..] + ys;
      FramesAppend(crc, xs[1..], ys);
    }
  }

  lemma FramesSnoc(crc: Checksum, xs: seq<Bytes>, r: Bytes)
    ensures Frames(crc, xs + [r]) == Frames(crc, xs) + EncodeFrame(crc, r)
  {
    FramesAppend(crc, xs, [r]);
  }

  lemma FramesPrefix(crc: Checksum, rs: seq<Bytes>, k: nat)
    requires k <= |rs|
    ensures Frames(crc, rs[..k]) <= Frames(crc, rs)
  {
    hide Frames;
    FramesAppend(crc, rs[..k], rs[k..]);
    assert rs[..k] + rs[k..] == rs;
  }

  /** The reader gives back a whole frame and leaves what followed it. */
  lemma DecodeWholeFrame(crc: Checksum, record: Bytes, rest: Bytes)
    requires IsUint32(|record|)
    ensures DecodeFrame(crc, EncodeFrame(crc, record) + rest) == Frame(record, rest)
  {
    hide PutUint32, Uint32;
    var len, sum := PutUint32(|record|), PutUint32(crc(record));
    var b := EncodeFrame(crc, record) + rest;
    Uint32OfPut(|record|);
    Uint32OfPut(crc(record));
    assert b[0..4] == len && b[4..8] == sum && b[8..] == record + rest;
    assert (record + rest)[..|record|] == record && (record + rest)[|record|..] == rest;
  }

  /** A frame whose announced length is not there yet is read as the end of the log. */
  lemma DecodeTornFrame(crc: Checksum, record: Bytes, cut: nat, more: Bytes)
    requires IsUint32(|record|) && cut + |more| < |EncodeFrame(crc, record)|
    requires more != [] ==> HEADER <= cut
    ensures !DecodeFrame(crc, EncodeFrame(crc, record)[..cut] + more).Frame?
  {
    hide PutUint32, Uint32;
    var b := EncodeFrame(crc, record)[..cut] + more;
    if HEADER <= |b| {
      Uint32OfPut(|record|);
      assert b[0..4] == PutUint32(|record|);
    }
  }

  lemma ParseWholeFrame(crc: Checksum, record: Bytes, rest: Bytes)
    requires IsUint32(|record|)
    ensures Parse(crc, EncodeFrame(crc, record) + rest) == [record] + Parse(crc, rest)
  {
    hide EncodeFrame, DecodeFrame;
    DecodeWholeFrame(crc, record, rest);
  }

  /** How many frames of rs fit wholly in the first n bytes. */
  function WholeFrames(crc: Checksum, rs: seq<Bytes>, n: nat): (k: nat)
    ensures k <= |rs|
  {
    if rs == [] || n < |EncodeFrame(crc, rs[0])| then 0
    else 1 + WholeFrames(crc, rs[1..], n - |EncodeFrame(crc, rs[0])|)
  }

  /** It is the largest such number. */
  lemma {:induction false} WholeFramesFit(crc: Checksum, rs: seq<Bytes>, n: nat)
    ensures var k := WholeFrames(crc, rs, n);
            |Frames(crc, rs[..k])| <= n && (k < |rs| ==> n < |Frames(crc, rs[..k + 1])|)
  {
    var k := WholeFrames(crc, rs, n);
    if 0 < k {
      WholeFramesFit(crc, rs[1..], n - |EncodeFrame(crc, rs[0])|);
      assert rs[..k][1..] == rs[1..][..k - 1];
      assert k < |rs| ==> rs[..k + 1][1..] == rs[1..][..k];
    } else if rs != [] {
      assert rs[..1][1..] == [];
    }
  }

  /** Cut anywhere, the concatenated frames parse to exactly the records whose frames lie wholly before the cut. */
  lemma {:induction false} AnyCutRecovery(crc: Checksum, rs: seq<Bytes>, cut: nat)
    requires Framable(rs) && cut <= |Frames(crc, rs)|
    ensures Parse(crc, Frames(crc, rs)[..cut]) == rs[..WholeFrames(crc, rs, cut)]
  {
    hide EncodeFrame, DecodeFrame;
    var b := Frames(crc, rs)[..cut];
    if rs == [] {
      DecodeNothing(crc);
    } else {
      hide Parse;
      var frame, frames := EncodeFrame(crc, rs[0]), Frames(crc, rs[1..]);
      assert IsUint32(|rs[0]|);
      if cut < |frame| {
        assert b == frame[..cut] + [];
        ParseTornFrame(crc, rs[0], cut);
      } else {
        var tail := frames[..cut - |frame|];
        assert (frame + frames)[..cut] == frame + tail;
        ParseWholeFrame(crc, rs[0], tail);
        AnyCutRecovery(crc, rs[1..], cut - |frame|);
        var k := WholeFrames(crc, rs[1..], cut - |frame|);
        assert rs[..1 + k] == [rs[0]] + rs[1..][..k];
      }
    }
  }

  lemma ParseTornFrame(crc: Checksum, record: Bytes, cut: nat)
    requires IsUint32(|record|) && cut < |EncodeFrame(crc, record)|
    ensures Parse(crc, EncodeFrame(crc, record)[..cut] + []) == []
  {
    hide EncodeFrame, DecodeFrame;
    DecodeTornFrame(crc, record, cut, []);
  }

  lemma DecodeNothing(crc: Checksum)
    ensures DecodeFrame(crc, []) == CleanEof
  {
  }

  /** An uncut file parses back to the records that were appended. */
  lemma ParseInvertsFrames(crc: Checksum, rs: seq<Bytes>)
    requires Framable(rs)
    ensures Parse(crc, Frames(crc, rs)) == rs
  {
    hide EncodeFrame, DecodeFrame, Frames, Parse;
    var b := Frames(crc, rs);
    AnyCutRecovery(crc, rs, |b|);
    assert b[..|b|] == b;
    var k := WholeFrames(crc, rs, |b|);
    WholeFramesFit(crc, rs, |b|);
    if k < |rs| {
      FramesPrefix(crc, rs, k + 1);
    }
    assert rs[..|rs|] == rs;
  }

  /** An accepted frame is, byte for byte, the encoding of the record it yields. */
  lemma DecodeFrameSound(crc: Checksum, b: Bytes)
    requires DecodeFrame(crc, b).Frame?
    ensures var Frame(record, rest) := DecodeFrame(crc, b);
            b == EncodeFrame(crc, record) + rest && IsUint32(|record|)
  {
    hide PutUint32, Uint32;
    PutOfUint32(b[0..4]);
    PutOfUint32(b[4..8]);
    var Frame(record, rest) := DecodeFrame(crc, b);
    assert b[8..] == record + rest;
    assert b == b[0..4] + b[4..8] + (record + rest);
    assert b == b[0..4] + b[4..8] + record + rest;
  }

  /**
    * On arbitrary bytes: the accepted records re-encode to a prefix of the input,
    * and what follows that prefix does not start with a valid frame.
    */
  lemma {:induction false} ParseIsMaximalPrefix(crc: Checksum, b: Bytes)
    ensures Framable(Parse(crc, b))
    ensures Frames(crc, Parse(crc, b)) <= b
    ensures !DecodeFrame(crc, b[|Frames(crc, Parse(crc, b))|..]).Frame?
    decreases |b|
  {
    hide EncodeFrame, DecodeFrame;
    if DecodeFrame(crc, b).Frame? {
      var Frame(record, rest) := DecodeFrame(crc, b);
      DecodeFrameSound(crc, b);
      ParseIsMaximalPrefix(crc, rest);
      var rs := Parse(crc, rest);
      assert Parse(crc, b)[1..] == rs;
      var n := |Frames(crc, rs)|;
      assert rest == Frames(crc, rs) + rest[n..];
      assert b == EncodeFrame(crc, record) + Frames(crc, rs) + rest[n..];
      assert b[|Frames(crc, Parse(crc, b))|..] == rest[n..];
    } else {
      assert b[0..] == b;
    }
  }

  // --- reopening a file that ends in a torn frame (wal.go opens it with O_APPEND and never truncates) ---

  /** Whole frames followed by anything: the whole frames are read, then reading goes on in the rest. */
  lemma {:induction false} ParseAppend(crc: Checksum, rs: seq<Bytes>, rest: Bytes)
    requires Framable(rs)
    ensures Parse(crc, Frames(crc, rs) + rest) == rs + Parse(crc, rest)
  {
    hide EncodeFrame, Parse;
    if rs == [] {
      assert Frames(crc, rs) + rest == rest;
    } else {
      var frame, frames := EncodeFrame(crc, rs[0]), Frames(crc, rs[1..]);
      var more := frames + rest;
      assert frame + frames + rest == frame + more;
      assert IsUint32(|rs[0]|);
      ParseWholeFrame(crc, rs[0], more);
      ParseAppend(crc, rs[1..], rest);
      assert rs == [rs[0]] + rs[1..];
    }
  }

  /**
    * A torn frame whose header survived swallows what is appended after it: as long as the later
    * frames fit in the announced length, none of them is ever read again.
    */
  lemma TornTailHidesLaterFrames(crc: Checksum, rs: seq<Bytes>, torn: Bytes, cut: nat, later: seq<Bytes>)
    requires Framable(rs) && IsUint32(|torn|)
    requires HEADER <= cut < HEADER + |torn|
    requires cut + |Frames(crc, later)| < HEADER + |torn|
    ensures Parse(crc, Frames(crc, rs) + EncodeFrame(crc, torn)[..cut] + Frames(crc, later)) == rs
  {
    hide EncodeFrame, DecodeFrame, Frames;
    var more := Frames(crc, later);
    var rest := EncodeFrame(crc, torn)[..cut] + more;
    DecodeTornFrame(crc, torn, cut, more);
    assert Frames(crc, rs) + EncodeFrame(crc, torn)[..cut] + more == Frames(crc, rs) + rest;
    ParseAppend(crc, rs, rest);
    assert rs + [] == rs;
  }

  /** A record whose frame starts with a byte other than b. */
  lemma FrameStartingElsewhere(crc: Checksum, b: Byte) returns (record: Bytes)
    ensures IsUint32(|record|) && EncodeFrame(crc, record)[0] != b
  {
    record := if b == 0 then seq(0x100_0000, _ => 0) else [];
  }

  /** What was appended after a non-empty tail cannot always be read back. */
  lemma TailSpoilsSome(crc: Checksum, tail: Bytes) returns (later: seq<Bytes>)
    requires tail != []
    ensures Framable(later) && Parse(crc, tail + Frames(crc, later)) != later
  {
    var record := FrameStartingElsewhere(crc, tail[0]);
    later := [record];
    FramesSnoc(crc, [], record);
    assert [] + [record] == later && Frames(crc, later) == EncodeFrame(crc, record);
    hide EncodeFrame, Frames, Parse;
    ParseIsMaximalPrefix(crc, tail + Frames(crc, later));
    assert (tail + Frames(crc, later))[0] == tail[0];
  }

  /** A file takes any further frames, and gives them all back behind rs, if and only if it is the frames of rs. */
  lemma ReadsOnIffFrames(crc: Checksum, file: Bytes, rs: seq<Bytes>)
    requires Framable(rs)
    ensures (forall later | Framable(later) :: Parse(crc, file + Frames(crc, later)) == rs + later)
            <==> file == Frames(crc, rs)
  {
    hide Parse, EncodeFrame, Frames;
    if file == Frames(crc, rs) {
      forall later | Framable(later)
        ensures Parse(crc, file + Frames(crc, later)) == rs + later
      {
        ParseAppend(crc, rs, Frames(crc, later));
        ParseInvertsFrames(crc, later);
      }
    } else {
      var later := SomeNotReadBack(crc, file, rs);
    }
  }

  lemma SomeNotReadBack(crc: Checksum, file: Bytes, rs: seq<Bytes>) returns (later: seq<Bytes>)
    requires Framable(rs) && file != Frames(crc, rs)
    ensures Framable(later) && Parse(crc, file + Frames(crc, later)) != rs + later
  {
    if Parse(crc, file) == rs {
      ParseIsMaximalPrefix(crc, file);
      hide Parse, EncodeFrame, Frames, Framable;
      var tail := file[|Frames(crc, rs)|..];
      later := TailSpoilsSome(crc, tail);
      BehindTheTail(crc, rs, tail, later);
      assert Frames(crc, rs) + tail == file;
    } else {
      later := [];
      hide Parse, EncodeFrame;
      assert file + Frames(crc, later) == file && rs + later == rs;
    }
  }

  lemma BehindTheTail(crc: Checksum, rs: seq<Bytes>, tail: Bytes, later: seq<Bytes>)
    requires Framable(rs) && Parse(crc, tail + Frames(crc, later)) != later
    ensures Parse(crc, Frames(crc, rs) + tail + Frames(crc, later)) != rs + later
  {
    hide Parse, EncodeFrame, Frames;
    var rest := Parse(crc, tail + Frames(crc, later));
    assert Frames(crc, rs) + tail + Frames(crc, later) == Frames(crc, rs) + (tail + Frames(crc, later));
    ParseAppend(crc, rs, tail + Frames(crc, later));
    assert (rs + rest)[|rs|..] == rest && (rs + later)[|rs|..] == later;
  }

  /**
    * Exactly when reopening without truncating is safe. After a cut at any byte, every list of records appended
    * later is read back behind the surviving ones if and only if the cut fell between two frames.
    */
  lemma ReopenSafeIffBoundary(crc: Checksum, rs: seq<Bytes>, cut: nat)
    requires Framable(rs) && cut <= |Frames(crc, rs)|
    ensures var k := WholeFrames(crc, rs, cut);
            (forall later | Framable(later) ::
               Parse(crc, Frames(crc, rs)[..cut] + Frames(crc, later)) == rs[..k] + later)
            <==> cut == |Frames(crc, rs[..k])|
  {
    hide Parse, Frames, EncodeFrame;
    var k := WholeFrames(crc, rs, cut);
    FramesPrefix(crc, rs, k);
    ReadsOnIffFrames(crc, Frames(crc, rs)[..cut], rs[..k]);
  }

  /** The layout on disk: four bytes of length and four of checksum, the most significant first, then the record. */
  lemma FrameFormat(crc: Checksum, record: Bytes)
    requires IsUint32(|record|)
    ensures var b := EncodeFrame(crc, record);
            && |b| == 8 + |record| && b[8..] == record
            && b[0] as int * 0x100_0000 + b[1] as int * 0x1_0000 + b[2] as int * 0x100 + b[3] as int == |record|
            && b[4] as int * 0x100_0000 + b[5] as int * 0x1_0000 + b[6] as int * 0x100 + b[7] as int == crc(record)
  {
    BigEndian(|record|);
    BigEndian(crc(record));
    hide PutUint32;
  }
}
