/** record.go: the body of a log record, [op uint8][op-specific fields]. */
module Codec {
  import opened ByteStrings

  /** A UUID: opaque, 16 bytes. */
  type Id = b: Bytes | |b| == 16 witness seq(16, i => 0)

  /** A Go string is a byte string; the empty key means "no idempotency key". */
  type Key = Bytes

  /** Nanoseconds since the Unix epoch. */
  type Time = int

  /** time.Time{} (year 1), which lies below every int64 nanosecond count. */
  const ZERO_TIME: Time := -62_135_596_800_000_000_000

  datatype Record =
    | Enqueue(id: Id, key: Key, payload: Bytes, enqueuedAt: Time, priority: int)
    | Dequeue(id: Id, leaseUntil: Time, owner: Bytes)
    | Ack(id: Id)
    | Retry(id: Id)
    | Dead(id: Id, retries: int, failedAt: Time)
    | Requeue(id: Id)
    | Purge(id: Id)

  datatype DecodeError = EmptyBody | UnknownOp(op: Byte) | TooShort(need: int, pos: int, have: int)

  datatype Result<+T> = Ok(value: T) | Err(error: DecodeError) {
    predicate IsFailure() { Err? }
    function PropagateFailure<U>(): Result<U> requires Err? { Err(error) }
    function Extract(): T requires Ok? { value }
  }

  /** The values whose fixed-width encodings lose nothing. */
  predicate InBounds(r: Record) {
    match r
    case Enqueue(_, key, payload, enqueuedAt, priority) =>
      IsUint32(|key|) && IsUint32(|payload|) && IsInt64(enqueuedAt) && IsUint32(priority)
    case Dequeue(_, leaseUntil, owner) => IsInt64(leaseUntil) && IsUint32(|owner|)
    case Dead(_, retries, failedAt) => IsUint32(retries) && IsInt64(failedAt)
    case _ => true
  }

  // --- encoders ---

  function OpTag(r: Record): Byte {
    match r
    case Enqueue(_, _, _, _, _) => 1
    case Dequeue(_, _, _) => 2
    case Ack(_) => 3
    case Retry(_) => 4
    case Dead(_, _, _) => 5
    case Requeue(_) => 6
    case Purge(_) => 7
  }

  /** A variable-length field: its length as a uint32, then its bytes. */
  function Prefixed(b: Bytes): Bytes {
    PutUint32(|b|) + b
  }

  /** encodeEnqueuePayload and its six siblings. */
  function EncodeFields(r: Record): Bytes {
    match r
    case Enqueue(id, key, payload, enqueuedAt, priority) =>
      id + Prefixed(key) + Prefixed(payload) + PutInt64(enqueuedAt) + PutUint32(priority)
    case Dequeue(id, leaseUntil, owner) => id + PutInt64(leaseUntil) + Prefixed(owner)
    case Dead(id, retries, failedAt) => id + PutUint32(retries) + PutInt64(failedAt)
    case _ => r.id
  }

  /** encodeRecord over the op's encoded fields. */
  function EncodeRecord(r: Record): Bytes {
    [OpTag(r)] + EncodeFields(r)
  }

  // --- decoders ---

  /** readN: the next n bytes from pos and the advanced position. */
  function ReadN(b: Bytes, pos: nat, n: int): (r: Result<(Bytes, nat)>)
    ensures r.Ok? <==> 0 <= n && pos + n <= |b|
    ensures r.Ok? ==> r.value == (b[pos..pos + n], pos + n)
  {
    if n < 0 || pos + n > |b| then Err(TooShort(n, pos, |b|)) else Ok((b[pos..pos + n], pos + n))
  }

  function ReadPrefixed(b: Bytes, pos: nat): Result<(Bytes, nat)> {
    var (lenBytes, pos) :- ReadN(b, pos, 4);
    ReadN(b, pos, Uint32(lenBytes))
  }

  function DecodeEnqueue(b: Bytes): Result<Record> {
    var (id, pos) :- ReadN(b, 0, 16);
    var (key, pos) :- ReadPrefixed(b, pos);
    var (payload, pos) :- ReadPrefixed(b, pos);
    var (enq, pos) :- ReadN(b, pos, 8);
    var (prio, pos) :- ReadN(b, pos, 4);
    Ok(Enqueue(id, key, payload, Int64(enq), Uint32(prio)))
  }

  function DecodeDequeue(b: Bytes): Result<Record> {
    var (id, pos) :- ReadN(b, 0, 16);
    var (lease, pos) :- ReadN(b, pos, 8);
    var (owner, pos) :- ReadPrefixed(b, pos);
    Ok(Dequeue(id, Int64(lease), owner))
  }

  function DecodeDead(b: Bytes): Result<Record> {
    var (id, pos) :- ReadN(b, 0, 16);
    var (ret, pos) :- ReadN(b, pos, 4);
    var (fail, pos) :- ReadN(b, pos, 8);
    Ok(Dead(id, Uint32(ret), Int64(fail)))
  }

  /** decodeAckPayload and the other decoders of an ID-only payload. */
  function DecodeIdOnly(b: Bytes): Result<Id> {
    var (id, _) :- ReadN(b, 0, 16);
    Ok(id)
  }

  function DecodeRecord(body: Bytes): Result<Record> {
    if |body| == 0 then Err(EmptyBody) else
    var fields := body[1..];
    match body[0]
    case 1 => DecodeEnqueue(fields)
    case 2 => DecodeDequeue(fields)
    case 3 => var id :- DecodeIdOnly(fields); Ok(Ack(id))
    case 4 => var id :- DecodeIdOnly(fields); Ok(Retry(id))
    case 5 => DecodeDead(fields)
    case 6 => var id :- DecodeIdOnly(fields); Ok(Requeue(id))
    case 7 => var id :- DecodeIdOnly(fields); Ok(Purge(id))
    case op => Err(UnknownOp(op))
  }

  // --- the codec is a prefix code ---

  /** Reading back a field that starts at pos. */
  lemma ReadAt(pre: Bytes, field: Bytes, post: Bytes)
    ensures ReadN(pre + field + post, |pre|, |field|) == Ok((field, |pre| + |field|))
  {
    assert (pre + field + post)[|pre|..|pre| + |field|] == field;
  }

  lemma ReadPrefixedAt(pre: Bytes, field: Bytes, post: Bytes)
    requires IsUint32(|field|)
    ensures ReadPrefixed(pre + Prefixed(field) + post, |pre|) == Ok((field, |pre| + |Prefixed(field)|))
  {
    hide PutUint32, Uint32, PutInt64, Int64;
    var len := PutUint32(|field|);
    ReadAt(pre, len, field + post);
    Uint32OfPut(|field|);
    ReadAt(pre + len, field, post);
    assert pre + Prefixed(field) + post == pre + len + (field + post) == pre + len + field + post;
  }

  /** Where each field of an enqueue body starts. */
  lemma EnqueueFieldsAt(b: Bytes, id: Bytes, k: Bytes, p: Bytes, e: Bytes, q: Bytes, suffix: Bytes)
    requires b == id + k + p + e + q + suffix
    ensures b == [] + id + (k + p + e + q + suffix)
    ensures b == id + k + (p + e + q + suffix)
    ensures b == (id + k) + p + (e + q + suffix)
    ensures b == (id + k + p) + e + (q + suffix)
    ensures b == (id + k + p + e) + q + suffix
  {
  }

  lemma DecodeEnqueueAt(r: Record, suffix: Bytes)
    requires r.Enqueue? && InBounds(r)
    ensures DecodeEnqueue(EncodeFields(r) + suffix) == Ok(r)
  {
    hide PutUint32, Uint32, PutInt64, Int64;
    var e, q := PutInt64(r.enqueuedAt), PutUint32(r.priority);
    Int64OfPut(r.enqueuedAt);
    Uint32OfPut(r.priority);
    DecodeEnqueueParts(r.id, r.key, r.payload, e, q, suffix);
  }

  lemma DecodeEnqueueParts(id: Id, key: Key, payload: Bytes, e: Bytes, q: Bytes, suffix: Bytes)
    requires IsUint32(|key|) && IsUint32(|payload|) && |e| == 8 && |q| == 4
    ensures DecodeEnqueue(id + Prefixed(key) + Prefixed(payload) + e + q + suffix)
            == Ok(Enqueue(id, key, payload, Int64(e), Uint32(q)))
  {
    var k, p := Prefixed(key), Prefixed(payload);
    var b := id + k + p + e + q + suffix;
    EnqueueFieldsAt(b, id, k, p, e, q, suffix);
    ReadAt([], id, k + p + e + q + suffix);
    ReadPrefixedAt(id, key, p + e + q + suffix);
    ReadPrefixedAt(id + k, payload, e + q + suffix);
    ReadAt(id + k + p, e, q + suffix);
    ReadAt(id + k + p + e, q, suffix);
  }

  /** Where each field of a three-field body starts. */
  lemma ThreeFieldsAt(b: Bytes, id: Bytes, x: Bytes, y: Bytes, suffix: Bytes)
    requires b == id + x + y + suffix
    ensures b == [] + id + (x + y + suffix)
    ensures b == id + x + (y + suffix)
    ensures b == (id + x) + y + suffix
  {
  }

  lemma DecodeDequeueAt(r: Record, suffix: Bytes)
    requires r.Dequeue? && InBounds(r)
    ensures DecodeDequeue(EncodeFields(r) + suffix) == Ok(r)
  {
    hide PutUint32, Uint32, PutInt64, Int64, Prefixed;
    var l, o := PutInt64(r.leaseUntil), Prefixed(r.owner);
    ThreeFieldsAt(EncodeFields(r) + suffix, r.id, l, o, suffix);
    Int64OfPut(r.leaseUntil);
    ReadAt([], r.id, l + o + suffix);
    ReadAt(r.id, l, o + suffix);
    ReadPrefixedAt(r.id + l, r.owner, suffix);
  }

  lemma DecodeDeadAt(r: Record, suffix: Bytes)
    requires r.Dead? && InBounds(r)
    ensures DecodeDead(EncodeFields(r) + suffix) == Ok(r)
  {
    hide PutUint32, Uint32, PutInt64, Int64;
    var n, f := PutUint32(r.retries), PutInt64(r.failedAt);
    ThreeFieldsAt(EncodeFields(r) + suffix, r.id, n, f, suffix);
    Uint32OfPut(r.retries);
    Int64OfPut(r.failedAt);
    ReadAt([], r.id, n + f + suffix);
    ReadAt(r.id, n, f + suffix);
    ReadAt(r.id + n, f, suffix);
  }

  /** Decoding an encoded record followed by anything returns the record. */
  lemma DecodeInvertsEncode(r: Record, suffix: Bytes)
    requires InBounds(r)
    ensures DecodeRecord(EncodeRecord(r) + suffix) == Ok(r)
  {
    hide DecodeEnqueue, DecodeDequeue, DecodeDead, PutUint32, PutInt64, Prefixed;
    var body := EncodeRecord(r) + suffix;
    assert body[1..] == EncodeFields(r) + suffix;
    match r
    case Enqueue(_, _, _, _, _) => DecodeEnqueueAt(r, suffix);
    case Dequeue(_, _, _) => DecodeDequeueAt(r, suffix);
    case Dead(_, _, _) => DecodeDeadAt(r, suffix);
    case _ =>
      assert body[1..] == [] + r.id + suffix;
      ReadAt([], r.id, suffix);
  }

  /** A length-prefixed read re-encodes to exactly the bytes it consumed. */
  lemma ReadPrefixedSound(b: Bytes, pos: nat)
    ensures ReadPrefixed(b, pos).Ok? ==>
              var (field, next) := ReadPrefixed(b, pos).value;
              pos <= next <= |b| && IsUint32(|field|) && Prefixed(field) == b[pos..next]
  {
    hide PutUint32, Uint32, PutInt64, Int64;
    if ReadPrefixed(b, pos).Ok? {
      var (field, next) := ReadPrefixed(b, pos).value;
      PutOfUint32(b[pos..pos + 4]);
      assert b[pos..next] == b[pos..pos + 4] + b[pos + 4..next];
    }
  }

  lemma Adjacent(b: Bytes, i: nat, j: nat)
    requires i <= j <= |b|
    ensures b[..i] + b[i..j] == b[..j]
  {
  }

  lemma DecodeEnqueueSound(b: Bytes)
    requires DecodeEnqueue(b).Ok?
    ensures var r := DecodeEnqueue(b).value; r.Enqueue? && InBounds(r) && EncodeFields(r) <= b
  {
    hide PutUint32, Uint32, PutInt64, Int64;
    var p0 := 16;
    ReadPrefixedSound(b, p0);
    var (key, p1) := ReadPrefixed(b, p0).value;
    ReadPrefixedSound(b, p1);
    var (payload, p2) := ReadPrefixed(b, p1).value;
    PutOfInt64(b[p2..p2 + 8]);
    PutOfUint32(b[p2 + 8..p2 + 12]);
    var r := DecodeEnqueue(b).value;
    assert b[0..16] == b[..16];
    Adjacent(b, p0, p1);
    Adjacent(b, p1, p2);
    Adjacent(b, p2, p2 + 8);
    Adjacent(b, p2 + 8, p2 + 12);
    assert EncodeFields(r) == b[..p2 + 12];
  }

  lemma DecodeDequeueSound(b: Bytes)
    requires DecodeDequeue(b).Ok?
    ensures var r := DecodeDequeue(b).value; r.Dequeue? && InBounds(r) && EncodeFields(r) <= b
  {
    hide PutUint32, Uint32, PutInt64, Int64;
    PutOfInt64(b[16..24]);
    ReadPrefixedSound(b, 24);
    var (owner, p) := ReadPrefixed(b, 24).value;
    assert b[0..16] == b[..16];
    Adjacent(b, 16, 24);
    Adjacent(b, 24, p);
    assert EncodeFields(DecodeDequeue(b).value) == b[..p];
  }

  lemma DecodeDeadSound(b: Bytes)
    requires DecodeDead(b).Ok?
    ensures var r := DecodeDead(b).value; r.Dead? && InBounds(r) && EncodeFields(r) <= b
  {
    hide PutUint32, Uint32, PutInt64, Int64;
    PutOfUint32(b[16..20]);
    PutOfInt64(b[20..28]);
    assert b[0..16] == b[..16];
    Adjacent(b, 16, 20);
    Adjacent(b, 20, 28);
    assert EncodeFields(DecodeDead(b).value) == b[..28];
  }

  /** Whatever body decodes, the result is in bounds and re-encodes to a prefix of that body. */
  lemma EncodeInvertsDecode(body: Bytes)
    requires DecodeRecord(body).Ok?
    ensures InBounds(DecodeRecord(body).value)
    ensures EncodeRecord(DecodeRecord(body).value) <= body
  {
    hide DecodeEnqueue, DecodeDequeue, DecodeDead, PutUint32, PutInt64, Prefixed;
    var fields := body[1..];
    match body[0]
    case 1 => DecodeEnqueueSound(fields);
    case 2 => DecodeDequeueSound(fields);
    case 5 => DecodeDeadSound(fields);
    case _ => assert fields[0..16] == fields[..16];
  }

  /** The round trip holds exactly on the records within the field widths. */
  lemma RoundTripIffInBounds(r: Record)
    ensures DecodeRecord(EncodeRecord(r)) == Ok(r) <==> InBounds(r)
  {
    hide EncodeRecord, DecodeRecord;
    if InBounds(r) {
      DecodeInvertsEncode(r, []);
      assert EncodeRecord(r) + [] == EncodeRecord(r);
    } else if DecodeRecord(EncodeRecord(r)) == Ok(r) {
      EncodeInvertsDecode(EncodeRecord(r));
    }
  }

  /** A body cut anywhere short of its end never decodes. */
  lemma StrictPrefixRejected(r: Record, cut: nat)
    requires InBounds(r) && cut < |EncodeRecord(r)|
    ensures DecodeRecord(EncodeRecord(r)[..cut]).Err?
  {
    hide EncodeRecord, DecodeRecord;
    var full := EncodeRecord(r);
    var torn := full[..cut];
    if DecodeRecord(torn).Ok? {
      var r' := DecodeRecord(torn).value;
      EncodeInvertsDecode(torn);
      var e := EncodeRecord(r');
      assert full == e + full[|e|..];
      assert full + [] == full;
      DecodeInvertsEncode(r, []);
      DecodeInvertsEncode(r', full[|e|..]);
    }
  }

  /** Consecutive fields lie where their lengths put them. */
  lemma Segments(b: Bytes, x: Bytes, y: Bytes, z: Bytes, w: Bytes)
    requires b == x + y + z + w
    ensures var i, j := |x|, |x| + |y|;
            b[..i] == x && b[i..j] == y && b[j..j + |z|] == z && b[j + |z|..] == w && |b| == j + |z| + |w|
  {
  }

  /** The layout of an Enqueue record: number, ID, key and payload behind their lengths, time, priority. */
  lemma EnqueueFormat(r: Record)
    requires r.Enqueue?
    ensures var b, k, p := EncodeRecord(r), 21 + |r.key|, 25 + |r.key| + |r.payload|;
            && |b| == p + 12 && b[0] == 1 && b[1..17] == r.id
            && b[17..21] == PutUint32(|r.key|) && b[21..k] == r.key
            && b[k..k + 4] == PutUint32(|r.payload|) && b[k + 4..p] == r.payload
            && b[p..p + 8] == PutInt64(r.enqueuedAt) && b[p + 8..p + 12] == PutUint32(r.priority)
  {
    hide PutUint32, PutInt64;
    var b, k, p := EncodeRecord(r), 21 + |r.key|, 25 + |r.key| + |r.payload|;
    var head, len, tail := [1] + r.id, PutUint32(|r.key|), PutInt64(r.enqueuedAt) + PutUint32(r.priority);
    var rest := PutUint32(|r.payload|) + r.payload + tail;
    assert b == head + len + r.key + rest;
    Segments(b, head, len, r.key, rest);
    Segments(rest, PutUint32(|r.payload|), r.payload, PutInt64(r.enqueuedAt), PutUint32(r.priority));
    assert b[k..] == rest;
  }

  /** The layout of the others. */
  lemma WireFormat(r: Record)
    requires !r.Enqueue?
    ensures var b := EncodeRecord(r);
            && |b| >= 17 && b[1..17] == r.id
            && match r {
                 case Dequeue(_, leaseUntil, owner) =>
                   && |b| == 29 + |owner| && b[0] == 2
                   && b[17..25] == PutInt64(leaseUntil) && b[25..29] == PutUint32(|owner|) && b[29..] == owner
                 case Ack(_) => |b| == 17 && b[0] == 3
                 case Retry(_) => |b| == 17 && b[0] == 4
                 case Dead(_, retries, failedAt) =>
                   |b| == 29 && b[0] == 5 && b[17..21] == PutUint32(retries) && b[21..29] == PutInt64(failedAt)
                 case Requeue(_) => |b| == 17 && b[0] == 6
                 case Purge(_) => |b| == 17 && b[0] == 7
                 case _ => true
               }
  {
    hide PutUint32, PutInt64;
  }
}
