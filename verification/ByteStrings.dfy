/** Byte strings and the big-endian integers of encoding/binary. */
module ByteStrings {

  type Byte = x: int | 0 <= x < 256
  type Bytes = seq<Byte>

  const TWO_32 := 0x1_0000_0000
  const TWO_63 := 0x8000_0000_0000_0000
  const TWO_64 := 0x1_0000_0000_0000_0000

  /** binary.BigEndian.PutUint32 of uint32(n): the conversion keeps n modulo 2^32. */
  function PutUint32(n: int): (b: Bytes)
    ensures |b| == 4
  {
    [n / 0x100_0000 % 256, n / 0x1_0000 % 256, n / 0x100 % 256, n % 256]
  }

  /** binary.BigEndian.Uint32, widened to a 64-bit int. */
  function Uint32(b: Bytes): (n: int)
    requires |b| == 4
    ensures 0 <= n < TWO_32
  {
    var b0: int, b1: int, b2: int, b3: int := b[0], b[1], b[2], b[3];
    b0 * 0x100_0000 + b1 * 0x1_0000 + b2 * 0x100 + b3
  }

  lemma Uint32OfPut(n: int)
    ensures Uint32(PutUint32(n)) == n % TWO_32
  {
    var a, b, c := n / 0x100, n / 0x1_0000, n / 0x100_0000;
    assert b == a / 0x100 && c == b / 0x100;
    assert n == 0x100 * a + n % 0x100 && a == 0x100 * b + a % 0x100 && b == 0x100 * c + b % 0x100;
    assert c == 0x100 * (c / 0x100) + c % 0x100;
  }

  /** The most significant byte comes first. */
  lemma BigEndian(n: int)
    requires IsUint32(n)
    ensures var b := PutUint32(n);
            b[0] as int * 0x100_0000 + b[1] as int * 0x1_0000 + b[2] as int * 0x100 + b[3] as int == n
  {
    Uint32OfPut(n);
  }

  lemma PutOfUint32(b: Bytes)
    requires |b| == 4
    ensures PutUint32(Uint32(b)) == b
  {
    var b0: int, b1: int, b2: int, b3: int := b[0], b[1], b[2], b[3];
    var n3 := b0 * 0x100 + b1;
    var n2 := n3 * 0x100 + b2;
    var n := n2 * 0x100 + b3;
    assert Uint32(b) == n;
    LastDigit(n2, b3);
    LastDigit(n3, b2);
    LastDigit(b0, b1);
    DivTwice(n);
    DivTwice(n2);
    assert n / 0x100_0000 == n2 / 0x1_0000 by { DivThrice(n); }
  }

  lemma LastDigit(q: int, r: Byte)
    ensures (q * 0x100 + r) / 0x100 == q && (q * 0x100 + r) % 0x100 == r
  {
  }

  lemma DivTwice(n: int)
    ensures n / 0x1_0000 == n / 0x100 / 0x100
  {
  }

  lemma DivThrice(n: int)
    ensures n / 0x100_0000 == n / 0x100 / 0x1_0000
  {
  }

  /** PutUint64 of uint64(n) for an int64 n: two's complement, high word first. */
  function PutInt64(n: int): (b: Bytes)
    ensures |b| == 8
  {
    PutUint32(n / TWO_32) + PutUint32(n)
  }

  /** int64(binary.BigEndian.Uint64(b)). */
  function Int64(b: Bytes): (n: int)
    requires |b| == 8
    ensures IsInt64(n)
  {
    var u := Uint32(b[..4]) * TWO_32 + Uint32(b[4..]);
    if u < TWO_63 then u else u - TWO_64
  }

  predicate IsInt64(n: int) {
    -TWO_63 <= n < TWO_63
  }

  predicate IsUint32(n: int) {
    0 <= n < TWO_32
  }

  lemma Int64OfPut(n: int)
    requires IsInt64(n)
    ensures Int64(PutInt64(n)) == n
  {
    hide PutUint32, Uint32;
    var b := PutInt64(n);
    assert b[..4] == PutUint32(n / TWO_32) && b[4..] == PutUint32(n);
    Uint32OfPut(n / TWO_32);
    Uint32OfPut(n);
  }

  /** Splitting a two's complement value into its 32-bit words. */
  lemma Words(hi: int, lo: int, n: int)
    requires IsUint32(hi) && IsUint32(lo)
    requires n == hi * TWO_32 + lo || n == (hi - TWO_32) * TWO_32 + lo
    ensures n / TWO_32 % TWO_32 == hi && n % TWO_32 == lo
  {
    var q := if n == hi * TWO_32 + lo then hi else hi - TWO_32;
    assert n == q * 0x1_0000_0000 + lo;
    assert n / 0x1_0000_0000 == q;
  }

  lemma PutOfInt64(b: Bytes)
    requires |b| == 8
    ensures PutInt64(Int64(b)) == b
  {
    hide PutUint32, Uint32;
    var b0, b1 := b[..4], b[4..];
    var hi, lo, n := Uint32(b0), Uint32(b1), Int64(b);
    Words(hi, lo, n);
    PutOfUint32(b0);
    PutOfUint32(b1);
    PutWraps(hi, n / TWO_32);
    PutWraps(lo, n);
    assert b == b0 + b1;
  }

  /** Two's complement, the most significant word first. */
  lemma BigEndian64(n: int)
    requires IsInt64(n)
    ensures var u := if n < 0 then n + TWO_64 else n;
            PutInt64(n) == PutUint32(u / TWO_32) + PutUint32(u % TWO_32)
            && IsUint32(u / TWO_32) && IsUint32(u % TWO_32)
  {
    var u := if n < 0 then n + TWO_64 else n;
    assert n < 0 ==> u / 0x1_0000_0000 == n / 0x1_0000_0000 + 0x1_0000_0000;
    PutWraps(u / TWO_32, n / TWO_32);
    PutWraps(u % TWO_32, n);
  }

  /** PutUint32 sees its argument only modulo 2^32. */
  lemma PutWraps(m: int, n: int)
    requires m % TWO_32 == n % TWO_32
    ensures PutUint32(m) == PutUint32(n)
  {
    Uint32OfPut(m);
    Uint32OfPut(n);
    PutOfUint32(PutUint32(m));
    PutOfUint32(PutUint32(n));
  }
}
