/** Bytes, fixed-width integers and their little- and big-endian encodings,
    as used by the telemetry frames, the SPI frames and the hex tools. */
module Bytes {

  /** An octet, as a Python `bytes` element or a C `uint8_t`. */
  type byte = x: int | 0 <= x < 256

  datatype Option<+T> = None | Some(value: T)

  const TWO_16: int := 0x1_0000
  const TWO_31: int := 0x8000_0000
  const TWO_32: int := 0x1_0000_0000

  predicate IsU32(x: int) { 0 <= x < TWO_32 }
  predicate IsI32(x: int) { -TWO_31 <= x < TWO_31 }

  /** `struct.unpack('<I', b)`: an unsigned 32-bit little-endian integer. */
  function U32Le(b: seq<byte>): (x: nat)
    requires |b| == 4
    ensures IsU32(x)
    ensures x % 256 == b[0]
  {
    b[0] as int + 0x100 * (b[1] as int) + 0x1_0000 * (b[2] as int) + 0x100_0000 * (b[3] as int)
  }

  /** The four little-endian bytes of an unsigned 32-bit integer. */
  function EncodeU32Le(x: nat): (b: seq<byte>)
    requires IsU32(x)
    ensures |b| == 4
  {
    [x % 0x100, (x / 0x100) % 0x100, (x / 0x1_0000) % 0x100, x / 0x100_0000]
  }

  lemma U32LeOfEncode(x: nat)
    requires IsU32(x)
    ensures U32Le(EncodeU32Le(x)) == x
  {
    var b := EncodeU32Le(x);
    var q1 := x / 0x100;
    var q2 := q1 / 0x100;
    assert x == b[0] + 0x100 * q1;
    assert q1 == b[1] + 0x100 * q2;
    assert q2 == x / 0x1_0000;
    assert q2 == b[2] + 0x100 * (q2 / 0x100);
    assert q2 / 0x100 == x / 0x100_0000;
  }

  /** Division by `d` of a number written with low part `lo` and high part `hi`. */
  lemma DivMulAdd(lo: int, hi: int, d: int)
    requires 0 <= lo < d
    ensures (lo + d * hi) / d == hi && (lo + d * hi) % d == lo
  {
    var n := lo + d * hi;
    var q, r := n / d, n % d;
    assert d * (q - hi) == lo - r;
    if q > hi {
      MulAtLeast(d, q - hi);
      assert false;
    } else if q < hi {
      MulAtLeast(d, hi - q);
      assert false;
    }
  }

  lemma {:induction false} MulAtLeast(d: int, k: int)
    requires d > 0 && k >= 1
    ensures d * k >= d
    decreases k
  {
    if k > 1 {
      MulAtLeast(d, k - 1);
      assert d * k == d * (k - 1) + d;
    }
  }

  lemma EncodeOfU32Le(b: seq<byte>)
    requires |b| == 4
    ensures EncodeU32Le(U32Le(b)) == b
  {
    var b0, b1, b2, b3 := b[0] as int, b[1] as int, b[2] as int, b[3] as int;
    DivMulAdd(b0, b1 + 0x100 * b2 + 0x1_0000 * b3, 0x100);
    DivMulAdd(b1, b2 + 0x100 * b3, 0x100);
    DivMulAdd(b0 + 0x100 * b1, b2 + 0x100 * b3, 0x1_0000);
    DivMulAdd(b2, b3, 0x100);
    DivMulAdd(b0 + 0x100 * b1 + 0x1_0000 * b2, b3, 0x100_0000);
  }

  /** `struct.unpack('<i', b)`: a two's-complement signed 32-bit little-endian integer. */
  function I32Le(b: seq<byte>): (x: int)
    requires |b| == 4
    ensures IsI32(x)
    ensures x < 0 <==> b[3] >= 0x80
  {
    var u := U32Le(b);
    if u < TWO_31 then u else u - TWO_32
  }

  /** The four little-endian two's-complement bytes of a signed 32-bit integer. */
  function EncodeI32Le(x: int): (b: seq<byte>)
    requires IsI32(x)
    ensures |b| == 4
  {
    EncodeU32Le(if x >= 0 then x else x + TWO_32)
  }

  lemma I32LeOfEncode(x: int)
    requires IsI32(x)
    ensures I32Le(EncodeI32Le(x)) == x
  {
    U32LeOfEncode(if x >= 0 then x else x + TWO_32);
  }

  lemma EncodeOfI32Le(b: seq<byte>)
    requires |b| == 4
    ensures EncodeI32Le(I32Le(b)) == b
  {
    EncodeOfU32Le(b);
  }

  /** `struct.unpack('<' + 'i' * n, b)` for a slice of exactly 4n bytes. */
  function I32SeqLe(b: seq<byte>): (xs: seq<int>)
    requires |b| % 4 == 0
    ensures |xs| == |b| / 4
    decreases |b|
  {
    if b == [] then [] else [I32Le(b[..4])] + I32SeqLe(b[4..])
  }

  lemma {:induction false} I32SeqLeAt(b: seq<byte>, k: nat)
    requires |b| % 4 == 0 && k < |b| / 4
    ensures I32SeqLe(b)[k] == I32Le(b[4 * k .. 4 * k + 4])
    decreases |b|
  {
    if k > 0 {
      I32SeqLeAt(b[4..], k - 1);
      assert b[4..][4 * (k - 1) .. 4 * (k - 1) + 4] == b[4 * k .. 4 * k + 4];
    }
  }

  predicate AllI32(xs: seq<int>) { forall i :: 0 <= i < |xs| ==> IsI32(xs[i]) }

  /** The little-endian encoding of a sequence of signed 32-bit integers, back to back. */
  function EncodeI32Seq(xs: seq<int>): (b: seq<byte>)
    requires AllI32(xs)
    ensures |b| == 4 * |xs|
  {
    if xs == [] then [] else EncodeI32Le(xs[0]) + EncodeI32Seq(xs[1..])
  }

  lemma {:induction false} I32SeqLeOfEncode(xs: seq<int>)
    requires AllI32(xs)
    ensures I32SeqLe(EncodeI32Seq(xs)) == xs
  {
    if xs != [] {
      var b := EncodeI32Seq(xs);
      assert b[..4] == EncodeI32Le(xs[0]);
      assert b[4..] == EncodeI32Seq(xs[1..]);
      I32LeOfEncode(xs[0]);
      I32SeqLeOfEncode(xs[1..]);
    }
  }

  lemma {:induction false} EncodeOfI32SeqLe(b: seq<byte>)
    requires |b| % 4 == 0
    ensures AllI32(I32SeqLe(b)) && EncodeI32Seq(I32SeqLe(b)) == b
    decreases |b|
  {
    if b != [] {
      EncodeOfI32SeqLe(b[4..]);
      EncodeOfI32Le(b[..4]);
      var xs := I32SeqLe(b);
      assert xs[1..] == I32SeqLe(b[4..]);
      assert b == b[..4] + b[4..];
    }
  }

  /** The four big-endian bytes of an unsigned 32-bit integer: `(uint8_t)(x >> 24)`, ..., `(uint8_t)x`. */
  function EncodeU32Be(x: nat): (b: seq<byte>)
    requires IsU32(x)
    ensures |b| == 4
  {
    [x / 0x100_0000, (x / 0x1_0000) % 0x100, (x / 0x100) % 0x100, x % 0x100]
  }

  /** `(b[0] << 24) | (b[1] << 16) | (b[2] << 8) | b[3]` as an unsigned 32-bit integer. */
  function U32Be(b: seq<byte>): (x: nat)
    requires |b| == 4
    ensures IsU32(x)
  {
    0x100_0000 * (b[0] as int) + 0x1_0000 * (b[1] as int) + 0x100 * (b[2] as int) + b[3] as int
  }

  lemma U32BeOfEncode(x: nat)
    requires IsU32(x)
    ensures U32Be(EncodeU32Be(x)) == x
  {
    var b := EncodeU32Be(x);
    assert EncodeU32Le(x) == [b[3], b[2], b[1], b[0]];
    U32LeOfEncode(x);
  }

  lemma EncodeOfU32Be(b: seq<byte>)
    requires |b| == 4
    ensures EncodeU32Be(U32Be(b)) == b
  {
    EncodeOfU32Le([b[3], b[2], b[1], b[0]]);
  }

  /** Chunks of bytes, back to back. */
  function Flatten(chunks: seq<seq<byte>>): seq<byte>
    decreases |chunks|
  {
    if chunks == [] then [] else Flatten(chunks[..|chunks| - 1]) + chunks[|chunks| - 1]
  }

  lemma {:induction false} FlattenCons(c: seq<byte>, chunks: seq<seq<byte>>)
    ensures Flatten([c] + chunks) == c + Flatten(chunks)
    decreases |chunks|
  {
    if chunks != [] {
      var all := [c] + chunks;
      assert all[..|all| - 1] == [c] + chunks[..|chunks| - 1];
      FlattenCons(c, chunks[..|chunks| - 1]);
    } else {
      var all := [c];
      assert all[..0] == [];
    }
  }
}
