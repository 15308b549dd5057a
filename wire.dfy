/** Optional values, for the partial conversions of the wire format. */
module Wrappers {
  datatype Option<+T> = None | Some(value: T)
}

/**
 * Bytes and the little-endian, two's-complement 32-bit integers that the
 * packed structs of the protocol carry (C#'s `byte` and `int`).
 */
module Wire {

  /** An unsigned 8-bit value. */
  type byte = x: int | 0 <= x < 256

  /** A signed 32-bit value. */
  type int32 = x: int | -0x8000_0000 <= x < 0x8000_0000

  /** The C# cast `(byte)x`: keep the value modulo 256. */
  function Truncate8(x: int): (b: byte)
    ensures 0 <= x < 256 ==> b == x
    ensures (x - b) % 256 == 0
  {
    x % 256
  }

  /** The 32-bit pattern of `x` read as an unsigned number. */
  function Unsigned32(x: int32): (u: nat)
    ensures u < 0x1_0000_0000
    ensures (u - x) % 0x1_0000_0000 == 0
  {
    if x < 0 then x + 0x1_0000_0000 else x
  }

  /** Writes `x` as four bytes, least significant first. */
  function EncodeInt32(x: int32): (b: seq<byte>)
    ensures |b| == 4
    ensures DecodeInt32(b) == x
  {
    var u := Unsigned32(x);
    DecodeEncodeUnsigned(u);
    [u % 0x100, (u / 0x100) % 0x100, (u / 0x1_0000) % 0x100, u / 0x100_0000]
  }

  /** Reads four bytes, least significant first, as an unsigned number. */
  function DecodeUnsigned32(b: seq<byte>): (u: nat)
    requires |b| == 4
    ensures u < 0x1_0000_0000
    ensures u >= 0x8000_0000 <==> b[3] >= 0x80
  {
    b[0] as int + 0x100 * (b[1] as int + 0x100 * (b[2] as int + 0x100 * b[3] as int))
  }

  /** Reads four bytes, least significant first, as a signed 32-bit value. */
  function DecodeInt32(b: seq<byte>): (x: int32)
    requires |b| == 4
    ensures x < 0 <==> b[3] >= 0x80
    ensures Unsigned32(x) == DecodeUnsigned32(b)
  {
    var u := DecodeUnsigned32(b);
    if u < 0x8000_0000 then u else u - 0x1_0000_0000
  }

  /** Splitting a number into its low byte and the rest, and joining them again. */
  lemma SplitByte(low: int, high: int)
    requires 0 <= low < 0x100 && 0 <= high
    ensures (low + 0x100 * high) % 0x100 == low
    ensures (low + 0x100 * high) / 0x100 == high
  {
  }

  lemma DecodeEncodeUnsigned(u: nat)
    requires u < 0x1_0000_0000
    ensures u / 0x100_0000 < 0x100
    ensures u % 0x100 + 0x100 * ((u / 0x100) % 0x100 + 0x100 * ((u / 0x1_0000) % 0x100 + 0x100 * (u / 0x100_0000))) == u
  {
    var q1 := u / 0x100;
    var q2 := q1 / 0x100;
    var q3 := q2 / 0x100;
    assert u == u % 0x100 + 0x100 * q1;
    assert q1 == q1 % 0x100 + 0x100 * q2;
    assert q2 == q2 % 0x100 + 0x100 * q3;
    assert q2 == u / 0x1_0000;
    assert q3 == u / 0x100_0000;
  }

  /** Every four bytes are the encoding of the value they decode to. */
  lemma EncodeDecodeInt32(b: seq<byte>)
    requires |b| == 4
    ensures EncodeInt32(DecodeInt32(b)) == b
  {
    var u := DecodeUnsigned32(b);
    var inner2: int := b[2] as int + 0x100 * b[3] as int;
    var inner1: int := b[1] as int + 0x100 * inner2;
    SplitByte(b[0], inner1);
    SplitByte(b[1], inner2);
    SplitByte(b[2], b[3]);
    assert u / 0x1_0000 == inner2 by {
      assert u / 0x1_0000 == (u / 0x100) / 0x100;
    }
    assert u / 0x100_0000 == b[3] by {
      assert u / 0x100_0000 == (u / 0x1_0000) / 0x100;
    }
  }
}
