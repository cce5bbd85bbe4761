/** Bytes and the 4-byte little-endian two's-complement integer that every
    file of the system stores its numbers in. */
module Bytes {

  type Byte = b: int | 0 <= b < 256

  const TWO_31: int := 0x8000_0000
  const TWO_32: int := 0x1_0000_0000

  predicate IsInt32(x: int) {
    -TWO_31 <= x < TWO_31
  }

  /** The four bytes of `x`, least significant first. */
  function EncodeInt32(x: int): (r: seq<Byte>)
    requires IsInt32(x)
    ensures |r| == 4
  {
    var u := if x < 0 then x + TWO_32 else x;
    var q1 := u / 256;
    var q2 := q1 / 256;
    [u % 256, q1 % 256, q2 % 256, q2 / 256]
  }

  /** The signed value of four little-endian bytes. */
  function DecodeInt32(b: seq<Byte>): (r: int)
    requires |b| == 4
    ensures IsInt32(r)
    ensures r < 0 <==> b[3] >= 0x80
  {
    var u := (b[0] as int) + 256 * (b[1] as int) + 65536 * (b[2] as int) + 16777216 * (b[3] as int);
    if u >= TWO_31 then u - TWO_32 else u
  }

  lemma DecodeEncodeInt32(x: int)
    requires IsInt32(x)
    ensures DecodeInt32(EncodeInt32(x)) == x
  {
    var u := if x < 0 then x + TWO_32 else x;
    var q1 := u / 256;
    var q2 := q1 / 256;
    assert u == 256 * q1 + u % 256;
    assert q1 == 256 * q2 + q1 % 256;
    assert q2 == 256 * (q2 / 256) + q2 % 256;
  }

  lemma EncodeDecodeInt32(b: seq<Byte>)
    requires |b| == 4
    ensures EncodeInt32(DecodeInt32(b)) == b
  {
    var m2 := (b[2] as int) + 256 * (b[3] as int);
    var m1 := (b[1] as int) + 256 * m2;
    var u := (b[0] as int) + 256 * m1;
    assert u == (b[0] as int) + 256 * (b[1] as int) + 65536 * (b[2] as int) + 16777216 * (b[3] as int);
    var x := DecodeInt32(b);
    assert (if x < 0 then x + TWO_32 else x) == u;
    assert u / 256 == m1 && u % 256 == b[0];
    assert m1 / 256 == m2 && m1 % 256 == b[1];
    assert m2 / 256 == b[3] && m2 % 256 == b[2];
  }

  /** `x` brought back into the signed 32-bit range, as the result of numpy
      `int32` arithmetic wraps. */
  function Wrap32(x: int): (r: int)
    ensures IsInt32(r)
    ensures (x - r) % TWO_32 == 0
    ensures IsInt32(x) ==> r == x
  {
    (x + TWO_31) % TWO_32 - TWO_31
  }
}
