/**
 Java's 32-bit `int` and the 4-byte big-endian two's-complement encoding that
 `ByteBuffer.allocate(4).putInt(x).array()` produces.
 */
module JavaInt {

  const Two31: int := 0x8000_0000
  const Two32: int := 0x1_0000_0000

  /** The values of a Java `int`. */
  type Int32 = x: int | -0x8000_0000 <= x < 0x8000_0000

  /** One byte of a Java `byte[]`, read as an unsigned value. */
  newtype byte = x: int | 0 <= x < 256

  /** Whether an unbounded integer fits in a Java `int` without wrapping. */
  predicate InInt32Range(x: int) {
    -Two31 <= x < Two31
  }

  /**
   The value Java's `int` arithmetic yields for the mathematical result `x`:
   the unique `int` congruent to `x` modulo 2^32.
   */
  function Wrap32(x: int): (r: Int32)
    ensures (r - x) % Two32 == 0
    ensures InInt32Range(x) ==> r == x
  {
    var m := (x + Two31) % Two32;
    assert x + Two31 == (x + Two31) / Two32 * Two32 + m;
    m - Two31
  }

  /** The unsigned reading of the 32 bits of `x`. */
  function Unsigned(x: Int32): (u: int)
    ensures 0 <= u < Two32
    ensures x >= 0 ==> u == x
    ensures x < 0 ==> u == x + Two32
  {
    if x < 0 then x + Two32 else x
  }

  /** `ByteBuffer.allocate(4).putInt(x).array()`: most significant byte first. */
  function Int32ToBytes(x: Int32): (b: seq<byte>)
    ensures |b| == 4
    ensures (b[0] as int) * 0x100_0000 + (b[1] as int) * 0x1_0000
            + (b[2] as int) * 0x100 + (b[3] as int) == Unsigned(x)
    ensures (b[0] >= 0x80) <==> x < 0
  {
    var u := Unsigned(x);
    var b0 := u / 0x100_0000;
    var r0 := u % 0x100_0000;
    var b1 := r0 / 0x1_0000;
    var r1 := r0 % 0x1_0000;
    var b2 := r1 / 0x100;
    var b3 := r1 % 0x100;
    [b0 as byte, b1 as byte, b2 as byte, b3 as byte]
  }

  /** `ByteBuffer.wrap(b).getInt()`: the inverse reading of four bytes. */
  function BytesToInt32(b: seq<byte>): (x: Int32)
    requires |b| == 4
    ensures b[0] < 0x80 ==> x >= 0
    ensures b[0] >= 0x80 ==> x < 0
  {
    var u := (b[0] as int) * 0x100_0000 + (b[1] as int) * 0x1_0000
             + (b[2] as int) * 0x100 + (b[3] as int);
    if u >= Two31 then u - Two32 else u
  }

  /** Two big-endian 4-byte sequences with the same value are the same bytes. */
  lemma {:induction false} DigitsUnique(a: seq<byte>, b: seq<byte>)
    requires |a| == 4 && |b| == 4
    requires (a[0] as int) * 0x100_0000 + (a[1] as int) * 0x1_0000 + (a[2] as int) * 0x100 + (a[3] as int)
          == (b[0] as int) * 0x100_0000 + (b[1] as int) * 0x1_0000 + (b[2] as int) * 0x100 + (b[3] as int)
    ensures a == b
  {
    var ta := (a[1] as int) * 0x1_0000 + (a[2] as int) * 0x100 + (a[3] as int);
    var tb := (b[1] as int) * 0x1_0000 + (b[2] as int) * 0x100 + (b[3] as int);
    assert 0 <= ta < 0x100_0000 && 0 <= tb < 0x100_0000;
    assert a[0] == b[0];
    var sa := (a[2] as int) * 0x100 + (a[3] as int);
    var sb := (b[2] as int) * 0x100 + (b[3] as int);
    assert 0 <= sa < 0x1_0000 && 0 <= sb < 0x1_0000;
    assert a[1] == b[1];
    assert a[2] == b[2];
    assert a[3] == b[3];
  }

  /** Decoding the bytes `putInt` wrote gives back the original `int`. */
  lemma {:induction false} DecodeEncode(x: Int32)
    ensures BytesToInt32(Int32ToBytes(x)) == x
  {
  }

  /** Every 4-byte array is the encoding of the `int` it decodes to. */
  lemma {:induction false} EncodeDecode(b: seq<byte>)
    requires |b| == 4
    ensures Int32ToBytes(BytesToInt32(b)) == b
  {
    DigitsUnique(Int32ToBytes(BytesToInt32(b)), b);
  }

  /** Distinct guesses are committed to as distinct byte strings. */
  lemma {:induction false} EncodingInjective(x: Int32, y: Int32)
    requires Int32ToBytes(x) == Int32ToBytes(y)
    ensures x == y
  {
    DecodeEncode(x);
    DecodeEncode(y);
  }
}
