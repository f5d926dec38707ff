/** Java's fixed-width integers and the little-endian reads and writes of
    java.nio.ByteBuffer, as far as the SPL standard message codec uses them.
    Every value is an unbounded Dafny integer restricted to the Java range;
    casts and byte splitting are written out explicitly. */
module JavaBytes {

  /** A Java `byte`: two's-complement, -128..127. Wire bytes are Java bytes too. */
  type int8 = x: int | -0x80 <= x < 0x80

  /** The same eight bits read as an unsigned value, 0..255. */
  type uint8 = x: int | 0 <= x < 0x100

  /** A Java `short`: two's-complement, -32768..32767. */
  type int16 = x: int | -0x8000 <= x < 0x8000

  /** The raw IEEE-754 bits of a Java `float`. The codec never inspects a float,
      it only copies its four bytes, so a float is modelled by its bit pattern. */
  type FloatBits = x: int | 0 <= x < 0x1_0000_0000

  /** `b & 0xff`: the unsigned reading of a byte's bits. */
  function Unsigned(b: int8): (u: uint8)
    ensures u % 0x100 == b % 0x100
    ensures (u >= 0x80) == (b < 0)
  {
    if b < 0 then b + 0x100 else b
  }

  /** `(byte) u`: the byte whose bits are the low eight bits of u. */
  function ToByte(u: uint8): (b: int8)
    ensures b % 0x100 == u
    ensures Unsigned(b) == u
  {
    if u < 0x80 then u else u - 0x100
  }

  /** `(short) x`: keeps the low sixteen bits of x, read as two's complement. */
  function ToShort(x: int): (s: int16)
    ensures (x - s) % 0x10000 == 0
    ensures 0 <= x < 0x8000 ==> s == x
  {
    var u := x % 0x10000;
    if u < 0x8000 then u else u - 0x10000
  }

  /** ByteBuffer.putShort in little-endian order: low byte first. */
  function ShortBytes(s: int16): (bs: seq<int8>)
    ensures |bs| == 2
  {
    var u := s % 0x10000;
    [ToByte(u % 0x100), ToByte(u / 0x100)]
  }

  /** ByteBuffer.getShort in little-endian order from the bytes lo, hi. */
  function GetShort(lo: int8, hi: int8): (s: int16)
    ensures (s < 0) == (hi < 0)
  {
    ToShort(Unsigned(lo) + 0x100 * Unsigned(hi))
  }

  /** ByteBuffer.putFloat in little-endian order, on the float's raw bits. */
  function FloatBytes(f: FloatBits): (bs: seq<int8>)
    ensures |bs| == 4
  {
    var q1 := f / 0x100;
    var q2 := q1 / 0x100;
    var q3 := q2 / 0x100;
    [ToByte(f % 0x100), ToByte(q1 % 0x100), ToByte(q2 % 0x100), ToByte(q3)]
  }

  /** ByteBuffer.getFloat in little-endian order, as raw bits. */
  function GetFloat(b0: int8, b1: int8, b2: int8, b3: int8): FloatBits
  {
    Unsigned(b0) + 0x100 * (Unsigned(b1) + 0x100 * (Unsigned(b2) + 0x100 * Unsigned(b3)))
  }

  /** getShort reads back what putShort wrote. */
  lemma ShortRoundTrip(s: int16)
    ensures GetShort(ShortBytes(s)[0], ShortBytes(s)[1]) == s
  {
    var u := s % 0x10000;
    assert Unsigned(ShortBytes(s)[0]) + 0x100 * Unsigned(ShortBytes(s)[1]) == u;
  }

  /** putShort writes back the two bytes getShort read. */
  lemma ShortBytesOfRead(lo: int8, hi: int8)
    ensures ShortBytes(GetShort(lo, hi)) == [lo, hi]
  {
    var u := Unsigned(lo) + 0x100 * Unsigned(hi);
    assert GetShort(lo, hi) % 0x10000 == u;
    DigitSplit(u, Unsigned(lo), Unsigned(hi));
  }

  /** getFloat reads back the bits putFloat wrote. */
  lemma FloatRoundTrip(f: FloatBits)
    ensures var bs := FloatBytes(f); GetFloat(bs[0], bs[1], bs[2], bs[3]) == f
  {
    var q1: int := f / 0x100;
    var q2: int := q1 / 0x100;
    var q3: int := q2 / 0x100;
    DigitSplit(f, f % 0x100, q1);
    DigitSplit(q1, q1 % 0x100, q2);
    DigitSplit(q2, q2 % 0x100, q3);
    var bs := FloatBytes(f);
    assert Unsigned(bs[0]) == f % 0x100;
    assert Unsigned(bs[1]) == q1 % 0x100;
    assert Unsigned(bs[2]) == q2 % 0x100;
    assert Unsigned(bs[3]) == q3;
  }

  /** putFloat writes back the four bytes getFloat read. */
  lemma FloatBytesOfRead(b0: int8, b1: int8, b2: int8, b3: int8)
    ensures FloatBytes(GetFloat(b0, b1, b2, b3)) == [b0, b1, b2, b3]
  {
    var u0: int, u1: int, u2: int, u3: int := Unsigned(b0), Unsigned(b1), Unsigned(b2), Unsigned(b3);
    var q2: int := u2 + 0x100 * u3;
    var q1: int := u1 + 0x100 * q2;
    var f: int := u0 + 0x100 * q1;
    assert f == GetFloat(b0, b1, b2, b3);
    DigitSplit(f, u0, q1);
    DigitSplit(q1, u1, q2);
    DigitSplit(q2, u2, u3);
  }

  /** Splitting a number into its lowest base-256 digit and the rest. */
  lemma DigitSplit(u: int, lo: int, rest: int)
    requires 0 <= lo < 0x100 && u == lo + 0x100 * rest
    ensures u % 0x100 == lo && u / 0x100 == rest
  {
  }
}
