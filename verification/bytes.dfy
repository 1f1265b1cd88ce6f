/** Java's signed byte and short, the narrowing casts onto them, and the big-endian short
    that java.nio.ByteBuffer.getShort reads from two bytes. */
module Bytes {

  /** A Java `byte`. */
  type JByte = x: int | -128 <= x < 128

  /** A Java `short`. */
  type JShort = x: int | -32768 <= x < 32768

  /** The `(byte)` cast: the value congruent to x modulo 256 in the byte range. */
  function Wrap8(x: int): (b: JByte)
    ensures (b - x) % 256 == 0
    ensures -128 <= x < 128 ==> b == x
  {
    (x + 128) % 256 - 128
  }

  /** `b & 0xff`: the unsigned reading of a byte. */
  function Unsigned(b: JByte): (u: int)
    ensures 0 <= u < 256
    ensures Wrap8(u) == b
    ensures b >= 0 ==> u == b
  {
    if b < 0 then b + 256 else b
  }

  /** ByteBuffer.getShort in its default big-endian order: the high byte first, the low
      byte read unsigned. */
  function BigEndianShort(hi: JByte, lo: JByte): (s: JShort) {
    hi * 256 + Unsigned(lo)
  }

  /** The high byte of a short in big-endian order: the short shifted right by eight
      (Dafny's division by a positive divisor rounds down, as the shift does). */
  function HighByte(s: JShort): JByte {
    (s as int) / 256
  }

  /** The low byte of a short in big-endian order. */
  function LowByte(s: JShort): JByte {
    Wrap8((s as int) % 256)
  }

  /** Reading two bytes as a short loses nothing: the bytes come back from the short. */
  lemma ShortOfBytes(hi: JByte, lo: JByte)
    ensures HighByte(BigEndianShort(hi, lo)) == hi
    ensures LowByte(BigEndianShort(hi, lo)) == lo
  {
    var s: int := BigEndianShort(hi, lo);
    var u := Unsigned(lo);
    DivUnique(s, hi, u);
  }

  /** Every short is the reading of its two bytes. */
  lemma BytesOfShort(s: JShort)
    ensures BigEndianShort(HighByte(s), LowByte(s)) == s
  {
    var r := (s as int) % 256;
    assert Unsigned(Wrap8(r)) == r;
  }

  /** Euclidean division is determined by a quotient and a remainder in range. */
  lemma DivUnique(a: int, q: int, r: int)
    requires a == q * 256 + r && 0 <= r < 256
    ensures a / 256 == q
    ensures a % 256 == r
  {
  }
}
