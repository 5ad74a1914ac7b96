/**
 * The fixed-width signed integer types the drivers store results in, and
 * the conversion between a signed byte and its register bit pattern.
 */
module Ints {
  newtype Int8 = x: int | -0x80 <= x < 0x80
  newtype Int16 = x: int | -0x8000 <= x < 0x8000
  newtype Int32 = x: int | -0x8000_0000 <= x < 0x8000_0000

  /** The byte whose unsigned value is `n`, counted up from zero in 8-bit
      arithmetic. */
  function ByteOfNat(n: nat): (b: bv8)
    requires n < 0x100
    ensures b as int == n
  {
    if n == 0 then 0 else ByteOfNat(n - 1) + 1
  }

  /** `(uint8_t)v`: the two's-complement bit pattern of a signed byte, the
      byte whose unsigned value is `v` modulo 256. */
  function ByteOfInt8(v: Int8): (b: bv8)
    ensures b as int == if v < 0 then v as int + 0x100 else v as int
  {
    if v < 0 then ByteOfNat(v as int + 0x100) else ByteOfNat(v as int)
  }

  /** A register byte read as `int8_t`. */
  function Int8OfByte(b: bv8): Int8
  {
    if b as int >= 0x80 then (b as int - 0x100) as Int8 else b as int as Int8
  }

  /** Storing a signed byte and reading it back gives it unchanged. */
  lemma Int8OfByteOfInt8(v: Int8)
    ensures Int8OfByte(ByteOfInt8(v)) == v
  {
  }

  /** Every byte is the pattern of the signed byte it reads as. */
  lemma ByteOfInt8OfByte(b: bv8)
    ensures ByteOfInt8(Int8OfByte(b)) == b
  {
    var c := ByteOfInt8(Int8OfByte(b));
    assert c as int == b as int;
    ByteNatRoundTrip(c);
    ByteNatRoundTrip(b);
  }

  /** A byte is determined by its unsigned value. */
  lemma ByteNatRoundTrip(b: bv8)
    ensures (b as int) as bv8 == b
  {
  }
}
