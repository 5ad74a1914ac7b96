/**
 * Temperature decoders of the legacy driver (`PWF_MAX31856::MAX31856_update`,
 * PlayingWithFusion_MAX31856.cpp).
 *
 * The legacy driver reads the same registers as two's complement: when the
 * top bit is set it fills the bits vacated by the right shift with ones,
 * which is an arithmetic shift of the signed value. Each decoder builds the
 * bit pattern the legacy code stores and reads it as the signed integer
 * type of the destination field (`int16_t` for the cold junction, a 32-bit
 * `long` for the thermocouple).
 */
module LegacyDecode {
  import opened Decode

  /** A 16-bit pattern read as `int16_t`. */
  function Int16Of(p: bv16): int
  {
    if p & 0x8000 != 0 then p as int - 0x10000 else p as int
  }

  /** A 32-bit pattern read as a 32-bit signed integer. */
  function Int32Of(p: bv32): int
  {
    if p & 0x8000_0000 != 0 then p as int - 0x1_0000_0000 else p as int
  }

  /** The two's-complement value of a 16-bit unsigned number. */
  function Signed16(v: int): int
  {
    if v >= 0x8000 then v - 0x1_0000 else v
  }

  /** The two's-complement value of a 24-bit unsigned number. */
  function Signed24(v: int): int
  {
    if v >= 0x80_0000 then v - 0x100_0000 else v
  }

  // ---------------------------------------------------------------------
  // Cold junction
  // ---------------------------------------------------------------------

  /** MSB:LSB as the 16-bit word the legacy code assembles. */
  function LegacyCjWord(msb: bv8, lsb: bv8): bv16
  {
    (msb as bv16 << 8) | lsb as bv16
  }

  /** The bit pattern the legacy code stores: with bit 15 set,
      0xE000 | ((raw & 0x7FFF) >> 2), otherwise (raw & 0x7FFF) >> 2. */
  function LegacyCjPattern(raw: bv16): bv16
  {
    if raw & 0x8000 != 0 then 0xE000 | ((raw & 0x7FFF) >> 2) else (raw & 0x7FFF) >> 2
  }

  /** The legacy cold-junction count: the stored pattern read as `int16_t`.
      Arithmetically this is the pair read as a signed 16-bit number,
      divided by four and rounded down. */
  function LegacyColdJunction(msb: bv8, lsb: bv8): (r: int)
    ensures -8192 <= r <= 8191
    ensures r == Signed16(Raw16(msb, lsb)) / 4
  {
    LegacyColdJunctionValue(msb, lsb);
    Int16Of(LegacyCjPattern(LegacyCjWord(msb, lsb)))
  }

  lemma LegacyColdJunctionValue(msb: bv8, lsb: bv8)
    ensures Int16Of(LegacyCjPattern(LegacyCjWord(msb, lsb))) == Signed16(Raw16(msb, lsb)) / 4
    ensures -8192 <= Signed16(Raw16(msb, lsb)) / 4 <= 8191
  {
    LegacyCjPatternValue(msb, lsb);
    LegacyCjLowValue(msb, lsb);
  }

  lemma LegacyCjLowValue(msb: bv8, lsb: bv8)
    ensures (if msb & 0x80 != 0 then CjLow(msb, lsb) as int - 0x2000 else CjLow(msb, lsb) as int)
         == Signed16(Raw16(msb, lsb)) / 4
    ensures -8192 <= Signed16(Raw16(msb, lsb)) / 4 <= 8191
  {
    CjLowParts(msb, lsb);
    LowBits7(msb);
    LegacyColdJunctionArith(msb as int, lsb as int, Raw16(msb, lsb), CjLow(msb, lsb) as int, msb & 0x80 != 0);
  }

  lemma LegacyCjPatternValue(msb: bv8, lsb: bv8)
    ensures Int16Of(LegacyCjPattern(LegacyCjWord(msb, lsb)))
         == if msb & 0x80 != 0 then CjLow(msb, lsb) as int - 0x2000 else CjLow(msb, lsb) as int
  {
    LegacyCjPatternSplit(msb, lsb);
    CjLowBound(msb, lsb);
    Extend13Value(msb & 0x80 != 0, CjLow(msb, lsb));
  }

  lemma LegacyCjPatternSplit(msb: bv8, lsb: bv8)
    ensures LegacyCjPattern(LegacyCjWord(msb, lsb)) == Extend13(msb & 0x80 != 0, CjLow(msb, lsb))
  {
    LegacyCjPatternFields(LegacyCjWord(msb, lsb));
    LegacyCjWordFields(msb, lsb);
  }

  /** A 13-bit magnitude with bits 15:13 filled when `negative` holds. */
  function Extend13(negative: bool, low: bv16): bv16
  {
    if negative then 0xE000 | low else low
  }

  lemma LegacyCjPatternFields(raw: bv16)
    ensures LegacyCjPattern(raw) == Extend13(raw & 0x8000 != 0, (raw & 0x7FFF) >> 2)
  {
  }

  lemma LegacyCjWordFields(msb: bv8, lsb: bv8)
    ensures (LegacyCjWord(msb, lsb) & 0x7FFF) >> 2 == CjLow(msb, lsb)
    ensures (LegacyCjWord(msb, lsb) & 0x8000 != 0) == (msb & 0x80 != 0)
  {
  }

  /** Filling bits 15:13 of a 13-bit magnitude subtracts 2^13 from its
      `int16_t` value. */
  lemma Extend13Value(negative: bool, low: bv16)
    requires low < 0x2000
    ensures Int16Of(Extend13(negative, low)) == if negative then low as int - 0x2000 else low as int
  {
    if negative {
      assert (0xE000 | low) as int == 0xE000 + low as int;
    }
  }

  lemma LegacyColdJunctionArith(msb: int, lsb: int, raw: int, low: int, negative: bool)
    requires 0 <= msb < 256 && 0 <= lsb < 256
    requires raw == msb * 0x100 + lsb
    requires low == (msb % 128) * 64 + lsb / 4
    requires negative == (msb >= 128)
    ensures (if negative then low - 0x2000 else low) == Signed16(raw) / 4
    ensures -8192 <= Signed16(raw) / 4 <= 8191
  {
  }

  // ---------------------------------------------------------------------
  // Linearized thermocouple
  // ---------------------------------------------------------------------

  /** b2:b1:b0 as the 24-bit value the legacy code assembles in 32 bits. */
  function LegacyTcWord(b2: bv8, b1: bv8, b0: bv8): bv32
  {
    (((b2 as bv32 << 8) | b1 as bv32) << 8) | b0 as bv32
  }

  /** The bit pattern the legacy code stores: with bit 23 set,
      0xFFFC0000 | ((v & 0x7FFFFF) >> 5), otherwise (v & 0x7FFFFF) >> 5. */
  function LegacyTcPattern(v: bv32): bv32
  {
    if v & 0x80_0000 != 0 then 0xFFFC_0000 | ((v & 0x7F_FFFF) >> 5) else (v & 0x7F_FFFF) >> 5
  }

  /** The legacy thermocouple count: the stored pattern read as a 32-bit
      signed integer. Arithmetically this is the triple read as a signed
      24-bit number, divided by 32 and rounded down. */
  function LegacyThermocouple(b2: bv8, b1: bv8, b0: bv8): (r: int)
    ensures -262144 <= r <= 262143
    ensures r == Signed24(Raw24(b2, b1, b0)) / 32
  {
    LegacyThermocoupleValue(b2, b1, b0);
    Int32Of(LegacyTcPattern(LegacyTcWord(b2, b1, b0)))
  }

  lemma LegacyThermocoupleValue(b2: bv8, b1: bv8, b0: bv8)
    ensures Int32Of(LegacyTcPattern(LegacyTcWord(b2, b1, b0))) == Signed24(Raw24(b2, b1, b0)) / 32
    ensures -262144 <= Signed24(Raw24(b2, b1, b0)) / 32 <= 262143
  {
    LegacyTcPatternValue(b2, b1, b0);
    LegacyTcLowValue(b2, b1, b0);
  }

  lemma LegacyTcPatternValue(b2: bv8, b1: bv8, b0: bv8)
    ensures Int32Of(LegacyTcPattern(LegacyTcWord(b2, b1, b0)))
         == if b2 & 0x80 != 0 then TcLow(b2, b1, b0) as int - 0x4_0000 else TcLow(b2, b1, b0) as int
  {
    LegacyTcPatternSplit(b2, b1, b0);
    TcLowBound(b2, b1, b0);
    Extend18Value(b2 & 0x80 != 0, TcLow(b2, b1, b0));
  }

  lemma LegacyTcPatternSplit(b2: bv8, b1: bv8, b0: bv8)
    ensures LegacyTcPattern(LegacyTcWord(b2, b1, b0)) == Extend18(b2 & 0x80 != 0, TcLow(b2, b1, b0))
  {
    LegacyTcPatternFields(LegacyTcWord(b2, b1, b0));
    LegacyTcWordFields(b2, b1, b0);
  }

  lemma LegacyTcLowValue(b2: bv8, b1: bv8, b0: bv8)
    ensures (if b2 & 0x80 != 0 then TcLow(b2, b1, b0) as int - 0x4_0000 else TcLow(b2, b1, b0) as int)
         == Signed24(Raw24(b2, b1, b0)) / 32
    ensures -262144 <= Signed24(Raw24(b2, b1, b0)) / 32 <= 262143
  {
    TcLowParts(b2, b1, b0);
    LowBits7(b2);
    LegacyThermocoupleArith(b2 as int, b1 as int, b0 as int, Raw24(b2, b1, b0), TcLow(b2, b1, b0) as int, b2 & 0x80 != 0);
  }

  /** An 18-bit magnitude with bits 31:18 filled when `negative` holds. */
  function Extend18(negative: bool, low: bv32): bv32
  {
    if negative then 0xFFFC_0000 | low else low
  }

  lemma LegacyTcPatternFields(v: bv32)
    ensures LegacyTcPattern(v) == Extend18(v & 0x80_0000 != 0, (v & 0x7F_FFFF) >> 5)
  {
  }

  lemma LegacyTcWordFields(b2: bv8, b1: bv8, b0: bv8)
    ensures (LegacyTcWord(b2, b1, b0) & 0x7F_FFFF) >> 5 == TcLow(b2, b1, b0)
    ensures (LegacyTcWord(b2, b1, b0) & 0x80_0000 != 0) == (b2 & 0x80 != 0)
  {
  }

  /** Filling bits 31:18 of an 18-bit magnitude subtracts 2^18 from its
      32-bit signed value. */
  lemma Extend18Value(negative: bool, low: bv32)
    requires low < 0x4_0000
    ensures Int32Of(Extend18(negative, low)) == if negative then low as int - 0x4_0000 else low as int
  {
    if negative {
      assert (0xFFFC_0000 | low) as int == 0xFFFC_0000 + low as int;
    }
  }

  lemma LegacyThermocoupleArith(b2: int, b1: int, b0: int, raw: int, low: int, negative: bool)
    requires 0 <= b2 < 256 && 0 <= b1 < 256 && 0 <= b0 < 256
    requires raw == b2 * 0x10000 + b1 * 0x100 + b0
    requires low == (b2 % 128) * 2048 + b1 * 8 + b0 / 32
    requires negative == (b2 >= 128)
    ensures (if negative then low - 0x4_0000 else low) == Signed24(raw) / 32
    ensures -262144 <= Signed24(raw) / 32 <= 262143
  {
  }

  /** Worked values of the legacy decoders. */
  lemma LegacyDecodeVectors()
    ensures LegacyColdJunction(0x19, 0x00) == 1600
    ensures LegacyColdJunction(0xE7, 0x00) == -1600
    ensures LegacyColdJunction(0x80, 0x00) == -8192
    ensures LegacyThermocouple(0x01, 0x90, 0x00) == 3200
    ensures LegacyThermocouple(0xFF, 0xFF, 0xFF) == -1
  {
  }
}
