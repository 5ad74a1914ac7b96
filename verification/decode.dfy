/**
 * Temperature decoders of the current driver (`MAX31856::sample`,
 * src/PWFusion_MAX31856.cpp).
 *
 * The chip left-justifies its temperatures in the register bytes. The
 * current driver reads them as sign and magnitude: the top bit of the most
 * significant byte is the sign and the bits below it, after the padding is
 * shifted away, are the magnitude. Each decoder is written with the
 * driver's bit operations and is proved equal to an arithmetic statement
 * over the byte values. Temperatures are these counts times 2^-6 degC
 * (cold junction) and 2^-7 degC (thermocouple).
 */
module Decode {

  /** Unsigned value of a big-endian byte pair. */
  function Raw16(msb: bv8, lsb: bv8): nat
  {
    msb as int * 0x100 + lsb as int
  }

  /** Unsigned value of a big-endian byte triple. */
  function Raw24(b2: bv8, b1: bv8, b0: bv8): nat
  {
    b2 as int * 0x10000 + b1 as int * 0x100 + b0 as int
  }

  /** The integer a sign flag and a magnitude stand for. */
  function SignMagnitude(negative: bool, magnitude: nat): int
  {
    if negative then -(magnitude as int) else magnitude
  }

  // ---------------------------------------------------------------------
  // Cold junction: two bytes, 2^-6 degC per count
  // ---------------------------------------------------------------------

  /** MSB:LSB shifted right by two: the 14-bit field the driver tests. */
  function CjField(msb: bv8, lsb: bv8): bv16
  {
    ((msb as bv16 << 8) | lsb as bv16) >> 2
  }

  /** The cold-junction count the current driver computes: bit 13 of the
      shifted field decides whether its low 13 bits are negated.
      As an arithmetic statement: the sign is MSB bit 7 and the magnitude is
      the pair's value without bit 15, divided by four. */
  function ColdJunction(msb: bv8, lsb: bv8): (r: int)
    ensures -8191 <= r <= 8191
    ensures r == SignMagnitude(msb & 0x80 != 0, (Raw16(msb, lsb) % 0x8000) / 4)
  {
    ColdJunctionValue(msb, lsb);
    CjFromField(CjField(msb, lsb))
  }

  lemma ColdJunctionValue(msb: bv8, lsb: bv8)
    ensures CjFromField(CjField(msb, lsb))
         == SignMagnitude(msb & 0x80 != 0, (Raw16(msb, lsb) % 0x8000) / 4)
    ensures (Raw16(msb, lsb) % 0x8000) / 4 <= 8191
  {
    CjFieldSign(msb, lsb);
    CjLowValue(msb, lsb);
  }

  lemma CjFieldSign(msb: bv8, lsb: bv8)
    ensures CjFromField(CjField(msb, lsb)) == SignMagnitude(msb & 0x80 != 0, CjLow(msb, lsb) as int)
  {
    CjFieldBits(msb, lsb);
    SignMagnitude13(CjField(msb, lsb), CjLow(msb, lsb));
  }

  /** `rawCJReg & 0x2000` selects between `-(rawCJReg & 0x1FFF)` and
      `rawCJReg & 0x1FFF`. */
  function CjFromField(field: bv16): int
  {
    if field & 0x2000 != 0 then -((field & 0x1FFF) as int) else (field & 0x1FFF) as int
  }

  lemma SignMagnitude13(field: bv16, low: bv16)
    requires field & 0x1FFF == low
    ensures CjFromField(field) == SignMagnitude(field & 0x2000 != 0, low as int)
  {
  }

  /** MSB bits 6:0 followed by LSB bits 7:2. */
  function CjLow(msb: bv8, lsb: bv8): bv16
  {
    ((msb & 0x7F) as bv16 << 6) | (lsb >> 2) as bv16
  }

  lemma CjFieldBits(msb: bv8, lsb: bv8)
    ensures CjField(msb, lsb) & 0x1FFF == CjLow(msb, lsb)
    ensures (CjField(msb, lsb) & 0x2000 != 0) == (msb & 0x80 != 0)
  {
  }

  lemma CjLowValue(msb: bv8, lsb: bv8)
    ensures CjLow(msb, lsb) as int == (Raw16(msb, lsb) % 0x8000) / 4
    ensures CjLow(msb, lsb) as int <= 8191
  {
    CjLowParts(msb, lsb);
    ColdJunctionArith(msb as int, lsb as int, CjLow(msb, lsb) as int);
  }

  /** The value of the cold-junction magnitude bits in terms of the bytes. */
  lemma CjLowParts(msb: bv8, lsb: bv8)
    ensures CjLow(msb, lsb) as int == (msb as int % 128) * 64 + lsb as int / 4
    ensures CjLow(msb, lsb) < 0x2000
  {
    var m, l := msb & 0x7F, lsb >> 2;
    Concat7And6(m, l);
    LowBits7(msb);
    Shift2(lsb);
  }

  lemma CjLowBound(msb: bv8, lsb: bv8)
    ensures CjLow(msb, lsb) < 0x2000
  {
  }

  lemma Concat7And6(m: bv8, l: bv8)
    requires m < 0x80 && l < 0x40
    ensures ((m as bv16 << 6) | l as bv16) as int == m as int * 64 + l as int
    ensures ((m as bv16 << 6) | l as bv16) < 0x2000
  {
  }

  /** Bits 6:0 of a byte and its sign bit. */
  lemma LowBits7(x: bv8)
    ensures x & 0x7F < 0x80
    ensures (x & 0x7F) as int == x as int % 128
    ensures (x & 0x80 != 0) == (x as int >= 128)
  {
  }

  lemma Shift2(y: bv8)
    ensures y >> 2 < 0x40
    ensures (y >> 2) as int == y as int / 4
  {
  }

  lemma Shift5(y: bv8)
    ensures y >> 5 < 0x08
    ensures (y >> 5) as int == y as int / 32
  {
  }

  lemma ColdJunctionArith(msb: int, lsb: int, low: int)
    requires 0 <= msb < 256 && 0 <= lsb < 256
    requires low == (msb % 128) * 64 + lsb / 4
    ensures low <= 8191
    ensures low == ((msb * 0x100 + lsb) % 0x8000) / 4
  {
  }

  // ---------------------------------------------------------------------
  // Linearized thermocouple: three bytes, 2^-7 degC per count
  // ---------------------------------------------------------------------

  /** b2:b1:b0 left-justified into 32 bits and shifted right by 13: the
      19-bit field the driver tests. */
  function TcField(b2: bv8, b1: bv8, b0: bv8): bv32
  {
    ((b2 as bv32 << 24) | (b1 as bv32 << 16) | (b0 as bv32 << 8)) >> 13
  }

  /** The thermocouple count the current driver computes: bit 18 of the
      shifted field decides whether its low 18 bits are negated.
      As an arithmetic statement: the sign is b2 bit 7 and the magnitude is
      the triple's value without bit 23, divided by 32. */
  function Thermocouple(b2: bv8, b1: bv8, b0: bv8): (r: int)
    ensures -262143 <= r <= 262143
    ensures r == SignMagnitude(b2 & 0x80 != 0, (Raw24(b2, b1, b0) % 0x800000) / 32)
  {
    ThermocoupleValue(b2, b1, b0);
    TcFromField(TcField(b2, b1, b0))
  }

  lemma ThermocoupleValue(b2: bv8, b1: bv8, b0: bv8)
    ensures TcFromField(TcField(b2, b1, b0))
         == SignMagnitude(b2 & 0x80 != 0, (Raw24(b2, b1, b0) % 0x800000) / 32)
    ensures (Raw24(b2, b1, b0) % 0x800000) / 32 <= 262143
  {
    TcFieldSign(b2, b1, b0);
    TcLowValue(b2, b1, b0);
  }

  lemma TcFieldSign(b2: bv8, b1: bv8, b0: bv8)
    ensures TcFromField(TcField(b2, b1, b0)) == SignMagnitude(b2 & 0x80 != 0, TcLow(b2, b1, b0) as int)
  {
    TcFieldBits(b2, b1, b0);
    SignMagnitude18(TcField(b2, b1, b0), TcLow(b2, b1, b0));
  }

  /** `rawTCReg & 0x40000` selects between `-(rawTCReg & 0x3FFFF)` and
      `rawTCReg & 0x3FFFF`. */
  function TcFromField(field: bv32): int
  {
    if field & 0x4_0000 != 0 then -((field & 0x3_FFFF) as int) else (field & 0x3_FFFF) as int
  }

  lemma SignMagnitude18(field: bv32, low: bv32)
    requires field & 0x3_FFFF == low
    ensures TcFromField(field) == SignMagnitude(field & 0x4_0000 != 0, low as int)
  {
  }

  /** b2 bits 6:0, b1, then b0 bits 7:5. */
  function TcLow(b2: bv8, b1: bv8, b0: bv8): bv32
  {
    ((b2 & 0x7F) as bv32 << 11) | (b1 as bv32 << 3) | (b0 >> 5) as bv32
  }

  lemma TcFieldBits(b2: bv8, b1: bv8, b0: bv8)
    ensures TcField(b2, b1, b0) & 0x3FFFF == TcLow(b2, b1, b0)
    ensures (TcField(b2, b1, b0) & 0x40000 != 0) == (b2 & 0x80 != 0)
  {
  }

  lemma TcLowValue(b2: bv8, b1: bv8, b0: bv8)
    ensures TcLow(b2, b1, b0) as int == (Raw24(b2, b1, b0) % 0x800000) / 32
    ensures TcLow(b2, b1, b0) as int <= 262143
  {
    TcLowParts(b2, b1, b0);
    ThermocoupleArith(b2 as int, b1 as int, b0 as int, TcLow(b2, b1, b0) as int);
  }

  /** The value of the thermocouple magnitude bits in terms of the bytes. */
  lemma TcLowParts(b2: bv8, b1: bv8, b0: bv8)
    ensures TcLow(b2, b1, b0) as int == (b2 as int % 128) * 2048 + b1 as int * 8 + b0 as int / 32
    ensures TcLow(b2, b1, b0) < 0x4_0000
  {
    var a, c := b2 & 0x7F, b0 >> 5;
    Concat7And8And3(a, b1, c);
    LowBits7(b2);
    Shift5(b0);
  }

  lemma TcLowBound(b2: bv8, b1: bv8, b0: bv8)
    ensures TcLow(b2, b1, b0) < 0x4_0000
  {
  }

  lemma Concat7And8And3(a: bv8, b: bv8, c: bv8)
    requires a < 0x80 && c < 0x08
    ensures ((a as bv32 << 11) | (b as bv32 << 3) | c as bv32) as int == a as int * 2048 + b as int * 8 + c as int
    ensures ((a as bv32 << 11) | (b as bv32 << 3) | c as bv32) < 0x4_0000
  {
  }

  lemma ThermocoupleArith(b2: int, b1: int, b0: int, low: int)
    requires 0 <= b2 < 256 && 0 <= b1 < 256 && 0 <= b0 < 256
    requires low == (b2 % 128) * 2048 + b1 * 8 + b0 / 32
    ensures low <= 262143
    ensures low == ((b2 * 0x10000 + b1 * 0x100 + b0) % 0x800000) / 32
  {
  }

  // ---------------------------------------------------------------------
  // Properties
  // ---------------------------------------------------------------------

  /** The two padding bits at the bottom of the cold-junction LSB do not
      affect the result. */
  lemma ColdJunctionIgnoresPadding(msb: bv8, lsb: bv8, pad: bv8)
    requires pad < 4
    ensures ColdJunction(msb, (lsb & 0xFC) | pad) == ColdJunction(msb, lsb)
  {
    assert CjField(msb, (lsb & 0xFC) | pad) == CjField(msb, lsb);
    assert ColdJunction(msb, (lsb & 0xFC) | pad) == CjFromField(CjField(msb, (lsb & 0xFC) | pad));
  }

  /** Bits 4:0 of the thermocouple's lowest byte do not affect the result. */
  lemma ThermocoupleIgnoresPadding(b2: bv8, b1: bv8, b0: bv8, pad: bv8)
    requires pad < 32
    ensures Thermocouple(b2, b1, (b0 & 0xE0) | pad) == Thermocouple(b2, b1, b0)
  {
    assert TcField(b2, b1, (b0 & 0xE0) | pad) == TcField(b2, b1, b0);
    assert Thermocouple(b2, b1, (b0 & 0xE0) | pad) == TcFromField(TcField(b2, b1, (b0 & 0xE0) | pad));
  }

  /** Sign and magnitude has a negative zero: with the sign bit set and a
      zero magnitude both decoders return 0, the same as all-zero bytes, so
      neither decoder is injective. */
  lemma NegativeZeroCollapses()
    ensures ColdJunction(0x80, 0x00) == ColdJunction(0x00, 0x00) == 0
    ensures Thermocouple(0x80, 0x00, 0x00) == Thermocouple(0x00, 0x00, 0x00) == 0
  {
  }

  /** Worked values: 0x1900 is +25 degC and 0xE700 is -103 degC at the cold
      junction; 0x019000 is +25 degC on the thermocouple. */
  lemma DecodeVectors()
    ensures ColdJunction(0x19, 0x00) == 1600
    ensures ColdJunction(0xE7, 0x00) == -6592
    ensures Thermocouple(0x01, 0x90, 0x00) == 3200
  {
  }
}
