/**
 * How the current and legacy temperature decoders relate.
 *
 * Both read the same register bytes. They agree whenever the sign bit of
 * the top byte is clear. With the sign bit set the current driver negates
 * the magnitude bits (sign and magnitude) while the legacy driver extends
 * the sign (two's complement), so the two results differ by a fixed
 * reflection: legacy == -current - 2^13 for the cold junction and
 * legacy == -current - 2^18 for the thermocouple.
 */
module DecoderAgreement {
  import opened Decode
  import opened LegacyDecode

  /** Sign extension and sign-magnitude compared on the same 16-bit value. */
  lemma Signed16Split(raw: int)
    requires 0 <= raw < 0x1_0000
    ensures raw < 0x8000 ==> Signed16(raw) / 4 == (raw % 0x8000) / 4
    ensures raw >= 0x8000 ==> Signed16(raw) / 4 == (raw % 0x8000) / 4 - 0x2000
  {
  }

  /** Sign extension and sign-magnitude compared on the same 24-bit value. */
  lemma Signed24Split(raw: int)
    requires 0 <= raw < 0x100_0000
    ensures raw < 0x80_0000 ==> Signed24(raw) / 32 == (raw % 0x80_0000) / 32
    ensures raw >= 0x80_0000 ==> Signed24(raw) / 32 == (raw % 0x80_0000) / 32 - 0x4_0000
  {
  }

  lemma Raw16Sign(msb: bv8, lsb: bv8)
    ensures (msb & 0x80 != 0) == (Raw16(msb, lsb) >= 0x8000)
    ensures Raw16(msb, lsb) < 0x1_0000
  {
    LowBits7(msb);
  }

  lemma Raw24Sign(b2: bv8, b1: bv8, b0: bv8)
    ensures (b2 & 0x80 != 0) == (Raw24(b2, b1, b0) >= 0x80_0000)
    ensures Raw24(b2, b1, b0) < 0x100_0000
  {
    LowBits7(b2);
  }

  /** With MSB bit 7 clear both cold-junction decoders return the same
      count; with it set the legacy count is the reflection
      -current - 8192. */
  lemma ColdJunctionAgreement(msb: bv8, lsb: bv8)
    ensures msb & 0x80 == 0 ==> LegacyColdJunction(msb, lsb) == ColdJunction(msb, lsb)
    ensures msb & 0x80 != 0 ==> LegacyColdJunction(msb, lsb) == -ColdJunction(msb, lsb) - 0x2000
  {
    Raw16Sign(msb, lsb);
    Signed16Split(Raw16(msb, lsb));
  }

  /** The cold-junction decoders agree exactly when MSB bit 7 is clear or
      the current decoder reads -4096 (the one fixed point of the
      reflection). */
  lemma ColdJunctionAgreeIff(msb: bv8, lsb: bv8)
    ensures LegacyColdJunction(msb, lsb) == ColdJunction(msb, lsb)
        <==> msb & 0x80 == 0 || ColdJunction(msb, lsb) == -0x1000
  {
    ColdJunctionAgreement(msb, lsb);
  }

  /** With b2 bit 7 clear both thermocouple decoders return the same count;
      with it set the legacy count is -current - 262144. */
  lemma ThermocoupleAgreement(b2: bv8, b1: bv8, b0: bv8)
    ensures b2 & 0x80 == 0 ==> LegacyThermocouple(b2, b1, b0) == Thermocouple(b2, b1, b0)
    ensures b2 & 0x80 != 0 ==> LegacyThermocouple(b2, b1, b0) == -Thermocouple(b2, b1, b0) - 0x4_0000
  {
    Raw24Sign(b2, b1, b0);
    Signed24Split(Raw24(b2, b1, b0));
  }

  /** The thermocouple decoders agree exactly when b2 bit 7 is clear or the
      current decoder reads -131072. */
  lemma ThermocoupleAgreeIff(b2: bv8, b1: bv8, b0: bv8)
    ensures LegacyThermocouple(b2, b1, b0) == Thermocouple(b2, b1, b0)
        <==> b2 & 0x80 == 0 || Thermocouple(b2, b1, b0) == -0x2_0000
  {
    ThermocoupleAgreement(b2, b1, b0);
  }

  /** 0xE700 at the cold junction: -1600 counts (-25 degC) in the legacy
      driver and -6592 counts (-103 degC) in the current one. */
  lemma DivergenceExample()
    ensures LegacyColdJunction(0xE7, 0x00) == -1600
    ensures ColdJunction(0xE7, 0x00) == -6592
    ensures LegacyThermocouple(0xFF, 0xFF, 0xFF) == -1
    ensures Thermocouple(0xFF, 0xFF, 0xFF) == -262143
  {
  }
}
