/**
 * Register map and configuration bytes of the legacy header
 * (PlayingWithFusion_MAX31856.h).
 *
 * The legacy header names the registers with `#define`s rather than an
 * enum, and its `config` takes every selection as a raw byte. Its CR0,
 * thermocouple-type and MASK constants have the same values as the
 * current header's, and the model uses those; the averaging constants
 * `AVG_SEL_*` differ and are defined here.
 */
module LegacyRegisters {
  import opened Optional
  import opened Registers

  /** `REG_CR0` .. `REG_SR` of the legacy header. */
  function RegDefine(r: Reg): bv8
  {
    match r
    case CR0 => 0x00
    case CR1 => 0x01
    case MASK => 0x02
    case CJHF => 0x03
    case CJLF => 0x04
    case LTHFTH => 0x05
    case LTHFTL => 0x06
    case LTLFTH => 0x07
    case LTLFTL => 0x08
    case CJTO => 0x09
    case CJTH => 0x0A
    case CJTL => 0x0B
    case LTCBH => 0x0C
    case LTCBM => 0x0D
    case LTCBL => 0x0E
    case SR => 0x0F
  }

  /** Bits 3:0 of a byte, the part of a register argument the legacy
      transactions put on the bus. */
  function Nibble(b: bv8): (n: bv4)
    ensures n as bv8 == b & 0x0F
  {
    (b & 0x0F) as bv4
  }

  /** The legacy defines are the current enum's addresses: they lie in
      0x00..0x0F, so masking with 0x0F is the identity on them, and
      distinct registers have distinct defines. */
  lemma RegDefineAddr(r: Reg)
    ensures RegDefine(r) == AddrByte(r)
    ensures RegDefine(r) & 0x0F == RegDefine(r)
    ensures Nibble(RegDefine(r)) == Addr(r)
    ensures Nibble(RegDefine(r)) as int == Num(r)
  {
  }

  lemma RegDefineInjective(r1: Reg, r2: Reg)
    ensures RegDefine(r1) == RegDefine(r2) <==> r1 == r2
  {
    RegDefineAddr(r1);
    RegDefineAddr(r2);
    AddrBijective(r1, r2);
  }

  // ---------------------------------------------------------------------
  // CR0
  // ---------------------------------------------------------------------

  /** The CR0 byte the legacy `MAX31856_config` writes for the raw
      selections: auto conversion exactly when `measMode` is CMODE_AUTO,
      and the filter byte or-ed in unchanged. */
  function LegacyCr0(filtFreq: bv8, measMode: bv8): bv8
  {
    if measMode == CmodeAuto then
      CmodeAuto | OneshotOff | Ocfault10ms | CjEnabled | FaultAuto | FaultClrDef | filtFreq
    else
      CmodeOff | OneshotOff | Ocfault10ms | CjEnabled | FaultAuto | FaultClrDef | filtFreq
  }

  /** The header constant a caller passes for a conversion mode. */
  function MeasModeBits(mode: ConversionMode): bv8
  {
    match mode
    case Continuous => CmodeAuto
    case SingleShot => CmodeOff
  }

  /** For the header's own constants the legacy CR0 is the current one, so
      both drivers configure CR0 alike. Any `measMode` byte other than
      CMODE_AUTO selects single-shot conversion, and with a filter byte
      whose bit 7 is clear the chip reads the conversion mode back exactly
      as selected. */
  lemma LegacyCr0Agrees(mode: ConversionMode, filter: Filter, filtFreq: bv8, measMode: bv8)
    ensures LegacyCr0(FilterBits(filter), MeasModeBits(mode)) == Cr0(mode, filter)
    ensures filtFreq & CmodeField == 0 ==>
              (ModeOf(LegacyCr0(filtFreq, measMode)) == Continuous <==> measMode == CmodeAuto)
    ensures LegacyCr0(filtFreq, measMode) & OcfaultField == Ocfault10ms | (filtFreq & OcfaultField)
  {
  }

  // ---------------------------------------------------------------------
  // CR1
  // ---------------------------------------------------------------------

  /** AVG_SEL_1SAMP .. AVG_SEL_16SAMP of the legacy header: 0x00 to 0x80 in
      steps of 0x20. */
  function LegacyAvgBits(a: Averaging): bv8
  {
    match a
    case Avg1 => 0x00
    case Avg2 => 0x20
    case Avg4 => 0x40
    case Avg8 => 0x60
    case Avg16 => 0x80
  }

  /** The CR1 byte the legacy `MAX31856_config` writes: `AVG_MODE |
      TC_TYPE`, here for the legacy header's constants. */
  function LegacyCr1(avg: Averaging, tc: TcType): bv8
  {
    LegacyAvgBits(avg) | TypeBits(tc)
  }

  /** The number of samples the chip averages when given the legacy
      constant for `a`. */
  function LegacyAvgRead(a: Averaging): Averaging
  {
    match a
    case Avg1 => Avg1
    case Avg2 => Avg4
    case Avg4 => Avg16
    case Avg8 => Avg16
    case Avg16 => Avg1
  }

  /** The legacy averaging constants have a zero low nibble, so the type
      is still read back correctly; but the chip reads bits 6:4 as
      the averaging code, so 2 samples become 4, 4 and 8 become 16, and 16
      becomes 1 with the reserved bit 7 set. Only the 1-sample constant
      agrees with the current header. */
  lemma LegacyAvgMisread(avg: Averaging, tc: TcType)
    ensures TypeOf(LegacyCr1(avg, tc)) == Some(tc)
    ensures AvgOf(LegacyCr1(avg, tc)) == LegacyAvgRead(avg)
    ensures LegacyCr1(avg, tc) & 0x80 != 0 <==> avg == Avg16
    ensures LegacyCr1(avg, tc) == Cr1(avg, tc) <==> avg == Avg1
    ensures LegacyAvgRead(avg) == avg <==> avg == Avg1
  {
    Cr1RoundTrip(avg, tc);
    match avg
    case Avg1 => case Avg2 => case Avg4 => case Avg8 => case Avg16 =>
  }

  /** A concrete instance: type K with the legacy AVG_SEL_16SAMP writes
      CR1 = 0x83, which the chip reads as one sample. */
  lemma LegacyAvgExample()
    ensures LegacyCr1(Avg16, TypeK) == 0x83
    ensures AvgOf(0x83) == Avg1
    ensures Cr1(Avg16, TypeK) == 0x43 && AvgOf(0x43) == Avg16
  {
  }

  // ---------------------------------------------------------------------
  // MASK
  // ---------------------------------------------------------------------

  /** The mask the legacy `config` uses when it writes MASK: bits 5:0. */
  const MaskWriteMask: bv8 := 0x3F

  /** The default mask value lies inside the write mask. */
  lemma DefaultMaskInside()
    ensures DefaultMask & MaskWriteMask == DefaultMask
    ensures DefaultMask & !MaskWriteMask == 0
  {
  }
}
