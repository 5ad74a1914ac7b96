/**
 * Register map and configuration constants of the current driver header
 * (src/PWFusion_MAX31856.h), together with the field layouts of the
 * configuration registers CR0 and CR1 as documented beside `config`.
 *
 * The header's loosely typed `#define`s become closed enumerations
 * (thermocouple type, filter, averaging, conversion mode); each has an
 * encoder to the header's bit pattern and a decoder that reads the field
 * back out of a register byte.
 */
module Registers {
  import opened Optional

  // ---------------------------------------------------------------------
  // Register map (Max31856_Reg)
  // ---------------------------------------------------------------------

  /** The sixteen registers of the converter. */
  datatype Reg =
    | CR0      // configuration 0
    | CR1      // configuration 1: averaging and thermocouple type
    | MASK     // fault mask for the FAULT output
    | CJHF     // cold-junction high fault threshold
    | CJLF     // cold-junction low fault threshold
    | LTHFTH   // linearized high fault threshold, MSB
    | LTHFTL   // linearized high fault threshold, LSB
    | LTLFTH   // linearized low fault threshold, MSB
    | LTLFTL   // linearized low fault threshold, LSB
    | CJTO     // cold-junction offset
    | CJTH     // cold-junction temperature, MSB
    | CJTL     // cold-junction temperature, LSB
    | LTCBH    // linearized thermocouple temperature, byte 2
    | LTCBM    // linearized thermocouple temperature, byte 1
    | LTCBL    // linearized thermocouple temperature, byte 0
    | SR       // fault status

  /** The address the header assigns to each register. */
  function Addr(r: Reg): bv4
  {
    match r
    case CR0 => 0x0
    case CR1 => 0x1
    case MASK => 0x2
    case CJHF => 0x3
    case CJLF => 0x4
    case LTHFTH => 0x5
    case LTHFTL => 0x6
    case LTLFTH => 0x7
    case LTLFTL => 0x8
    case CJTO => 0x9
    case CJTH => 0xA
    case CJTL => 0xB
    case LTCBH => 0xC
    case LTCBM => 0xD
    case LTCBL => 0xE
    case SR => 0xF
  }

  /** The address as a number, for indexing the register file. */
  function Num(r: Reg): (n: nat)
    ensures n < 16
  {
    match r
    case CR0 => 0
    case CR1 => 1
    case MASK => 2
    case CJHF => 3
    case CJLF => 4
    case LTHFTH => 5
    case LTHFTL => 6
    case LTLFTH => 7
    case LTLFTL => 8
    case CJTO => 9
    case CJTH => 10
    case CJTL => 11
    case LTCBH => 12
    case LTCBM => 13
    case LTCBL => 14
    case SR => 15
  }

  lemma AddrNum(r: Reg)
    ensures Addr(r) as int == Num(r)
  {
  }

  /** The register that lives at a 4-bit address. */
  function RegAt(a: bv4): (r: Reg)
    ensures Addr(r) == a
  {
    if a == 0x0 then CR0
    else if a == 0x1 then CR1
    else if a == 0x2 then MASK
    else if a == 0x3 then CJHF
    else if a == 0x4 then CJLF
    else if a == 0x5 then LTHFTH
    else if a == 0x6 then LTHFTL
    else if a == 0x7 then LTLFTH
    else if a == 0x8 then LTLFTL
    else if a == 0x9 then CJTO
    else if a == 0xA then CJTH
    else if a == 0xB then CJTL
    else if a == 0xC then LTCBH
    else if a == 0xD then LTCBM
    else if a == 0xE then LTCBL
    else SR
  }

  /** The register map is a bijection between the sixteen registers and the
      4-bit addresses: no two registers share an address, and every address
      names a register. */
  lemma AddrBijective(r1: Reg, r2: Reg)
    ensures RegAt(Addr(r1)) == r1
    ensures Addr(r1) == Addr(r2) <==> r1 == r2
    ensures Num(r1) == Num(r2) <==> r1 == r2
  {
    var r := RegAt(Addr(r1));
    match r1
    case CR0 => case CR1 => case MASK => case CJHF => case CJLF =>
    case LTHFTH => case LTHFTL => case LTLFTH => case LTLFTL => case CJTO =>
    case CJTH => case CJTL => case LTCBH => case LTCBM => case LTCBL => case SR =>
  }

  /** The address as the byte the driver puts on the bus: it lies in
      0x00..0x0F, so or-ing in the write flag 0x80 leaves it in the low
      nibble. */
  function AddrByte(r: Reg): (b: bv8)
    ensures b & 0xF0 == 0
    ensures (b | 0x80) & 0x0F == b
    ensures (b | 0x80) & 0x80 != 0
    ensures (b as bv4) == Addr(r)
  {
    Addr(r) as bv8
  }

  // ---------------------------------------------------------------------
  // CR0 (configuration 0)
  // ---------------------------------------------------------------------

  const CmodeOff: bv8 := 0x00
  const CmodeAuto: bv8 := 0x80
  const OneshotOff: bv8 := 0x00
  const OneshotOn: bv8 := 0x40
  const OcfaultOff: bv8 := 0x00
  const Ocfault10ms: bv8 := 0x10
  const Ocfault32ms: bv8 := 0x20
  const Ocfault100ms: bv8 := 0x30
  const CjEnabled: bv8 := 0x00
  const CjDisabled: bv8 := 0x08
  const FaultAuto: bv8 := 0x00
  const FaultManual: bv8 := 0x04
  const FaultClrDef: bv8 := 0x00
  const FaultClrAlt: bv8 := 0x02
  const Cutoff60Hz: bv8 := 0x00
  const Cutoff50Hz: bv8 := 0x01

  /** The bit fields of CR0: conversion mode [7], one-shot [6], open-circuit
      fault timing [5:4], cold-junction disable [3], fault mode [2], fault
      clear [1], mains filter [0]. */
  const CmodeField: bv8 := 0x80
  const OneshotField: bv8 := 0x40
  const OcfaultField: bv8 := 0x30
  const CjDisableField: bv8 := 0x08
  const FaultField: bv8 := 0x04
  const FaultClrField: bv8 := 0x02
  const FilterField: bv8 := 0x01

  /** The CR0 fields are pairwise disjoint, cover the whole byte, and every
      CR0 constant of the header lies inside its own field. */
  lemma Cr0FieldsDisjoint()
    ensures CmodeField & OneshotField == 0 && CmodeField & OcfaultField == 0
    ensures CmodeField & (CjDisableField | FaultField | FaultClrField | FilterField) == 0
    ensures OneshotField & (OcfaultField | CjDisableField | FaultField | FaultClrField | FilterField) == 0
    ensures OcfaultField & (CjDisableField | FaultField | FaultClrField | FilterField) == 0
    ensures CjDisableField & (FaultField | FaultClrField | FilterField) == 0
    ensures FaultField & (FaultClrField | FilterField) == 0 && FaultClrField & FilterField == 0
    ensures CmodeField | OneshotField | OcfaultField | CjDisableField | FaultField | FaultClrField | FilterField == 0xFF
    ensures CmodeOff & !CmodeField == 0 && CmodeAuto & !CmodeField == 0
    ensures OneshotOff & !OneshotField == 0 && OneshotOn & !OneshotField == 0
    ensures OcfaultOff & !OcfaultField == 0 && Ocfault10ms & !OcfaultField == 0
    ensures Ocfault32ms & !OcfaultField == 0 && Ocfault100ms & !OcfaultField == 0
    ensures CjEnabled & !CjDisableField == 0 && CjDisabled & !CjDisableField == 0
    ensures FaultAuto & !FaultField == 0 && FaultManual & !FaultField == 0
    ensures FaultClrDef & !FaultClrField == 0 && FaultClrAlt & !FaultClrField == 0
    ensures Cutoff60Hz & !FilterField == 0 && Cutoff50Hz & !FilterField == 0
  {
  }

  /** Continuous (auto) conversion or single-shot conversion. */
  datatype ConversionMode = Continuous | SingleShot

  /** Mains-noise rejection filter. */
  datatype Filter = Reject60Hz | Reject50Hz

  function FilterBits(f: Filter): bv8
  {
    match f
    case Reject60Hz => Cutoff60Hz
    case Reject50Hz => Cutoff50Hz
  }

  /** The CR0 byte `config` writes: conversion mode and filter as selected,
      one-shot off, 10 ms open-circuit detection, cold junction enabled,
      automatic fault mode, default fault clear. */
  function Cr0(mode: ConversionMode, filter: Filter): (b: bv8)
    ensures b & OneshotField == 0
    ensures b & CjDisableField == 0
    ensures b & OcfaultField == Ocfault10ms
    ensures b & (FaultField | FaultClrField) == 0
    ensures b & CmodeField != 0 <==> mode == Continuous
    ensures b & FilterField == FilterBits(filter)
  {
    if mode == Continuous then
      CmodeAuto | OneshotOff | Ocfault10ms | CjEnabled | FaultAuto | FaultClrDef | FilterBits(filter)
    else
      CmodeOff | OneshotOff | Ocfault10ms | CjEnabled | FaultAuto | FaultClrDef | FilterBits(filter)
  }

  /** How the chip reads the conversion-mode bit of CR0. */
  function ModeOf(cr0: bv8): ConversionMode
  {
    if cr0 & CmodeField != 0 then Continuous else SingleShot
  }

  /** How the chip reads the filter bit of CR0. */
  function FilterOf(cr0: bv8): Filter
  {
    if cr0 & FilterField != 0 then Reject50Hz else Reject60Hz
  }

  /** The mode and filter selections can be read back out of the CR0 byte,
      and conversely every CR0 byte with the fixed fields `config` uses is
      the encoding of the selections read from it. */
  lemma Cr0RoundTrip(mode: ConversionMode, filter: Filter, b: bv8)
    ensures ModeOf(Cr0(mode, filter)) == mode
    ensures FilterOf(Cr0(mode, filter)) == filter
    ensures b & 0x7E == Ocfault10ms ==> Cr0(ModeOf(b), FilterOf(b)) == b
  {
  }

  // ---------------------------------------------------------------------
  // CR1 (configuration 1)
  // ---------------------------------------------------------------------

  /** Thermocouple types B, E, J, K, N, R, S, T. */
  datatype TcType = TypeB | TypeE | TypeJ | TypeK | TypeN | TypeR | TypeS | TypeT

  /** Sample averaging: 1, 2, 4, 8 or 16 samples. */
  datatype Averaging = Avg1 | Avg2 | Avg4 | Avg8 | Avg16

  /** B_TYPE .. T_TYPE. */
  function TypeBits(t: TcType): bv8
  {
    match t
    case TypeB => 0x00
    case TypeE => 0x01
    case TypeJ => 0x02
    case TypeK => 0x03
    case TypeN => 0x04
    case TypeR => 0x05
    case TypeS => 0x06
    case TypeT => 0x07
  }

  /** AVG_SEL_1SAMP .. AVG_SEL_16SAMP of the current header. */
  function AvgBits(a: Averaging): bv8
  {
    match a
    case Avg1 => 0x00
    case Avg2 => 0x10
    case Avg4 => 0x20
    case Avg8 => 0x30
    case Avg16 => 0x40
  }

  /** Position of an averaging mode in the list 1, 2, 4, 8, 16 samples. */
  function AvgIndex(a: Averaging): nat
  {
    match a
    case Avg1 => 0
    case Avg2 => 1
    case Avg4 => 2
    case Avg8 => 3
    case Avg16 => 4
  }

  /** The CR1 byte `config` writes. */
  function Cr1(avg: Averaging, tc: TcType): bv8
  {
    AvgBits(avg) | TypeBits(tc)
  }

  /** How the chip reads the type field, bits 3:0 of CR1; codes 8..15 select
      modes this driver never writes. */
  function TypeOf(cr1: bv8): Option<TcType>
  {
    var code := cr1 & 0x0F;
    if code == 0 then Some(TypeB)
    else if code == 1 then Some(TypeE)
    else if code == 2 then Some(TypeJ)
    else if code == 3 then Some(TypeK)
    else if code == 4 then Some(TypeN)
    else if code == 5 then Some(TypeR)
    else if code == 6 then Some(TypeS)
    else if code == 7 then Some(TypeT)
    else None
  }

  /** How the chip reads the averaging field, bits 6:4 of CR1: 0, 1, 2, 3
      select 1, 2, 4, 8 samples and any code 0b1xx selects 16. */
  function AvgOf(cr1: bv8): Averaging
  {
    var code := (cr1 >> 4) & 0x07;
    if code == 0 then Avg1
    else if code == 1 then Avg2
    else if code == 2 then Avg4
    else if code == 3 then Avg8
    else Avg16
  }

  /** Encoding then reading back CR1 recovers both selections; the reserved
      bit 7 stays clear; the low nibble is the type code and the high nibble
      the averaging index. */
  lemma Cr1RoundTrip(avg: Averaging, tc: TcType)
    ensures TypeOf(Cr1(avg, tc)) == Some(tc)
    ensures AvgOf(Cr1(avg, tc)) == avg
    ensures Cr1(avg, tc) & 0x0F == TypeBits(tc)
    ensures (Cr1(avg, tc) >> 4) as int == AvgIndex(avg)
    ensures Cr1(avg, tc) & 0x80 == 0
  {
    match avg
    case Avg1 => case Avg2 => case Avg4 => case Avg8 => case Avg16 =>
  }

  /** The CR1 encoding is injective over the 5 x 8 selections. */
  lemma Cr1Injective(a1: Averaging, t1: TcType, a2: Averaging, t2: TcType)
    ensures Cr1(a1, t1) == Cr1(a2, t2) <==> a1 == a2 && t1 == t2
  {
    Cr1RoundTrip(a1, t1);
    Cr1RoundTrip(a2, t2);
  }

  /** Every CR1 byte whose averaging code is one `config` uses (0..4) and
      whose type code names a thermocouple is the encoding of what is read
      from it. */
  lemma Cr1Complete(b: bv8)
    requires b & 0x80 == 0 && (b >> 4) <= 4 && TypeOf(b).Some?
    ensures Cr1(AvgOf(b), TypeOf(b).value) == b
  {
  }

  // ---------------------------------------------------------------------
  // MASK (fault mask)
  // ---------------------------------------------------------------------

  const CjHighMask: bv8 := 0x20
  const CjLowMask: bv8 := 0x10
  const TcHighMask: bv8 := 0x08
  const TcLowMask: bv8 := 0x04
  const OvUvMask: bv8 := 0x02
  const OpenFaultMask: bv8 := 0x01

  /** The mask `config` writes: the four threshold faults are kept off the
      FAULT output, over/under-voltage and open circuit are not. */
  const DefaultMask: bv8 := CjHighMask | CjLowMask | TcHighMask | TcLowMask

  /** The six mask bits are distinct single bits covering bits 5:0; the
      default mask is 0x3C and leaves OV/UV and OPEN unmasked. */
  lemma MaskConstants()
    ensures CjHighMask & (CjLowMask | TcHighMask | TcLowMask | OvUvMask | OpenFaultMask) == 0
    ensures CjLowMask & (TcHighMask | TcLowMask | OvUvMask | OpenFaultMask) == 0
    ensures TcHighMask & (TcLowMask | OvUvMask | OpenFaultMask) == 0
    ensures TcLowMask & (OvUvMask | OpenFaultMask) == 0 && OvUvMask & OpenFaultMask == 0
    ensures CjHighMask | CjLowMask | TcHighMask | TcLowMask | OvUvMask | OpenFaultMask == 0x3F
    ensures DefaultMask == 0x3C
    ensures DefaultMask & (OvUvMask | OpenFaultMask) == 0
  {
  }
}
