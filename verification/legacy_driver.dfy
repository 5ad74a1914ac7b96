/**
 * The legacy driver class `PWF_MAX31856` (PlayingWithFusion_MAX31856.cpp)
 * over the abstract bus.
 *
 * Every register argument is a raw byte of which only bits 3:0 reach the
 * bus, and every write is a masked read-modify-write: one complete read
 * transaction for the register's previous value, then one complete write
 * transaction for the merge. The legacy `update` fills in a result record
 * instead of fields of the driver object.
 */
module LegacyDriver {
  import opened Optional
  import opened Ints
  import opened Registers
  import opened LegacyRegisters
  import opened LegacyDecode
  import opened MaskedMerge
  import opened Bus
  import opened Driver

  /** `struct var_max31856`: the thermocouple count (a 32-bit `long` on
      the target), the cold-junction count and the status byte. */
  datatype LegacyReading = LegacyReading(linTcTemp: Int32, refJcnTemp: Int16, status: bv8)

  // ---------------------------------------------------------------------
  // _sing_reg_read / _sing_reg_write
  // ---------------------------------------------------------------------

  /** `_sing_reg_read`: select, send bits 3:0 of `regAdd` (bit 7 clear),
      clock out a dummy zero while the register's value comes back,
      deselect. */
  method SingRegRead(l: Line, regAdd: bv8) returns (l': Line, regData: bv8)
    ensures l'.trace == l.trace + Frame(Read(Nibble(regAdd)))
    ensures l'.chip == Chip(l.chip.regs, Idle)
    ensures regData == l.chip.regs[Nibble(regAdd) as int]
  {
    var ignored: bv8;
    NibbleRoundTrip(Nibble(regAdd));
    l', ignored := Signal(l, CsLow);
    l', ignored := Signal(l', Xfer(regAdd & 0x0F));
    l', regData := Signal(l', Xfer(0x00));
    l', ignored := Signal(l', CsHigh);
  }

  /** The two accesses of a masked write to register `n` whose previous
      value is `orig`. */
  function MaskedAccesses(n: bv4, orig: bv8, bitMask: bv8, regData: bv8): seq<Access>
  {
    [Read(n), Write(n, Merge(orig, bitMask, regData))]
  }

  /** `_sing_reg_write`: a complete read transaction, then a complete write
      transaction of the merge of the value read with `regData` under
      `bitMask`. The addressed register takes the merge; no other register
      changes. */
  method SingRegWrite(l: Line, regAdd: bv8, bitMask: bv8, regData: bv8) returns (l': Line)
    ensures l'.trace
         == l.trace + Frames(MaskedAccesses(Nibble(regAdd), l.chip.regs[Nibble(regAdd) as int], bitMask, regData))
    ensures l'.chip
         == Chip(l.chip.regs[Nibble(regAdd) as int := Merge(l.chip.regs[Nibble(regAdd) as int], bitMask, regData)], Idle)
  {
    var origRegData: bv8;
    l', origRegData := SingRegRead(l, regAdd);
    assert l'.trace == l.trace + Frames([Read(Nibble(regAdd))]);
    ghost var before := l'.trace;
    var newRegData := Merge(origRegData, bitMask, regData);
    var ignored: bv8;
    NibbleRoundTrip(Nibble(regAdd));
    l', ignored := Signal(l', CsLow);
    l', ignored := Signal(l', Xfer((regAdd & 0x0F) | 0x80));
    l', ignored := Signal(l', Xfer(newRegData));
    l', ignored := Signal(l', CsHigh);
    assert l'.trace == before + Frame(Write(Nibble(regAdd), newRegData));
    TraceGrows(l.trace, [Read(Nibble(regAdd))], Write(Nibble(regAdd), newRegData), before, l'.trace);
  }

  /** `_sing_reg_read` of the legacy define of `r`. */
  method RegRead(l: Line, r: Reg) returns (l': Line, regData: bv8)
    ensures l'.trace == l.trace + Frame(Read(Addr(r)))
    ensures l'.chip == Chip(l.chip.regs, Idle)
    ensures regData == RegValue(l.chip.regs, r)
  {
    RegDefineAddr(r);
    l', regData := SingRegRead(l, RegDefine(r));
  }

  /** `_sing_reg_write` to the legacy define of `r`. */
  method RegWrite(l: Line, r: Reg, bitMask: bv8, regData: bv8) returns (l': Line)
    ensures l'.trace == l.trace + Frames(MaskedAccesses(Addr(r), RegValue(l.chip.regs, r), bitMask, regData))
    ensures l'.chip == Chip(Put(l.chip.regs, r, Merge(RegValue(l.chip.regs, r), bitMask, regData)), Idle)
  {
    RegDefineAddr(r);
    l' := SingRegWrite(l, RegDefine(r), bitMask, regData);
  }

  // ---------------------------------------------------------------------
  // MAX31856_config
  // ---------------------------------------------------------------------

  /** The accesses of the legacy `config` on a chip whose registers are
      `regs`: a masked write of CR0 and of CR1 under the full mask 0xFF,
      then of MASK under 0x3F. */
  function LegacyConfigAccesses(regs: RegFile, tcType: bv8, filtFreq: bv8, avgMode: bv8, measMode: bv8): seq<Access>
  {
    MaskedAccesses(Addr(CR0), RegValue(regs, CR0), 0xFF, LegacyCr0(filtFreq, measMode))
    + MaskedAccesses(Addr(CR1), RegValue(regs, CR1), 0xFF, avgMode | tcType)
    + MaskedAccesses(Addr(MASK), RegValue(regs, MASK), MaskWriteMask, DefaultMask)
  }

  /** The register file after the legacy `config`. */
  function LegacyConfigResult(regs: RegFile, tcType: bv8, filtFreq: bv8, avgMode: bv8, measMode: bv8): RegFile
  {
    var r1 := Put(regs, CR0, LegacyCr0(filtFreq, measMode));
    var r2 := Put(r1, CR1, avgMode | tcType);
    Put(r2, MASK, Merge(RegValue(regs, MASK), MaskWriteMask, DefaultMask))
  }

  /** Register by register, the legacy `config` overwrites CR0 and CR1,
      replaces bits 5:0 of MASK by 0x3C keeping bits 7:6, and leaves every
      other register, the fault thresholds included, as it was. */
  lemma LegacyConfigEffect(regs: RegFile, tcType: bv8, filtFreq: bv8, avgMode: bv8, measMode: bv8, r: Reg)
    ensures RegValue(LegacyConfigResult(regs, tcType, filtFreq, avgMode, measMode), r)
         == if r == CR0 then LegacyCr0(filtFreq, measMode)
            else if r == CR1 then avgMode | tcType
            else if r == MASK then (RegValue(regs, MASK) & 0xC0) | DefaultMask
            else RegValue(regs, r)
  {
    var r1 := Put(regs, CR0, LegacyCr0(filtFreq, measMode));
    var r2 := Put(r1, CR1, avgMode | tcType);
    PutGet(regs, CR0, LegacyCr0(filtFreq, measMode), r);
    PutGet(r1, CR1, avgMode | tcType, r);
    PutGet(r2, MASK, Merge(RegValue(regs, MASK), MaskWriteMask, DefaultMask), r);
  }

  /** The CR0 and CR1 writes of the legacy `config`. */
  method LegacyWriteControl(l: Line, tcType: bv8, filtFreq: bv8, avgMode: bv8, measMode: bv8) returns (l': Line)
    ensures l'.trace
         == l.trace + Frames(MaskedAccesses(Addr(CR0), RegValue(l.chip.regs, CR0), 0xFF, LegacyCr0(filtFreq, measMode))
                           + MaskedAccesses(Addr(CR1), RegValue(l.chip.regs, CR1), 0xFF, avgMode | tcType))
    ensures l'.chip == Chip(Put(Put(l.chip.regs, CR0, LegacyCr0(filtFreq, measMode)), CR1, avgMode | tcType), Idle)
  {
    // CR0: conversion mode, 10 ms open-circuit detection, filter
    var regdat := LegacyCr0(filtFreq, measMode);
    MergeExtremes(RegValue(l.chip.regs, CR0), regdat);
    l' := RegWrite(l, CR0, 0xFF, regdat);
    ghost var before := l'.trace;
    // CR1: averaging and thermocouple type
    regdat := avgMode | tcType;
    PutGet(l.chip.regs, CR0, LegacyCr0(filtFreq, measMode), CR1);
    MergeExtremes(RegValue(l.chip.regs, CR1), regdat);
    l' := RegWrite(l', CR1, 0xFF, regdat);
    FramesThen(l.trace,
               MaskedAccesses(Addr(CR0), RegValue(l.chip.regs, CR0), 0xFF, LegacyCr0(filtFreq, measMode)),
               MaskedAccesses(Addr(CR1), RegValue(l.chip.regs, CR1), 0xFF, avgMode | tcType));
  }

  /** `MAX31856_config` with the selections as raw bytes: three masked
      writes, six complete frames, no threshold register written. */
  method LegacyConfigure(l: Line, tcType: bv8, filtFreq: bv8, avgMode: bv8, measMode: bv8) returns (l': Line)
    ensures l'.trace == l.trace + Frames(LegacyConfigAccesses(l.chip.regs, tcType, filtFreq, avgMode, measMode))
    ensures Parse(Since(l', l)) == Some(LegacyConfigAccesses(l.chip.regs, tcType, filtFreq, avgMode, measMode))
    ensures l'.chip == Chip(LegacyConfigResult(l.chip.regs, tcType, filtFreq, avgMode, measMode), Idle)
    ensures forall r :: RegValue(l'.chip.regs, r)
                     == if r == CR0 then LegacyCr0(filtFreq, measMode)
                        else if r == CR1 then avgMode | tcType
                        else if r == MASK then (RegValue(l.chip.regs, MASK) & 0xC0) | DefaultMask
                        else RegValue(l.chip.regs, r)
  {
    l' := LegacyWriteControl(l, tcType, filtFreq, avgMode, measMode);
    // MASK: bits 5:0 only; the threshold faults kept off the FAULT pin
    var regdat := DefaultMask;
    PutGet(l.chip.regs, CR0, LegacyCr0(filtFreq, measMode), MASK);
    PutGet(Put(l.chip.regs, CR0, LegacyCr0(filtFreq, measMode)), CR1, avgMode | tcType, MASK);
    l' := RegWrite(l', MASK, MaskWriteMask, regdat);
    ghost var ws := LegacyConfigAccesses(l.chip.regs, tcType, filtFreq, avgMode, measMode);
    FramesThen(l.trace, ws[..4], ws[4..]);
    assert ws[..4] + ws[4..] == ws;
    ParseFrames(ws);
    forall r
      ensures RegValue(l'.chip.regs, r)
           == if r == CR0 then LegacyCr0(filtFreq, measMode)
              else if r == CR1 then avgMode | tcType
              else if r == MASK then (RegValue(l.chip.regs, MASK) & 0xC0) | DefaultMask
              else RegValue(l.chip.regs, r)
    {
      LegacyConfigEffect(l.chip.regs, tcType, filtFreq, avgMode, measMode, r);
    }
  }

  /** For the header constants of the same selections, the two `config`
      variants leave the same CR0, the same bits 5:0 of MASK, and the same
      CR1 exactly when one sample is selected; the legacy one leaves the
      fault thresholds where they were while the current one writes the
      power-on values. */
  lemma ConfigVariants(regs: RegFile, mode: ConversionMode, filter: Filter, avg: Averaging, tc: TcType)
    ensures var legacy := LegacyConfigResult(regs, TypeBits(tc), FilterBits(filter), LegacyAvgBits(avg), MeasModeBits(mode));
            var current := ConfigResult(regs, mode, filter, avg, tc);
            && RegValue(legacy, CR0) == RegValue(current, CR0)
            && RegValue(legacy, CR1) == LegacyCr1(avg, tc)
            && (RegValue(legacy, CR1) == RegValue(current, CR1) <==> avg == Avg1)
            && RegValue(legacy, MASK) & MaskWriteMask == RegValue(current, MASK)
            && RegValue(legacy, CJHF) == RegValue(regs, CJHF)
            && RegValue(current, CJHF) == CjHighThreshold
  {
    var a := TypeBits(tc);
    var f := FilterBits(filter);
    var v := LegacyAvgBits(avg);
    var m := MeasModeBits(mode);
    LegacyConfigEffect(regs, a, f, v, m, CR0);
    LegacyConfigEffect(regs, a, f, v, m, CR1);
    LegacyConfigEffect(regs, a, f, v, m, MASK);
    LegacyConfigEffect(regs, a, f, v, m, CJHF);
    ConfigEffect(regs, mode, filter, avg, tc, CR0);
    ConfigEffect(regs, mode, filter, avg, tc, CR1);
    ConfigEffect(regs, mode, filter, avg, tc, MASK);
    ConfigEffect(regs, mode, filter, avg, tc, CJHF);
    LegacyCr0Agrees(mode, filter, 0, 0);
    LegacyAvgMisread(avg, tc);
    assert LegacyCr1(avg, tc) == v | a;
  }

  // ---------------------------------------------------------------------
  // MAX31856_update
  // ---------------------------------------------------------------------

  /** The cold-junction half of the legacy `update`. */
  method UpdateColdJunction(l: Line) returns (l': Line, cj: Int16)
    ensures l'.trace == l.trace + Frames(ColdJunctionReads)
    ensures l'.chip == Chip(l.chip.regs, Idle)
    ensures cj as int == LegacyColdJunction(RegValue(l.chip.regs, CJTH), RegValue(l.chip.regs, CJTL))
  {
    var msb, lsb: bv8;
    l', msb := RegRead(l, CJTH);
    l', lsb := RegRead(l', CJTL);
    assert Frames(ColdJunctionReads) == Frame(ColdJunctionReads[0]) + Frame(ColdJunctionReads[1]) by {
      FramesSnoc([ColdJunctionReads[0]], ColdJunctionReads[1]);
    }
    cj := LegacyColdJunction(msb, lsb) as Int16;
  }

  /** The thermocouple half of the legacy `update`. */
  method UpdateThermocouple(l: Line) returns (l': Line, tc: Int32)
    ensures l'.trace == l.trace + Frames(ThermocoupleReads)
    ensures l'.chip == Chip(l.chip.regs, Idle)
    ensures tc as int
         == LegacyThermocouple(RegValue(l.chip.regs, LTCBH), RegValue(l.chip.regs, LTCBM), RegValue(l.chip.regs, LTCBL))
  {
    var b2, b1, b0: bv8;
    var ws := ThermocoupleReads;
    l', b2 := RegRead(l, LTCBH);
    assert l'.trace == l.trace + Frames([ws[0]]);
    ghost var before := l'.trace;
    l', b1 := RegRead(l', LTCBM);
    TraceGrows(l.trace, [ws[0]], ws[1], before, l'.trace);
    before := l'.trace;
    l', b0 := RegRead(l', LTCBL);
    TraceGrows(l.trace, [ws[0]] + [ws[1]], ws[2], before, l'.trace);
    assert [ws[0]] + [ws[1]] + [ws[2]] == ws;
    tc := LegacyThermocouple(b2, b1, b0) as Int32;
  }

  /** `MAX31856_update`: the same six read frames as the current `sample`
      and no write; the status byte is stored unmodified and both
      temperatures are decoded by the legacy decoders, whatever the status
      says. */
  method Update(l: Line) returns (l': Line, reading: LegacyReading)
    ensures l'.trace == l.trace + Frames(SampleReads)
    ensures Parse(Since(l', l)) == Some(SampleReads)
    ensures l'.chip == Chip(l.chip.regs, Idle)
    ensures reading.status == RegValue(l.chip.regs, SR)
    ensures reading.refJcnTemp as int == LegacyColdJunction(RegValue(l.chip.regs, CJTH), RegValue(l.chip.regs, CJTL))
    ensures reading.linTcTemp as int
         == LegacyThermocouple(RegValue(l.chip.regs, LTCBH), RegValue(l.chip.regs, LTCBM), RegValue(l.chip.regs, LTCBL))
  {
    var status: bv8;
    var cj: Int16;
    var tc: Int32;
    l', status := RegRead(l, SR);
    assert l'.trace == l.trace + Frames([Read(Addr(SR))]);
    l', cj := UpdateColdJunction(l');
    FramesThen(l.trace, [Read(Addr(SR))], ColdJunctionReads);
    l', tc := UpdateThermocouple(l');
    FramesThen(l.trace, [Read(Addr(SR))] + ColdJunctionReads, ThermocoupleReads);
    ParseFrames(SampleReads);
    assert Since(l', l) == Frames(SampleReads);
    reading := LegacyReading(tc, cj, status);
  }

  // ---------------------------------------------------------------------
  // MAX31856_1shot_start / MAX31856_CJ_offset
  // ---------------------------------------------------------------------

  /** `MAX31856_1shot_start`: a masked write of ONESHOT_ON under the mask
      ONESHOT_ON. On the bus and on the chip it is indistinguishable from
      the current `startOneShotMeasurement`: the same read of CR0, the same
      write of CR0 | 0x40, the same register file afterwards. */
  method OneShotStart(l: Line) returns (l': Line)
    ensures l'.trace
         == l.trace + Frames([Read(Addr(CR0)), Write(Addr(CR0), RegValue(l.chip.regs, CR0) | OneshotOn)])
    ensures l'.chip == Chip(SetOneShot(l.chip.regs), Idle)
  {
    MergeSetBits(RegValue(l.chip.regs, CR0), OneshotOn);
    l' := RegWrite(l, CR0, OneshotOn, OneshotOn);
  }

  /** `MAX31856_CJ_offset`: a full-mask write of the offset's
      two's-complement byte to CJTO, which reads back as the same signed
      byte; no other register changes. */
  method CjOffset(l: Line, offsetVal: Int8) returns (l': Line)
    ensures l'.trace
         == l.trace + Frames([Read(Addr(CJTO)), Write(Addr(CJTO), ByteOfInt8(offsetVal))])
    ensures l'.chip == Chip(Put(l.chip.regs, CJTO, ByteOfInt8(offsetVal)), Idle)
    ensures Int8OfByte(RegValue(l'.chip.regs, CJTO)) == offsetVal
  {
    MergeExtremes(RegValue(l.chip.regs, CJTO), ByteOfInt8(offsetVal));
    l' := RegWrite(l, CJTO, 0xFF, ByteOfInt8(offsetVal));
    Int8OfByteOfInt8(offsetVal);
  }
}
