/**
 * The current driver class `MAX31856` (src/PWFusion_MAX31856.cpp) over the
 * abstract bus: single-register reads and writes, configuration, sampling
 * and the one-shot trigger.
 *
 * The driver object is its bus plus the three fields `sample` fills in.
 * Every operation states the exact events it appends to the trace, what it
 * does to the chip's registers, and what it stores.
 */
module Driver {
  import opened Optional
  import opened Ints
  import opened Registers
  import opened Decode
  import opened Bus

  /** The register `r` in a register file. */
  function RegValue(regs: RegFile, r: Reg): bv8
  {
    regs[Num(r)]
  }

  /** The register file with register `r` set to `v`. */
  function Put(regs: RegFile, r: Reg, v: bv8): RegFile
  {
    regs[Num(r) := v]
  }

  /** The driver object: the bus it talks over and the results of the last
      `sample` (thermocouple count in 2^-7 degC, cold-junction count in
      2^-6 degC, fault status byte). */
  datatype Max31856 = Max31856(line: Line, rawTCTemp: Int32, rawCJTemp: Int16, status: bv8)

  // ---------------------------------------------------------------------
  // readByte / writeByte
  // ---------------------------------------------------------------------

  /** `readByte`: select, send the register number, clock out a dummy zero
      while the register's value comes back, deselect. */
  method ReadByte(l: Line, reg: Reg) returns (l': Line, result: bv8)
    ensures l'.trace == l.trace + Frame(Read(Addr(reg)))
    ensures l'.chip == Chip(l.chip.regs, Idle)
    ensures result == RegValue(l.chip.regs, reg)
  {
    var ignored: bv8;
    NibbleRoundTrip(Addr(reg));
    AddrNum(reg);
    l', ignored := Signal(l, CsLow);
    l', ignored := Signal(l', Xfer(AddrByte(reg)));
    l', result := Signal(l', Xfer(0x00));
    l', ignored := Signal(l', CsHigh);
  }

  /** `writeByte`: select, send the register number with the write flag,
      send the value, deselect. The register file changes by exactly the
      one `Put` (see `PutGet`). */
  method WriteByte(l: Line, reg: Reg, value: bv8) returns (l': Line)
    ensures l'.trace == l.trace + Frame(Write(Addr(reg), value))
    ensures l'.chip == Chip(Put(l.chip.regs, reg, value), Idle)
  {
    var ignored: bv8;
    NibbleRoundTrip(Addr(reg));
    AddrNum(reg);
    l', ignored := Signal(l, CsLow);
    l', ignored := Signal(l', Xfer(AddrByte(reg) | WriteFlag));
    l', ignored := Signal(l', Xfer(value));
    l', ignored := Signal(l', CsHigh);
  }

  /** Setting one register leaves every other register as it was. */
  lemma PutGet(regs: RegFile, r: Reg, v: bv8, s: Reg)
    ensures RegValue(Put(regs, r, v), s) == if r == s then v else RegValue(regs, s)
  {
    AddrBijective(r, s);
  }

  // ---------------------------------------------------------------------
  // config
  // ---------------------------------------------------------------------

  /** The fault thresholds `config` writes: the chip's power-on values. */
  const CjHighThreshold: bv8 := 0x7F
  const CjLowThreshold: bv8 := 0x00
  const TcHighThresholdMsb: bv8 := 0x7F
  const TcHighThresholdLsb: bv8 := 0xFF
  const TcLowThresholdMsb: bv8 := 0xFF
  const TcLowThresholdLsb: bv8 := 0x80

  /** The control-register writes of `config` (CR0, CR1, MASK), in
      order. */
  function ControlWrites(mode: ConversionMode, filter: Filter, avg: Averaging, tc: TcType): seq<Access>
  {
    [Write(Addr(CR0), Cr0(mode, filter)), Write(Addr(CR1), Cr1(avg, tc)), Write(Addr(MASK), DefaultMask)]
  }

  /** The fault-threshold writes of `config`, in order. */
  const ThresholdWrites: seq<Access> :=
    [ Write(Addr(CJHF), CjHighThreshold), Write(Addr(CJLF), CjLowThreshold),
      Write(Addr(LTHFTH), TcHighThresholdMsb), Write(Addr(LTHFTL), TcHighThresholdLsb),
      Write(Addr(LTLFTH), TcLowThresholdMsb), Write(Addr(LTLFTL), TcLowThresholdLsb) ]

  /** The nine writes of `config`, in order. */
  function ConfigWrites(mode: ConversionMode, filter: Filter, avg: Averaging, tc: TcType): seq<Access>
  {
    ControlWrites(mode, filter, avg, tc) + ThresholdWrites
  }

  /** The value `config` leaves in register `r`, or None for the registers
      it does not write. */
  function ConfigValue(mode: ConversionMode, filter: Filter, avg: Averaging, tc: TcType, r: Reg): Option<bv8>
  {
    match r
    case CR0 => Some(Cr0(mode, filter))
    case CR1 => Some(Cr1(avg, tc))
    case MASK => Some(DefaultMask)
    case CJHF => Some(CjHighThreshold)
    case CJLF => Some(CjLowThreshold)
    case LTHFTH => Some(TcHighThresholdMsb)
    case LTHFTL => Some(TcHighThresholdLsb)
    case LTLFTH => Some(TcLowThresholdMsb)
    case LTLFTL => Some(TcLowThresholdLsb)
    case _ => None
  }

  /** The register file after the nine writes of `config`. */
  function ConfigResult(regs: RegFile, mode: ConversionMode, filter: Filter, avg: Averaging, tc: TcType): RegFile
  {
    Thresholds(Put(Put(Put(regs, CR0, Cr0(mode, filter)), CR1, Cr1(avg, tc)), MASK, DefaultMask))
  }

  /** Register by register, the result of `config` is the value it writes
      there, or the old value where it writes nothing. */
  lemma ConfigEffect(regs: RegFile, mode: ConversionMode, filter: Filter, avg: Averaging, tc: TcType, r: Reg)
    ensures RegValue(ConfigResult(regs, mode, filter, avg, tc), r)
         == match ConfigValue(mode, filter, avg, tc, r)
            case Some(v) => v
            case None => RegValue(regs, r)
  {
    var r1 := Put(regs, CR0, Cr0(mode, filter));
    var r2 := Put(r1, CR1, Cr1(avg, tc));
    var r3 := Put(r2, MASK, DefaultMask);
    var t1 := Put(r3, CJHF, CjHighThreshold);
    var t2 := Put(t1, CJLF, CjLowThreshold);
    var t3 := Put(t2, LTHFTH, TcHighThresholdMsb);
    var t4 := Put(t3, LTHFTL, TcHighThresholdLsb);
    var t5 := Put(t4, LTLFTH, TcLowThresholdMsb);
    PutGet(regs, CR0, Cr0(mode, filter), r);
    PutGet(r1, CR1, Cr1(avg, tc), r);
    PutGet(r2, MASK, DefaultMask, r);
    PutGet(r3, CJHF, CjHighThreshold, r);
    PutGet(t1, CJLF, CjLowThreshold, r);
    PutGet(t2, LTHFTH, TcHighThresholdMsb, r);
    PutGet(t3, LTHFTL, TcHighThresholdLsb, r);
    PutGet(t4, LTLFTH, TcLowThresholdMsb, r);
    PutGet(t5, LTLFTL, TcLowThresholdLsb, r);
  }

  /** The frames of a list with one more access. */
  lemma FramesSnoc(done: seq<Access>, acc: Access)
    ensures Frames(done + [acc]) == Frames(done) + Frame(acc)
  {
    FramesAppend(done, [acc]);
  }

  /** A trace that held the frames of `done` and then received the frame
      of `acc` holds the frames of `done + [acc]`. */
  lemma TraceGrows(t: seq<Event>, done: seq<Access>, acc: Access, before: seq<Event>, after: seq<Event>)
    requires before == t + Frames(done)
    requires after == before + Frame(acc)
    ensures after == t + Frames(done + [acc])
  {
    FramesSnoc(done, acc);
  }

  /** Two traces of frames one after the other. */
  lemma FramesThen(t: seq<Event>, a: seq<Access>, b: seq<Access>)
    ensures t + Frames(a) + Frames(b) == t + Frames(a + b)
  {
    FramesAppend(a, b);
  }

  /** The CR0, CR1 and MASK writes of `config`. */
  method WriteControl(l: Line, tc: TcType, filter: Filter, avg: Averaging, mode: ConversionMode)
    returns (l': Line)
    ensures l'.trace == l.trace + Frames(ControlWrites(mode, filter, avg, tc))
    ensures l'.chip == Chip(Put(Put(Put(l.chip.regs, CR0, Cr0(mode, filter)), CR1, Cr1(avg, tc)), MASK, DefaultMask), Idle)
  {
    var ws := ControlWrites(mode, filter, avg, tc);
    ghost var done: seq<Access> := [];
    ghost var before: seq<Event>;
    l' := l;

    // CR0: conversion mode, 10 ms open-circuit detection, filter
    var regdat := Cr0(mode, filter);
    before := l'.trace;
    l' := WriteByte(l', CR0, regdat);
    TraceGrows(l.trace, done, ws[0], before, l'.trace);
    done := done + [ws[0]];
    // CR1: averaging and thermocouple type
    regdat := Cr1(avg, tc);
    before := l'.trace;
    l' := WriteByte(l', CR1, regdat);
    TraceGrows(l.trace, done, ws[1], before, l'.trace);
    done := done + [ws[1]];
    // MASK: the four threshold faults kept off the FAULT pin
    regdat := DefaultMask;
    before := l'.trace;
    l' := WriteByte(l', MASK, regdat);
    TraceGrows(l.trace, done, ws[2], before, l'.trace);
    done := done + [ws[2]];
    assert done == ws;
  }

  /** The register file after the threshold writes of `config`. */
  function Thresholds(regs: RegFile): RegFile
  {
    var r1 := Put(regs, CJHF, CjHighThreshold);
    var r2 := Put(r1, CJLF, CjLowThreshold);
    var r3 := Put(r2, LTHFTH, TcHighThresholdMsb);
    var r4 := Put(r3, LTHFTL, TcHighThresholdLsb);
    var r5 := Put(r4, LTLFTH, TcLowThresholdMsb);
    Put(r5, LTLFTL, TcLowThresholdLsb)
  }

  /** The six fault-threshold writes of `config`, which store the chip's
      power-on values. */
  method WriteThresholds(l: Line) returns (l': Line)
    ensures l'.trace == l.trace + Frames(ThresholdWrites)
    ensures l'.chip == Chip(Thresholds(l.chip.regs), Idle)
  {
    var ws := ThresholdWrites;
    ghost var done: seq<Access> := [];
    ghost var before: seq<Event>;
    l' := l;
    before := l'.trace;
    l' := WriteByte(l', CJHF, CjHighThreshold);
    TraceGrows(l.trace, done, ws[0], before, l'.trace);
    done := done + [ws[0]];
    before := l'.trace;
    l' := WriteByte(l', CJLF, CjLowThreshold);
    TraceGrows(l.trace, done, ws[1], before, l'.trace);
    done := done + [ws[1]];
    before := l'.trace;
    l' := WriteByte(l', LTHFTH, TcHighThresholdMsb);
    TraceGrows(l.trace, done, ws[2], before, l'.trace);
    done := done + [ws[2]];
    before := l'.trace;
    l' := WriteByte(l', LTHFTL, TcHighThresholdLsb);
    TraceGrows(l.trace, done, ws[3], before, l'.trace);
    done := done + [ws[3]];
    before := l'.trace;
    l' := WriteByte(l', LTLFTH, TcLowThresholdMsb);
    TraceGrows(l.trace, done, ws[4], before, l'.trace);
    done := done + [ws[4]];
    before := l'.trace;
    l' := WriteByte(l', LTLFTL, TcLowThresholdLsb);
    TraceGrows(l.trace, done, ws[5], before, l'.trace);
    done := done + [ws[5]];
    assert done == ws;
  }

  /** `config`: nine complete write frames, in the order of
      `ConfigWrites`, after which the mode, filter, averaging and
      thermocouple type can be read back out of CR0 and CR1, the one-shot
      and cold-junction-disable bits of CR0 are clear, and the registers
      `config` does not name are as they were. */
  method Configure(d: Max31856, tc: TcType, filter: Filter, avg: Averaging, mode: ConversionMode)
    returns (d': Max31856)
    ensures d'.line.trace == d.line.trace + Frames(ConfigWrites(mode, filter, avg, tc))
    ensures Parse(Since(d'.line, d.line)) == Some(ConfigWrites(mode, filter, avg, tc))
    ensures d'.line.chip == Chip(ConfigResult(d.line.chip.regs, mode, filter, avg, tc), Idle)
    ensures forall r :: RegValue(d'.line.chip.regs, r)
                     == match ConfigValue(mode, filter, avg, tc, r)
                        case Some(v) => v
                        case None => RegValue(d.line.chip.regs, r)
    ensures ModeOf(RegValue(d'.line.chip.regs, CR0)) == mode
    ensures FilterOf(RegValue(d'.line.chip.regs, CR0)) == filter
    ensures AvgOf(RegValue(d'.line.chip.regs, CR1)) == avg
    ensures TypeOf(RegValue(d'.line.chip.regs, CR1)) == Some(tc)
    ensures RegValue(d'.line.chip.regs, CR0) & (OneshotField | CjDisableField) == 0
    ensures d'.rawTCTemp == d.rawTCTemp && d'.rawCJTemp == d.rawCJTemp && d'.status == d.status
  {
    var l := WriteControl(d.line, tc, filter, avg, mode);
    l := WriteThresholds(l);
    FramesThen(d.line.trace, ControlWrites(mode, filter, avg, tc), ThresholdWrites);
    ParseFrames(ConfigWrites(mode, filter, avg, tc));
    assert Since(l, d.line) == Frames(ConfigWrites(mode, filter, avg, tc));
    forall r
      ensures RegValue(l.chip.regs, r)
           == match ConfigValue(mode, filter, avg, tc, r)
              case Some(v) => v
              case None => RegValue(d.line.chip.regs, r)
    {
      ConfigEffect(d.line.chip.regs, mode, filter, avg, tc, r);
    }
    Cr0RoundTrip(mode, filter, 0);
    Cr1RoundTrip(avg, tc);
    d' := d.(line := l);
  }

  // ---------------------------------------------------------------------
  // sample / getStatus
  // ---------------------------------------------------------------------

  const ColdJunctionReads: seq<Access> := [Read(Addr(CJTH)), Read(Addr(CJTL))]
  const ThermocoupleReads: seq<Access> := [Read(Addr(LTCBH)), Read(Addr(LTCBM)), Read(Addr(LTCBL))]

  /** The six reads of `sample`, in order. */
  const SampleReads: seq<Access> := [Read(Addr(SR))] + ColdJunctionReads + ThermocoupleReads

  /** The cold-junction half of `sample`: read CJTH then CJTL and decode
      them. */
  method ReadColdJunction(l: Line) returns (l': Line, cj: Int16)
    ensures l'.trace == l.trace + Frames(ColdJunctionReads)
    ensures l'.chip == Chip(l.chip.regs, Idle)
    ensures cj as int == ColdJunction(RegValue(l.chip.regs, CJTH), RegValue(l.chip.regs, CJTL))
  {
    var msb, lsb: bv8;
    l', msb := ReadByte(l, CJTH);
    l', lsb := ReadByte(l', CJTL);
    assert Frames(ColdJunctionReads) == Frame(ColdJunctionReads[0]) + Frame(ColdJunctionReads[1]) by {
      FramesSnoc([ColdJunctionReads[0]], ColdJunctionReads[1]);
    }
    cj := ColdJunction(msb, lsb) as Int16;
  }

  /** The thermocouple half of `sample`: read LTCBH, LTCBM, LTCBL and
      decode them. */
  method ReadThermocouple(l: Line) returns (l': Line, tc: Int32)
    ensures l'.trace == l.trace + Frames(ThermocoupleReads)
    ensures l'.chip == Chip(l.chip.regs, Idle)
    ensures tc as int
         == Thermocouple(RegValue(l.chip.regs, LTCBH), RegValue(l.chip.regs, LTCBM), RegValue(l.chip.regs, LTCBL))
  {
    var b2, b1, b0: bv8;
    var ws := ThermocoupleReads;
    l', b2 := ReadByte(l, LTCBH);
    assert l'.trace == l.trace + Frames([ws[0]]);
    ghost var before := l'.trace;
    l', b1 := ReadByte(l', LTCBM);
    TraceGrows(l.trace, [ws[0]], ws[1], before, l'.trace);
    before := l'.trace;
    l', b0 := ReadByte(l', LTCBL);
    TraceGrows(l.trace, [ws[0]] + [ws[1]], ws[2], before, l'.trace);
    assert [ws[0]] + [ws[1]] + [ws[2]] == ws;
    tc := Thermocouple(b2, b1, b0) as Int32;
  }

  /** `sample`: six complete read frames and no write; the status byte is
      stored unmodified and both temperatures are decoded, whatever the
      status says. */
  method Sample(d: Max31856) returns (d': Max31856)
    ensures d'.line.trace == d.line.trace + Frames(SampleReads)
    ensures Parse(Since(d'.line, d.line)) == Some(SampleReads)
    ensures d'.line.chip == Chip(d.line.chip.regs, Idle)
    ensures d'.status == RegValue(d.line.chip.regs, SR)
    ensures d'.rawCJTemp as int == ColdJunction(RegValue(d.line.chip.regs, CJTH), RegValue(d.line.chip.regs, CJTL))
    ensures d'.rawTCTemp as int
         == Thermocouple(RegValue(d.line.chip.regs, LTCBH), RegValue(d.line.chip.regs, LTCBM), RegValue(d.line.chip.regs, LTCBL))
  {
    var l := d.line;
    var status: bv8;
    var cj: Int16;
    var tc: Int32;
    l, status := ReadByte(l, SR);
    assert l.trace == d.line.trace + Frames([Read(Addr(SR))]);
    l, cj := ReadColdJunction(l);
    FramesThen(d.line.trace, [Read(Addr(SR))], ColdJunctionReads);
    l, tc := ReadThermocouple(l);
    FramesThen(d.line.trace, [Read(Addr(SR))] + ColdJunctionReads, ThermocoupleReads);
    ParseFrames(SampleReads);
    assert Since(l, d.line) == Frames(SampleReads);
    d' := Max31856(l, tc, cj, status);
  }

  /** `getStatus`: the status byte stored by the last `sample`. */
  function GetStatus(d: Max31856): bv8
  {
    d.status
  }

  // ---------------------------------------------------------------------
  // startOneShotMeasurement / setColdJunctionOffset
  // ---------------------------------------------------------------------

  /** The effect of the one-shot trigger on the register file: bit 6 of CR0
      set, nothing else changed. */
  function SetOneShot(regs: RegFile): RegFile
  {
    Put(regs, CR0, RegValue(regs, CR0) | OneshotOn)
  }

  /** Triggering twice leaves the registers as triggering once, and the
      trigger changes only bit 6 of CR0. */
  lemma SetOneShotIdempotent(regs: RegFile)
    ensures SetOneShot(SetOneShot(regs)) == SetOneShot(regs)
    ensures RegValue(SetOneShot(regs), CR0) & OneshotField != 0
    ensures RegValue(SetOneShot(regs), CR0) & !OneshotField == RegValue(regs, CR0) & !OneshotField
    ensures forall r :: r != CR0 ==> RegValue(SetOneShot(regs), r) == RegValue(regs, r)
  {
    forall r | r != CR0
      ensures RegValue(SetOneShot(regs), r) == RegValue(regs, r)
    {
      AddrBijective(r, CR0);
    }
  }

  /** `startOneShotMeasurement`: read CR0, or in the one-shot bit, write it
      back. */
  method StartOneShot(d: Max31856) returns (d': Max31856)
    ensures d'.line.trace
         == d.line.trace + Frames([Read(Addr(CR0)), Write(Addr(CR0), RegValue(d.line.chip.regs, CR0) | OneshotOn)])
    ensures d'.line.chip == Chip(SetOneShot(d.line.chip.regs), Idle)
    ensures d'.rawTCTemp == d.rawTCTemp && d'.rawCJTemp == d.rawCJTemp && d'.status == d.status
  {
    var l := d.line;
    var value: bv8;
    l, value := ReadByte(l, CR0);
    assert l.trace == d.line.trace + Frames([Read(Addr(CR0))]);
    ghost var before := l.trace;
    value := value | OneshotOn;
    l := WriteByte(l, CR0, value);
    TraceGrows(d.line.trace, [Read(Addr(CR0))], Write(Addr(CR0), value), before, l.trace);
    d' := d.(line := l);
  }

  /** The register write of `setColdJunctionOffset`, from the signed
      offset count (2^-4 degC per count) on: CJTO receives its
      two's-complement byte, which reads back as the same count. */
  method SetColdJunctionOffset(d: Max31856, rawValue: Int8) returns (d': Max31856)
    ensures d'.line.trace == d.line.trace + Frame(Write(Addr(CJTO), ByteOfInt8(rawValue)))
    ensures d'.line.chip == Chip(Put(d.line.chip.regs, CJTO, ByteOfInt8(rawValue)), Idle)
    ensures Int8OfByte(RegValue(d'.line.chip.regs, CJTO)) == rawValue
  {
    var l := WriteByte(d.line, CJTO, ByteOfInt8(rawValue));
    Int8OfByteOfInt8(rawValue);
    d' := d.(line := l);
  }
}
