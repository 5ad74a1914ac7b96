/**
 * The fault status register (SR) and the status flags of the current
 * driver header (src/PWFusion_MAX31856.h). Each fault is one bit of the
 * byte `getStatus` returns; testing a fault is a single-bit test, and the
 * set of faults a status byte reports determines the byte.
 */
module FaultStatus {

  /** The eight fault conditions, most significant bit first. */
  datatype Fault =
    | CjOutOfRange     // TC_FAULT_CJ_OOR
    | TcOutOfRange     // TC_FAULT_TC_OOR
    | CjTempHigh       // TC_FAULT_CJ_TEMP_HIGH
    | CjTempLow        // TC_FAULT_CJ_TEMP_LOW
    | TcTempHigh       // TC_FAULT_TC_TEMP_HIGH
    | TcTempLow        // TC_FAULT_TC_TEMP_LOW
    | VoltageOutOfRange // TC_FAULT_VOLTAGE_OOR
    | Open             // TC_FAULT_OPEN

  /** The flag constant of each fault. */
  function Flag(f: Fault): bv8
  {
    match f
    case CjOutOfRange => 0x80
    case TcOutOfRange => 0x40
    case CjTempHigh => 0x20
    case CjTempLow => 0x10
    case TcTempHigh => 0x08
    case TcTempLow => 0x04
    case VoltageOutOfRange => 0x02
    case Open => 0x01
  }

  /** The status byte reports fault `f`. */
  predicate Has(status: bv8, f: Fault)
  {
    status & Flag(f) != 0
  }

  /** All faults, in bit order from 7 down to 0. */
  const AllFaults: seq<Fault> :=
    [CjOutOfRange, TcOutOfRange, CjTempHigh, CjTempLow, TcTempHigh, TcTempLow, VoltageOutOfRange, Open]

  lemma AllFaultsComplete(f: Fault)
    ensures f in AllFaults
  {
  }

  /** The set of faults a status byte reports. */
  function Faults(status: bv8): (fs: set<Fault>)
    ensures forall f :: f in fs <==> Has(status, f)
  {
    set f | f in AllFaults && Has(status, f)
  }

  /** The flags of the faults in `fs` that occur in `list`, or-ed together. */
  function Collect(list: seq<Fault>, fs: set<Fault>): (s: bv8)
  {
    if |list| == 0 then 0
    else (if list[0] in fs then Flag(list[0]) else 0) | Collect(list[1..], fs)
  }

  /** Distinct faults have disjoint flags. */
  lemma FlagsDisjoint(f: Fault, g: Fault)
    ensures f != g ==> Flag(f) & Flag(g) == 0
    ensures Flag(f) & Flag(f) != 0
  {
  }

  lemma {:induction false} CollectHas(list: seq<Fault>, fs: set<Fault>, f: Fault)
    ensures Has(Collect(list, fs), f) <==> f in list && f in fs
  {
    if |list| > 0 {
      CollectHas(list[1..], fs, f);
      FlagsDisjoint(list[0], f);
      var rest := Collect(list[1..], fs);
      var head: bv8 := if list[0] in fs then Flag(list[0]) else 0;
      assert (head | rest) & Flag(f) == (head & Flag(f)) | (rest & Flag(f));
      assert f in list <==> f == list[0] || f in list[1..];
    }
  }

  /** The status byte that reports exactly the faults in `fs`. */
  function StatusOf(fs: set<Fault>): (s: bv8)
    ensures forall f :: Has(s, f) <==> f in fs
  {
    forall f ensures Has(Collect(AllFaults, fs), f) <==> f in fs {
      CollectHas(AllFaults, fs, f);
      AllFaultsComplete(f);
    }
    Collect(AllFaults, fs)
  }

  /** A status byte is determined by the faults it reports. */
  lemma StatusExtensional(s: bv8, t: bv8)
    requires forall f :: Has(s, f) <==> Has(t, f)
    ensures s == t
  {
    assert Has(s, CjOutOfRange) == Has(t, CjOutOfRange);
    assert Has(s, TcOutOfRange) == Has(t, TcOutOfRange);
    assert Has(s, CjTempHigh) == Has(t, CjTempHigh);
    assert Has(s, CjTempLow) == Has(t, CjTempLow);
    assert Has(s, TcTempHigh) == Has(t, TcTempHigh);
    assert Has(s, TcTempLow) == Has(t, TcTempLow);
    assert Has(s, VoltageOutOfRange) == Has(t, VoltageOutOfRange);
    assert Has(s, Open) == Has(t, Open);
  }

  /** Decoding a status byte into faults and encoding them again gives the
      byte back, and the other way round. */
  lemma FaultsRoundTrip(s: bv8, fs: set<Fault>)
    ensures StatusOf(Faults(s)) == s
    ensures Faults(StatusOf(fs)) == fs
  {
    StatusExtensional(StatusOf(Faults(s)), s);
  }

  /** The flags are eight distinct single bits whose union is the whole
      byte. */
  lemma FlagsPartitionByte(f: Fault, g: Fault)
    ensures Flag(f) == Flag(g) <==> f == g
    ensures Flag(f) & (Flag(f) - 1) == 0 && Flag(f) != 0
    ensures Flag(CjOutOfRange) | Flag(TcOutOfRange) | Flag(CjTempHigh) | Flag(CjTempLow)
          | Flag(TcTempHigh) | Flag(TcTempLow) | Flag(VoltageOutOfRange) | Flag(Open) == 0xFF
  {
  }

  /** Changing one flag of the byte leaves every other fault test as it
      was. */
  lemma ToggleIndependent(s: bv8, f: Fault, g: Fault)
    requires f != g
    ensures Has(s ^ Flag(g), f) == Has(s, f)
    ensures Has(s ^ Flag(g), g) == !Has(s, g)
  {
    FlagsDisjoint(f, g);
    XorOtherBits(s, Flag(g), Flag(f));
    XorOwnFlag(s, g);
  }

  lemma XorOtherBits(s: bv8, x: bv8, y: bv8)
    requires x & y == 0
    ensures (s ^ x) & y == s & y
  {
  }

  lemma XorOwnFlag(s: bv8, g: Fault)
    ensures Has(s ^ Flag(g), g) == !Has(s, g)
  {
    match g
    case CjOutOfRange => case TcOutOfRange => case CjTempHigh => case CjTempLow =>
    case TcTempHigh => case TcTempLow => case VoltageOutOfRange => case Open =>
  }

  /** Status 0x01 reports only an open thermocouple, 0x08 only a
      thermocouple high-temperature fault, 0x00 nothing. */
  lemma StatusVectors()
    ensures Faults(0x01) == {Open}
    ensures Faults(0x08) == {TcTempHigh}
    ensures Faults(0x00) == {}
  {
    assert Open in Faults(0x01);
    assert TcTempHigh in Faults(0x08);
  }
}
