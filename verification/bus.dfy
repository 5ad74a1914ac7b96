/**
 * The SPI transactions both drivers use to reach the converter's registers,
 * over an abstract register file.
 *
 * A bus is a chip (sixteen registers and the position inside the current
 * transaction) plus the trace of everything put on the wires so far:
 * chip-select going low, one byte transferred, chip-select going high. A
 * register access is one frame of four events: select, the address byte
 * (bit 7 set for a write, the register number in bits 3:0), the data byte
 * (0x00 when reading), deselect. The chip samples the address on the first
 * transfer after select and reads or writes the addressed register on the
 * second.
 */
module Bus {
  import opened Optional

  /** The sixteen 8-bit registers, indexed by address. */
  type RegFile = s: seq<bv8> | |s| == 16 witness seq(16, i => 0x00)

  /** One thing happening on the bus wires. */
  datatype Event =
    | CsLow           // chip select asserted: a transaction starts
    | CsHigh          // chip select released: the transaction ends
    | Xfer(mosi: bv8) // one byte clocked out to the chip

  /** One register access as the chip sees it. */
  datatype Access = Read(addr: bv4) | Write(addr: bv4, value: bv8)

  /** Bit 7 of the address byte selects a write. */
  const WriteFlag: bv8 := 0x80

  /** The address byte of an access: the register number, with the write
      flag or-ed in for a write. */
  function AddressByte(acc: Access): (b: bv8)
    ensures b & 0x0F == acc.addr as bv8
    ensures b & 0x70 == 0
    ensures b & WriteFlag != 0 <==> acc.Write?
  {
    if acc.Write? then acc.addr as bv8 | WriteFlag else acc.addr as bv8
  }

  /** The byte sent after the address: the value for a write, a dummy 0x00
      for a read. */
  function DataByte(acc: Access): bv8
  {
    if acc.Write? then acc.value else 0x00
  }

  /** The events of one access. */
  function Frame(acc: Access): seq<Event>
  {
    [CsLow, Xfer(AddressByte(acc)), Xfer(DataByte(acc)), CsHigh]
  }

  /** The events of a sequence of accesses, one frame after another. */
  function Frames(accs: seq<Access>): (es: seq<Event>)
    ensures |es| == 4 * |accs|
  {
    if |accs| == 0 then [] else Frame(accs[0]) + Frames(accs[1..])
  }

  lemma {:induction false} FramesAppend(a: seq<Access>, b: seq<Access>)
    ensures Frames(a + b) == Frames(a) + Frames(b)
    decreases |a|
  {
    if |a| == 0 {
      assert a + b == b;
    } else {
      assert (a + b)[0] == a[0];
      assert (a + b)[1..] == a[1..] + b;
      FramesAppend(a[1..], b);
    }
  }

  // ---------------------------------------------------------------------
  // Reading the accesses back off the wires
  // ---------------------------------------------------------------------

  /** The access an address byte and a data byte stand for, if they are a
      well-formed frame body: bits 6:4 of the address clear, and a zero
      dummy byte after a read address. */
  function AccessOf(a: bv8, d: bv8): Option<Access>
  {
    if a & 0x70 != 0 then None
    else if a & WriteFlag != 0 then Some(Write((a & 0x0F) as bv4, d))
    else if d == 0x00 then Some(Read((a & 0x0F) as bv4))
    else None
  }

  lemma AccessOfFrame(acc: Access)
    ensures AccessOf(AddressByte(acc), DataByte(acc)) == Some(acc)
  {
    NibbleRoundTrip(acc.addr);
  }

  lemma NibbleRoundTrip(x: bv4)
    ensures ((x as bv8 | WriteFlag) & 0x0F) as bv4 == x
    ensures ((x as bv8) & 0x0F) as bv4 == x
    ensures (x as bv8) as int == x as int
    ensures Index(x as bv8) == x as int
    ensures Index(x as bv8 | WriteFlag) == x as int
  {
  }

  lemma AccessOfSound(a: bv8, d: bv8)
    requires AccessOf(a, d).Some?
    ensures AddressByte(AccessOf(a, d).value) == a
    ensures DataByte(AccessOf(a, d).value) == d
  {
  }

  /** Split a trace into frames and read one access off each; None if the
      trace is not a sequence of complete, well-formed frames. */
  function Parse(es: seq<Event>): Option<seq<Access>>
    decreases |es|
  {
    if |es| == 0 then Some([])
    else if |es| < 4 then None
    else if es[0] != CsLow || !es[1].Xfer? || !es[2].Xfer? || es[3] != CsHigh then None
    else match (AccessOf(es[1].mosi, es[2].mosi), Parse(es[4..]))
      case (Some(acc), Some(rest)) => Some([acc] + rest)
      case _ => None
  }

  /** Reading back the frames of any accesses gives exactly those
      accesses. */
  lemma {:induction false} ParseFrames(accs: seq<Access>)
    ensures Parse(Frames(accs)) == Some(accs)
  {
    if |accs| > 0 {
      var es := Frames(accs);
      assert es[4..] == Frames(accs[1..]);
      ParseFrames(accs[1..]);
      AccessOfFrame(accs[0]);
      assert [accs[0]] + accs[1..] == accs;
    }
  }

  /** Conversely, a trace that parses is the frames of what it parses
      to. */
  lemma {:induction false} ParseSound(es: seq<Event>)
    requires Parse(es).Some?
    ensures Frames(Parse(es).value) == es
  {
    if |es| > 0 {
      ParseHead(es);
      ParseSound(es[4..]);
      assert es == es[..4] + es[4..];
    }
  }

  /** A non-empty trace that parses starts with the frame of the first
      access it parses to, and the rest parses to the remaining ones. */
  lemma ParseHead(es: seq<Event>)
    requires Parse(es).Some? && |es| > 0
    ensures |es| >= 4 && |Parse(es).value| > 0
    ensures Frame(Parse(es).value[0]) == es[..4]
    ensures Parse(es[4..]).Some? && Parse(es).value[1..] == Parse(es[4..]).value
  {
    AccessOfSound(es[1].mosi, es[2].mosi);
  }

  /** Every parsed frame opens and closes chip select once: the trace of n
      accesses holds n CS-low and n CS-high events. */
  lemma {:induction false} FramesBalanced(accs: seq<Access>)
    ensures multiset(Frames(accs))[CsLow] == |accs|
    ensures multiset(Frames(accs))[CsHigh] == |accs|
  {
    if |accs| > 0 {
      FramesBalanced(accs[1..]);
      assert multiset(Frames(accs)) == multiset(Frame(accs[0])) + multiset(Frames(accs[1..]));
    }
  }

  // ---------------------------------------------------------------------
  // The chip
  // ---------------------------------------------------------------------

  /** Where the chip is inside a transaction. */
  datatype Phase =
    | Idle              // not selected
    | Addressing        // selected, waiting for the address byte
    | Data(addr: bv8)   // address received, waiting for the data byte
    | Done              // data byte handled; further bytes are ignored

  datatype Chip = Chip(regs: RegFile, phase: Phase)

  /** The chip after one event and the byte it shifted back (0x00 for the
      chip-select events and for transfers it does not answer). */
  datatype Reaction = Reaction(chip: Chip, miso: bv8)

  /** The register number in bits 3:0 of an address byte. */
  function Index(a: bv8): (i: nat)
    ensures i < 16
  {
    (a & 0x0F) as int
  }

  function Step(c: Chip, e: Event): Reaction
  {
    match e
    case CsLow => Reaction(Chip(c.regs, Addressing), 0x00)
    case CsHigh => Reaction(Chip(c.regs, Idle), 0x00)
    case Xfer(b) =>
      match c.phase
      case Idle => Reaction(c, 0x00)
      case Addressing => Reaction(Chip(c.regs, Data(b)), 0x00)
      case Data(a) =>
        if a & WriteFlag != 0 then Reaction(Chip(c.regs[Index(a) := b], Done), 0x00)
        else Reaction(Chip(c.regs, Done), c.regs[Index(a)])
      case Done => Reaction(c, 0x00)
  }

  /** The chip after a trace, and the bytes it shifted back, one per
      transfer. */
  datatype Session = Session(chip: Chip, miso: seq<bv8>)

  function Run(c: Chip, es: seq<Event>): (s: Session)
    decreases |es|
  {
    if |es| == 0 then Session(c, [])
    else
      var r := Step(c, es[0]);
      var rest := Run(r.chip, es[1..]);
      Session(rest.chip, (if es[0].Xfer? then [r.miso] else []) + rest.miso)
  }

  /** Running two traces one after the other is running their
      concatenation. */
  lemma {:induction false} RunAppend(c: Chip, e1: seq<Event>, e2: seq<Event>)
    ensures Run(c, e1 + e2).chip == Run(Run(c, e1).chip, e2).chip
    ensures Run(c, e1 + e2).miso == Run(c, e1).miso + Run(Run(c, e1).chip, e2).miso
    decreases |e1|
  {
    if |e1| == 0 {
      assert e1 + e2 == e2;
    } else {
      var r := Step(c, e1[0]);
      var m := if e1[0].Xfer? then [r.miso] else [];
      assert (e1 + e2)[0] == e1[0];
      assert (e1 + e2)[1..] == e1[1..] + e2;
      RunAppend(r.chip, e1[1..], e2);
      assert Run(c, e1 + e2).miso == m + Run(r.chip, e1[1..] + e2).miso;
      assert Run(c, e1).miso == m + Run(r.chip, e1[1..]).miso;
      var a, b := Run(r.chip, e1[1..]).miso, Run(Run(c, e1).chip, e2).miso;
      assert m + (a + b) == (m + a) + b;
    }
  }

  /** What an access does to the register file. */
  function Apply(regs: RegFile, acc: Access): RegFile
  {
    if acc.Write? then regs[acc.addr as int := acc.value] else regs
  }

  /** The byte an access shifts back in its data slot. */
  function Reply(regs: RegFile, acc: Access): bv8
  {
    if acc.Read? then regs[acc.addr as int] else 0x00
  }

  function ApplyAll(regs: RegFile, accs: seq<Access>): RegFile
    decreases |accs|
  {
    if |accs| == 0 then regs else ApplyAll(Apply(regs, accs[0]), accs[1..])
  }

  /** The bytes shifted back during the frames of `accs`: a dummy 0x00
      during each address byte, then the reply. */
  function Replies(regs: RegFile, accs: seq<Access>): seq<bv8>
    decreases |accs|
  {
    if |accs| == 0 then [] else [0x00, Reply(regs, accs[0])] + Replies(Apply(regs, accs[0]), accs[1..])
  }

  /** One frame, whatever state the chip starts in, performs its access,
      shifts back the reply, and leaves the chip idle. */
  lemma RunFrame(c: Chip, acc: Access)
    ensures Run(c, Frame(acc)) == Session(Chip(Apply(c.regs, acc), Idle), [0x00, Reply(c.regs, acc)])
  {
    NibbleRoundTrip(acc.addr);
    var es := Frame(acc);
    var c1 := Step(c, CsLow).chip;
    var r2 := Step(c1, Xfer(AddressByte(acc)));
    var r3 := Step(r2.chip, Xfer(DataByte(acc)));
    var c4 := Step(r3.chip, CsHigh).chip;
    assert r3 == Reaction(Chip(Apply(c.regs, acc), Done), Reply(c.regs, acc));
    assert Run(r3.chip, es[3..]) == Session(c4, []);
    assert Run(r2.chip, es[2..]) == Session(c4, [r3.miso]);
    assert Run(c1, es[1..]) == Session(c4, [0x00, r3.miso]);
  }

  /** The frames of a sequence of accesses perform them in order. */
  lemma {:induction false} RunFrames(c: Chip, accs: seq<Access>)
    requires |accs| > 0
    ensures Run(c, Frames(accs)) == Session(Chip(ApplyAll(c.regs, accs), Idle), Replies(c.regs, accs))
    decreases |accs|
  {
    RunAppend(c, Frame(accs[0]), Frames(accs[1..]));
    RunFrame(c, accs[0]);
    if |accs| > 1 {
      RunFrames(Chip(Apply(c.regs, accs[0]), Idle), accs[1..]);
    }
  }

  // ---------------------------------------------------------------------
  // The bus as the driver sees it
  // ---------------------------------------------------------------------

  /** The chip together with the trace of everything sent to it. */
  datatype Line = Line(chip: Chip, trace: seq<Event>)

  /** Put one event on the wires: it is appended to the trace and the chip
      reacts to it. */
  method Signal(l: Line, e: Event) returns (l': Line, miso: bv8)
    ensures l'.trace == l.trace + [e]
    ensures Reaction(l'.chip, miso) == Step(l.chip, e)
  {
    var r := Step(l.chip, e);
    l' := Line(r.chip, l.trace + [e]);
    miso := r.miso;
  }

  /** The events appended to a trace since an earlier point. */
  function Since(l: Line, earlier: Line): seq<Event>
    requires |earlier.trace| <= |l.trace|
  {
    l.trace[|earlier.trace|..]
  }
}
