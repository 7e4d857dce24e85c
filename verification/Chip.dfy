/**
  The two views of the serial port that src/uart.c drives through its injected
  seam: what a bus of unknown behaviour has been told, and what an honest 16550
  family chip does.
 */
module Chip {
  import opened Text

  /** The bit of v that a power of two selects. */
  predicate Bit(v: byte, mask: nat) {
    mask > 0 && v as int / mask % 2 == 1
  }

  // Register offsets.
  const RBR: nat := 0
  const THR: nat := 0
  const DLL: nat := 0
  const IER: nat := 1
  const DLM: nat := 1
  const IIR: nat := 2
  const FCR: nat := 2
  const LCR: nat := 3
  const MCR: nat := 4
  const LSR: nat := 5
  const MSR: nat := 6
  const SCR: nat := 7

  // Bits and patterns.
  const DLAB: byte := 0x80
  const LCR_8N1: byte := 0x03
  const LSR_DR: byte := 0x01
  const LSR_OE: byte := 0x02
  const LSR_FE: byte := 0x08
  const LSR_BI: byte := 0x10
  const LSR_THRE: byte := 0x20
  const LSR_TEMT: byte := 0x40
  const MCR_OUT2: byte := 0x08
  const MCR_LOOP: byte := 0x10
  const MCR_LIVE: byte := 0x03
  const MCR_TEST: byte := 0x17
  const FCR_DETECT: byte := 0xE7
  const FCR_ENABLE: byte := 0xC7
  const SENTINEL: byte := 0xAE

  // ------------------------------------------------------------------
  // A bus of any behaviour: what has been written to it
  // ------------------------------------------------------------------

  /**
    The last values written (-1 before any write), the bytes that may have gone
    out on the line, whether OUT2, which gates the interrupt line, was ever set, how
    many reads were made, the answer to the FIFO probe, the last values read from
    the divisor latch, and what the tests were answered.
   */
  datatype Bus = Bus(lcr: int, mcr: int, ier: int, fcr: int, sent: seq<byte>, armed: bool, inputs: nat,
                     probe: int, dll: int, dlm: int, seen: Seen)

  /**
    The last answers (-1 before any): from the interrupt mask after 0x00 and after 0x0F
    was written there, and, while looped back, from the receiver and the modem status.
   */
  datatype Seen = Seen(zero: int, ones: int, echo: int, lines: int)

  const NOTHING_SEEN := Seen(-1, -1, -1, -1)

  predicate Latching(b: Bus) { 0 <= b.lcr < 0x100 && Bit(b.lcr, DLAB) }
  predicate Looped(b: Bus) { 0 <= b.mcr < 0x100 && Bit(b.mcr, MCR_LOOP) }

  /** What an answer shows that is none of the latch's. */
  function SeenAfter(b: Bus, reg: nat, v: byte): Seen {
    if reg == IER && b.ier == 0x00 then b.seen.(zero := v)
    else if reg == IER && b.ier == 0x0F then b.seen.(ones := v)
    else if reg == RBR && Looped(b) then b.seen.(echo := v)
    else if reg == MSR && Looped(b) then b.seen.(lines := v)
    else b.seen
  }

  function BusRead(b: Bus, reg: nat, v: byte): Bus {
    var c := b.(inputs := b.inputs + 1);
    if reg == IIR && b.fcr == FCR_DETECT then c.(probe := v)
    else if reg == DLL && Latching(b) then c.(dll := v)
    else if reg == DLM && Latching(b) then c.(dlm := v)
    else c.(seen := SeenAfter(b, reg, v))
  }

  /**
    Unless the latch is known to be addressed or the chip looped back, a byte to
    offset 0 goes out; an interrupt mask counts only when it is known not to be
    the latch.
   */
  function BusWrite(b: Bus, reg: nat, v: byte): Bus {
    if reg == THR then if Latching(b) || Looped(b) then b else b.(sent := b.sent + [v])
    else if reg == IER then if b.lcr < 0 || Latching(b) then b else b.(ier := v)
    else if reg == FCR then b.(fcr := v)
    else if reg == LCR then b.(lcr := v)
    else if reg == MCR then b.(mcr := v, armed := b.armed || Bit(v, MCR_OUT2))
    else b
  }

  // ------------------------------------------------------------------
  // An honest chip
  // ------------------------------------------------------------------

  datatype Kind = K8250 | K16450 | K16550 | K16550A

  /** A received character with the errors that came with it. */
  datatype Rx = Rx(b: byte, brk: bool, fe: bool)

  /**
    A character read from the receiver: the line status read before it, the
    character as it came in, and how often the line status was read while it stood
    first in the receiver.
   */
  datatype Taken = Taken(b: byte, status: byte, was: Rx, looks: nat)

  /**
    The registers, the transmitter and the receiver; and, as history, what came into
    the receiver, what was taken out of it, how often the first character has been
    looked at, how many characters were lost to overruns, how many line status reads
    reported an overrun, and how many of those found no character there.
   */
  datatype Chip = Chip(kind: Kind, ier: byte, lcr: byte, mcr: byte, scr: byte, dll: byte, dlm: byte,
                       fifoOn: bool, modem: byte,
                       tx: seq<byte>, accepted: seq<byte>, lost: bool,
                       rx: seq<Rx>, oe: bool, status: byte,
                       came: seq<Rx>, taken: seq<Taken>, looks: nat, overran: nat, reports: nat, blind: nat)

  /** What the world does before an operation: how much is shifted out, what arrives. */
  datatype World = World(shift: nat, arrive: seq<Rx>)

  /** A world that leaves the line alone and shifts bytes out at once. */
  ghost predicate Quiet(world: nat -> World) {
    forall n: nat :: |world(n).arrive| == 0 && world(n).shift > 0
  }

  predicate ChipLatch(c: Chip) { Bit(c.lcr, DLAB) }
  predicate ChipLoop(c: Chip) { Bit(c.mcr, MCR_LOOP) }

  function Depth(c: Chip): (n: nat)
    ensures n == 1 || n == 16
  {
    if c.kind == K16550A && c.fifoOn then 16 else 1
  }

  /** Characters enter the receiver in order; one that finds it full is an overrun. */
  function Receive(c: Chip, xs: seq<Rx>): (r: Chip)
    decreases |xs|
  {
    if |xs| == 0 then c
    else if |c.rx| < Depth(c) then Receive(c.(rx := c.rx + [xs[0]], came := c.came + [xs[0]]), xs[1..])
    else Receive(c.(oe := true, overran := c.overran + 1), xs[1..])
  }

  function Clean(bs: seq<byte>): seq<Rx> {
    seq(|bs|, i requires 0 <= i < |bs| => Rx(bs[i], false, false))
  }

  /** The transmitter shifts bytes out, or round to the receiver in loopback, where the line is cut off. */
  function Turn(c: Chip, w: World): Chip {
    var k := if w.shift < |c.tx| then w.shift else |c.tx|;
    var d := c.(tx := c.tx[k..]);
    if ChipLoop(c) then Receive(d, Clean(c.tx[..k])) else Receive(d, w.arrive)
  }

  function LineStatus(c: Chip): byte {
    (if |c.rx| > 0 then LSR_DR as int else 0)
    + (if c.oe then LSR_OE as int else 0)
    + (if |c.rx| > 0 && c.rx[0].fe then LSR_FE as int else 0)
    + (if |c.rx| > 0 && c.rx[0].brk then LSR_BI as int else 0)
    + (if |c.tx| == 0 then LSR_THRE as int + LSR_TEMT as int else 0)
  }

  lemma StatusBits(c: Chip)
    ensures Bit(LineStatus(c), LSR_THRE) <==> |c.tx| == 0
    ensures Bit(LineStatus(c), LSR_TEMT) <==> |c.tx| == 0
    ensures Bit(LineStatus(c), LSR_DR) <==> |c.rx| > 0
    ensures Bit(LineStatus(c), LSR_BI) <==> |c.rx| > 0 && c.rx[0].brk
    ensures Bit(LineStatus(c), LSR_FE) <==> |c.rx| > 0 && c.rx[0].fe
    ensures Bit(LineStatus(c), LSR_OE) <==> c.oe
  {}

  /** In loopback the modem inputs are the modem outputs: RTS to CTS, DTR to DSR, OUT1 to RI, OUT2 to DCD. */
  function ModemStatus(c: Chip): byte {
    if !ChipLoop(c) then c.modem
    else (if Bit(c.mcr, 2) then 0x10 else 0) + (if Bit(c.mcr, 1) then 0x20 else 0)
         + (if Bit(c.mcr, 4) then 0x40 else 0) + (if Bit(c.mcr, 8) then 0x80 else 0)
  }

  function Answer(c: Chip, reg: nat): byte {
    if reg == RBR then if ChipLatch(c) then c.dll else if |c.rx| > 0 then c.rx[0].b else 0
    else if reg == IER then if ChipLatch(c) then c.dlm else c.ier
    else if reg == IIR then
      if c.fifoOn && c.kind == K16550A then 0xC1 else if c.fifoOn && c.kind == K16550 then 0x81 else 0x01
    else if reg == LCR then c.lcr
    else if reg == MCR then c.mcr
    else if reg == LSR then LineStatus(c)
    else if reg == MSR then ModemStatus(c)
    else if reg == SCR && c.kind != K8250 then c.scr
    else 0xFF
  }

  /** The first character as it came in. */
  function First(c: Chip): Rx
    requires |c.rx| > 0
  {
    if |c.taken| < |c.came| then c.came[|c.taken|] else c.rx[0]
  }

  /** Reading the line status clears the errors it reported. */
  function Looked(c: Chip): Chip {
    var there := |c.rx| > 0;
    c.(oe := false, status := LineStatus(c),
       rx := if there then [Rx(c.rx[0].b, false, false)] + c.rx[1..] else [],
       looks := c.looks + One(there), reports := c.reports + One(c.oe), blind := c.blind + One(c.oe && !there))
  }

  /** Reading the receiver takes its first character. */
  function AfterTake(c: Chip): Chip
    requires |c.rx| > 0
  {
    c.(rx := c.rx[1..], looks := 0, taken := c.taken + [Taken(c.rx[0].b, c.status, First(c), c.looks)])
  }

  function AfterRead(c: Chip, reg: nat): Chip {
    if reg == LSR then Looked(c)
    else if reg == RBR && !ChipLatch(c) && |c.rx| > 0 then AfterTake(c)
    else c
  }

  /** A byte written to a full transmitter is lost. */
  function AfterWrite(c: Chip, reg: nat, v: byte): Chip {
    if reg == THR then
      if ChipLatch(c) then c.(dll := v)
      else if |c.tx| < Depth(c) then
        c.(tx := c.tx + [v], accepted := if ChipLoop(c) then c.accepted else c.accepted + [v])
      else c.(lost := true)
    else if reg == IER then if ChipLatch(c) then c.(dlm := v) else c.(ier := v % 0x10)
    else if reg == FCR then
      if c.kind == K16550 || c.kind == K16550A then
        var d := c.(fifoOn := Bit(v, 1), tx := if Bit(v, 4) then [] else c.tx);
        if Bit(v, 2) then d.(rx := [], looks := 0, came := if |c.taken| <= |c.came| then c.came[..|c.taken|] else c.came) else d
      else c
    else if reg == LCR then c.(lcr := v)
    else if reg == MCR then c.(mcr := v)
    else if reg == SCR then if c.kind != K8250 then c.(scr := v) else c
    else c
  }

  /** What the world cannot change between operations. */
  predicate Turned(a: Chip, b: Chip) {
    && b.kind == a.kind && b.ier == a.ier && b.lcr == a.lcr && b.mcr == a.mcr && b.scr == a.scr
    && b.dll == a.dll && b.dlm == a.dlm && b.fifoOn == a.fifoOn && b.modem == a.modem
    && b.accepted == a.accepted && b.lost == a.lost && b.taken == a.taken && b.status == a.status
    && b.looks == a.looks && b.reports == a.reports && b.blind == a.blind
    && |b.tx| <= |a.tx| && a.rx <= b.rx && a.came <= b.came && (Conserved(a) ==> Conserved(b))
  }

  /** A status tells of a character's flags when it is the first that was read with the character in front. */
  predicate Tells(status: byte, x: Rx, looks: nat) {
    && Bit(status, LSR_DR)
    && (Bit(status, LSR_BI) <==> x.brk && looks == 1)
    && (Bit(status, LSR_FE) <==> x.fe && looks == 1)
  }

  predicate Recorded(t: Taken, x: Rx) {
    t.b == x.b && t.was == x && (t.looks > 0 ==> Tells(t.status, x, t.looks))
  }

  /** A character still in the receiver: its flags are there until it is first looked at. */
  predicate Holds(held: Rx, x: Rx, looked: bool) {
    held == if looked then Rx(x.b, false, false) else x
  }

  /**
    What came into the receiver is what was taken out of it and then what it still
    holds, in order; and the status read before a character was taken showed its
    flags exactly if that was the first look at it.
   */
  predicate Conserved(c: Chip) {
    && |c.came| == |c.taken| + |c.rx|
    && (forall i :: 0 <= i < |c.taken| ==> Recorded(c.taken[i], c.came[i]))
    && (forall j :: 0 <= j < |c.rx| ==> Holds(c.rx[j], c.came[|c.taken| + j], j == 0 && c.looks > 0))
    && (|c.rx| == 0 ==> c.looks == 0)
    && (c.looks > 0 ==> |c.rx| > 0 && Tells(c.status, First(c), c.looks))
  }

  lemma StoreConserves(c: Chip, x: Rx)
    requires Conserved(c)
    ensures Conserved(c.(rx := c.rx + [x], came := c.came + [x]))
  {
    hide Tells, Recorded, Holds;
    var d := c.(rx := c.rx + [x], came := c.came + [x]);
    assert Holds(x, x, false) by { HoldsItself(x); }
    assert c.looks > 0 ==> First(d) == First(c);
  }

  lemma HoldsItself(x: Rx)
    ensures Holds(x, x, false)
  {}

  lemma {:induction false} ReceiveTurned(c: Chip, xs: seq<Rx>)
    ensures Turned(c, Receive(c, xs)) && Receive(c, xs).tx == c.tx
    decreases |xs|
  {
    hide Conserved;
    if |xs| > 0 {
      if |c.rx| < Depth(c) {
        if Conserved(c) { StoreConserves(c, xs[0]); }
        ReceiveTurned(c.(rx := c.rx + [xs[0]], came := c.came + [xs[0]]), xs[1..]);
      } else {
        var d := c.(oe := true, overran := c.overran + 1);
        assert Conserved(c) ==> Conserved(d) by { SameReceiver(c, d); }
        ReceiveTurned(d, xs[1..]);
      }
    }
  }

  /** Nothing but the receiver and its history matters. */
  lemma SameReceiver(c: Chip, d: Chip)
    requires d.rx == c.rx && d.came == c.came && d.taken == c.taken && d.looks == c.looks && d.status == c.status
    ensures Conserved(c) ==> Conserved(d)
  {
    hide Tells, Recorded, Holds;
  }

  lemma TurnTurned(c: Chip, w: World)
    ensures Turned(c, Turn(c, w))
    ensures |c.tx| == 0 && |w.arrive| == 0 ==> Turn(c, w) == c
  {
    hide Conserved;
    var k := if w.shift < |c.tx| then w.shift else |c.tx|;
    var d := c.(tx := c.tx[k..]);
    SameReceiver(c, d);
    ReceiveTurned(d, if ChipLoop(c) then Clean(c.tx[..k]) else w.arrive);
    if |c.tx| == 0 { assert c.tx[k..] == c.tx && Clean(c.tx[..k]) == []; }
  }

  /** A look clears the flags of the first character and leaves the others. */
  lemma LookedHeld(c: Chip)
    requires Conserved(c)
    ensures var d := Looked(c);
            |d.rx| == |c.rx| && forall j :: 0 <= j < |d.rx| ==> Holds(d.rx[j], c.came[|c.taken| + j], j == 0)
  {
    hide Bit, LineStatus, Recorded, Tells;
    var d := Looked(c);
    forall j | 0 <= j < |d.rx| ensures Holds(d.rx[j], c.came[|c.taken| + j], j == 0) {
      assert Holds(c.rx[j], c.came[|c.taken| + j], j == 0 && c.looks > 0);
    }
  }

  /** The status tells of the first character as it came in. */
  lemma LookedTells(c: Chip)
    requires Conserved(c) && |c.rx| > 0
    ensures Tells(LineStatus(c), First(c), c.looks + 1)
  {
    StatusBits(c);
    hide Bit, LineStatus, Recorded;
    assert Holds(c.rx[0], c.came[|c.taken|], c.looks > 0);
  }

  lemma LookConserves(c: Chip)
    requires Conserved(c)
    ensures Conserved(Looked(c))
  {
    LookedHeld(c);
    if |c.rx| > 0 { LookedTells(c); }
    hide Bit, LineStatus, Tells, Recorded, Holds;
  }

  lemma TakeConserves(c: Chip)
    requires Conserved(c) && |c.rx| > 0
    ensures Conserved(AfterTake(c))
  {
    hide Bit;
    var d := AfterTake(c);
    assert Holds(c.rx[0], c.came[|c.taken|], c.looks > 0);
    forall i | 0 <= i < |d.taken| ensures Recorded(d.taken[i], d.came[i]) {
      if i < |c.taken| { assert Recorded(c.taken[i], c.came[i]); }
    }
    forall j | 0 <= j < |d.rx| ensures Holds(d.rx[j], d.came[|d.taken| + j], false) {
      assert Holds(c.rx[j + 1], c.came[|c.taken| + (j + 1)], false);
    }
  }

  lemma ReadConserves(c: Chip, reg: nat)
    requires Conserved(c)
    ensures Conserved(AfterRead(c, reg))
  {
    hide Conserved, Looked, AfterTake;
    if reg == LSR { LookConserves(c); } else if |c.rx| > 0 { TakeConserves(c); }
  }

  /** A write leaves the receiver alone or empties it. */
  lemma WriteReceiver(c: Chip, reg: nat, v: byte)
    ensures var d := AfterWrite(c, reg, v);
            && d.taken == c.taken && d.status == c.status
            && ((d.rx == c.rx && d.came == c.came && d.looks == c.looks)
                || (|d.rx| == 0 && d.looks == 0 && (|c.taken| <= |c.came| ==> d.came == c.came[..|c.taken|])))
  {
    hide Bit;
  }

  lemma WriteConserves(c: Chip, reg: nat, v: byte)
    requires Conserved(c)
    ensures Conserved(AfterWrite(c, reg, v))
  {
    WriteReceiver(c, reg, v);
    hide AfterWrite, Tells, Recorded, Holds;
    var d := AfterWrite(c, reg, v);
    if d.rx == c.rx && d.came == c.came && d.looks == c.looks { SameReceiver(c, d); }
  }

  /** The registers of the chip are what was last written. */
  predicate Agrees(b: Bus, c: Chip) {
    && (b.lcr >= 0 ==> c.lcr == b.lcr)
    && (b.mcr >= 0 ==> c.mcr == b.mcr)
    && (b.ier >= 0 ==> b.lcr >= 0 && c.ier == b.ier % 0x10)
    && (b.fcr >= 0 && (c.kind == K16550 || c.kind == K16550A) ==> b.fcr < 0x100 && c.fifoOn == Bit(b.fcr, 1))
  }

  lemma WriteAgrees(b: Bus, was: Chip, c: Chip, reg: nat, v: byte)
    requires Agrees(b, was) && Turned(was, c)
    ensures Agrees(BusWrite(b, reg, v), AfterWrite(c, reg, v))
  {
    if reg == FCR || reg == LCR || reg == MCR || reg == IER || reg == THR {
      hide Bit;
    }
  }

  lemma ReadAgrees(b: Bus, was: Chip, c: Chip, reg: nat, v: byte)
    requires Agrees(b, was) && Turned(was, c)
    ensures Agrees(BusRead(b, reg, v), AfterRead(c, reg))
  {
    hide Bit, LineStatus;
  }

  lemma TurnedConserves(was: Chip, c: Chip)
    requires Turned(was, c)
    ensures Conserved(was) ==> Conserved(c)
  {}

  lemma TurnedAgrees(b: Bus, was: Chip, c: Chip)
    requires Agrees(b, was) && Turned(was, c)
    ensures Agrees(b, c)
  {
    hide Bit;
  }

  // ------------------------------------------------------------------
  // The seam
  // ------------------------------------------------------------------

  /**
    The injected port. `answers` is any function at all, so what is proved of a
    caller holds for every bus; `honest` says that every answer so far was the
    one the chip gives, so what is proved under it holds for a chip that works,
    whatever the world does around it.
   */
  class Port {
    const answers: nat -> byte
    ghost const world: nat -> World
    var ops: nat
    ghost var bus: Bus
    ghost var chip: Chip
    ghost var honest: bool

    constructor (answers: nat -> byte, ghost world: nat -> World, ghost chip: Chip)
      ensures this.answers == answers && this.world == world && this.chip == chip && honest && ops == 0
      ensures bus == Bus(-1, -1, -1, -1, [], false, 0, -1, -1, -1, NOTHING_SEEN) && Agrees(bus, chip)
    {
      this.answers, this.world, this.chip := answers, world, chip;
      ops, honest := 0, true;
      bus := Bus(-1, -1, -1, -1, [], false, 0, -1, -1, -1, NOTHING_SEEN);
    }

    /** The chip as the next operation finds it. */
    ghost function Now(): (c: Chip)
      reads this
      ensures c == Turn(chip, world(ops)) && Turned(chip, c)
      ensures |chip.tx| == 0 && |world(ops).arrive| == 0 ==> c == chip
    {
      TurnTurned(chip, world(ops));
      Turn(chip, world(ops))
    }

    method In(reg: nat) returns (v: byte)
      requires Agrees(bus, chip)
      modifies this
      ensures v == answers(old(ops)) && bus == BusRead(old(bus), reg, v) && Agrees(bus, chip)
      ensures chip == AfterRead(old(Now()), reg) && (honest <==> old(honest) && v == Answer(old(Now()), reg))
      ensures old(Conserved(chip)) ==> Conserved(chip)
      ensures ops == old(ops) + 1
    {
      hide *;
      ghost var now := Now();
      ReadAgrees(bus, chip, now, reg, answers(ops));
      TurnedConserves(chip, now);
      if Conserved(chip) { ReadConserves(now, reg); }
      v := answers(ops);
      bus := BusRead(bus, reg, v);
      honest := honest && v == Answer(now, reg);
      chip := AfterRead(now, reg);
      ops := ops + 1;
    }

    method Out(reg: nat, v: byte)
      requires Agrees(bus, chip)
      modifies this
      ensures bus == BusWrite(old(bus), reg, v) && Agrees(bus, chip)
      ensures chip == AfterWrite(old(Now()), reg, v) && honest == old(honest)
      ensures old(Conserved(chip)) ==> Conserved(chip)
      ensures ops == old(ops) + 1
    {
      hide *;
      ghost var now := Now();
      WriteAgrees(bus, chip, now, reg, v);
      TurnedConserves(chip, now);
      if Conserved(chip) { WriteConserves(now, reg, v); }
      bus := BusWrite(bus, reg, v);
      chip := AfterWrite(now, reg, v);
      ops := ops + 1;
    }

    method Yield()
      requires Agrees(bus, chip)
      modifies this
      ensures bus == old(bus) && chip == old(Now()) && honest == old(honest) && ops == old(ops) + 1
      ensures Agrees(bus, chip)
      ensures old(Conserved(chip)) ==> Conserved(chip)
    {
      hide *;
      TurnedAgrees(bus, chip, Now());
      TurnedConserves(chip, Now());
      chip := Now();
      ops := ops + 1;
    }
  }
}
