/**
  The open ladder and the close of src/uart.c, against every bus and against an
  honest chip.
 */
module UartOpen {
  import opened Text
  import opened Chip
  import opened UartLine
  import opened UartLaws
  import opened Uart

  /** Nothing waits on either side of the chip. */
  predicate Idle(c: Chip) { |c.tx| == 0 && |c.rx| == 0 }

  /** What the ladder should make of each generation; the 8250 is told by its missing scratch register. */
  function Expected(k: Kind): ChipKind {
    match k
    case K16550A => Chip16550A
    case K8250 => Chip8250
    case _ => Chip16450
  }

  /** Only reads: nothing was written. */
  predicate OnlyRead(b: Bus, now: Bus) {
    && now == b.(inputs := now.inputs, probe := now.probe, dll := now.dll, dlm := now.dlm,
                 seen := Seen(b.seen.zero, b.seen.ones, now.seen.echo, now.seen.lines))
    && (!Looped(b) ==> now.seen == b.seen)
    && (b.fcr != FCR_DETECT ==> now.probe == b.probe)
    && (!Latching(b) ==> now.dll == b.dll && now.dlm == b.dlm)
  }

  /** The settings of the chip have not moved. */
  predicate SameSettings(a: Chip, b: Chip) {
    b.kind == a.kind && b.lcr == a.lcr && b.mcr == a.mcr && b.fifoOn == a.fifoOn && b.dll == a.dll && b.dlm == a.dlm
  }

  lemma Patterns()
    ensures Bit(DLAB, DLAB) && !Bit(LCR_8N1, DLAB)
    ensures Bit(MCR_TEST, MCR_LOOP) && !Bit(MCR_TEST, MCR_OUT2)
    ensures !Bit(MCR_LIVE, MCR_LOOP) && !Bit(MCR_LIVE, MCR_OUT2) && !Bit(0, MCR_OUT2)
    ensures Bit(FCR_DETECT, 1) && Bit(FCR_DETECT, 2) && Bit(FCR_DETECT, 4) && Bit(FCR_ENABLE, 1) && !Bit(0, 1)
    ensures Bit(MCR_TEST, 1) && Bit(MCR_TEST, 2) && Bit(MCR_TEST, 4) && !Bit(MCR_TEST, 8)
  {}

  lemma ReadOne(b: Bus, was: Chip, c: Chip, reg: nat, v: byte)
    requires Turned(was, c) && reg != IER
    ensures OnlyRead(b, BusRead(b, reg, v)) && BusRead(b, reg, v).inputs == b.inputs + 1
    ensures SameSettings(was, AfterRead(c, reg))
    ensures c == was && Idle(c) ==> Idle(AfterRead(c, reg))
  {
    hide Bit, LineStatus;
  }

  lemma ReadTwo(a: Bus, b: Bus, c: Bus)
    requires OnlyRead(a, b) && OnlyRead(b, c)
    ensures OnlyRead(a, c)
  {
    hide Bit;
  }

  lemma SameTwo(a: Chip, b: Chip, c: Chip)
    requires SameSettings(a, b) && SameSettings(b, c)
    ensures SameSettings(a, c)
  {}

  lemma QuietNow(io: Port)
    ensures Quiet(io.world) && |io.chip.tx| == 0 ==> io.Now() == io.chip
  {
    hide Turned, Turn;
  }

  /** One read made for its effect or its answer. */
  method Look(io: Port, reg: nat) returns (v: byte)
    requires Agrees(io.bus, io.chip) && reg != IER
    modifies io
    ensures old(Conserved(io.chip)) ==> Conserved(io.chip)
    ensures Agrees(io.bus, io.chip) && OnlyRead(old(io.bus), io.bus) && io.bus.inputs == old(io.bus.inputs) + 1
    ensures io.bus == BusRead(old(io.bus), reg, v)
    ensures SameSettings(old(io.chip), io.chip) && io.chip == AfterRead(old(io.Now()), reg)
    ensures io.chip == AfterRead(Turn(old(io.chip), io.world(old(io.ops))), reg) && io.ops == old(io.ops) + 1
    ensures io.honest <==> old(io.honest) && v == Answer(old(io.Now()), reg)
    ensures Quiet(io.world) && old(Idle(io.chip)) ==> Idle(io.chip)
  {
    hide *;
    ghost var b0, c0, now := io.bus, io.chip, io.Now();
    QuietNow(io);
    IdleIs(c0);
    v := io.In(reg);
    ReadOne(b0, c0, now, reg, v);
  }

  lemma IdleIs(c: Chip)
    ensures Idle(c) <==> |c.tx| == 0 && |c.rx| == 0
  {}

  /** No character in front has been looked at, and with the FIFO on no overrun waits without a character. */
  predicate Unseen(c: Chip) { InSession(c) && c.looks == 0 && (Depth(c) == 16 ==> Heedful(c)) }

  lemma UnseenWaits(c: Chip, w: World)
    requires Unseen(c)
    ensures Unseen(Turn(c, w))
  {
    TurnTurned(c, w);
    if Depth(c) == 16 { TurnHeeds(c, w); }
    hide Turn, Conserved, Bit;
  }

  /** The four reads of a cleared receiver. */
  lemma Cleared(w0: World, w1: World, w2: World, w3: World, c: Chip)
    requires InSession(c)
    ensures var e := AfterRead(Turn(AfterRead(Turn(c, w0), LSR), w1), RBR);
            Unseen(AfterRead(Turn(AfterRead(Turn(e, w2), IIR), w3), MSR))
  {
    var now := Turn(c, w0);
    var d := AfterRead(now, LSR);
    var e := AfterRead(Turn(d, w1), RBR);
    TurnTurned(c, w0);
    TurnTurned(d, w1);
    ReadConserves(now, LSR);
    ReadConserves(Turn(d, w1), RBR);
    NoLooksWhenEmpty(Turn(d, w1));
    if Depth(c) == 16 { TurnHeeds(d, w1); }
    hide Turn, Conserved, Bit, LineStatus;
    assert Unseen(e);
    UnseenWaits(e, w2);
    UnseenWaits(Turn(e, w2), w3);
  }

  lemma NoneIsMask()
    ensures LSR != IER && RBR != IER && IIR != IER && MSR != IER
  {}

  /** Reads LSR, RBR, IIR and MSR once each. */
  method UartClearStale(io: Port)
    requires Agrees(io.bus, io.chip)
    modifies io
    ensures old(Conserved(io.chip)) ==> Conserved(io.chip)
    ensures Agrees(io.bus, io.chip) && OnlyRead(old(io.bus), io.bus) && io.bus.inputs == old(io.bus.inputs) + 4
    ensures SameSettings(old(io.chip), io.chip) && (io.honest ==> old(io.honest))
    ensures Quiet(io.world) && old(Idle(io.chip)) ==> Idle(io.chip)
    ensures old(InSession(io.chip)) ==> Unseen(io.chip)
  {
    NoneIsMask();
    hide *;
    ghost var b0, c0, w := io.bus, io.chip, io.world;
    ghost var k := io.ops;
    var _ := Look(io, LSR);
    ghost var b1, c1 := io.bus, io.chip;
    var _ := Look(io, RBR);
    ghost var b2, c2 := io.bus, io.chip;
    var _ := Look(io, IIR);
    ghost var b3, c3 := io.bus, io.chip;
    var _ := Look(io, MSR);
    if InSession(c0) { Cleared(w(k), w(k + 1), w(k + 2), w(k + 3), c0); }
    ReadTwo(b0, b1, b2);
    ReadTwo(b0, b2, b3);
    ReadTwo(b0, b3, io.bus);
    SameTwo(c0, c1, c2);
    SameTwo(c0, c2, c3);
    SameTwo(c0, c3, io.chip);
  }

  // ------------------------------------------------------------------
  // Detection
  // ------------------------------------------------------------------

  /** Nothing reached the line, no interrupt path was opened, and n reads were made. */
  predicate Harmless(b: Bus, now: Bus, n: nat) {
    now.sent == b.sent && now.armed == b.armed && now.inputs == b.inputs + n
  }

  /** The interrupt mask stored what was written to it: 0x00 and then 0x0F. */
  predicate Stored(s: Seen) { s.zero >= 0 && s.zero % 0x10 == 0x00 && s.ones >= 0 && s.ones % 0x10 == 0x0F }

  /** The loop brought back the sentinel, and the two modem lines that were raised. */
  predicate Echoed(s: Seen) { s.echo == 0xAE && 0 <= s.lines < 0x100 && Bit(s.lines, 0x10) && Bit(s.lines, 0x20) }

  /** One write of the interrupt mask and its low nibble read back. */
  method StoreOnce(io: Port, v: byte) returns (got: byte)
    requires Agrees(io.bus, io.chip) && io.bus.lcr == LCR_8N1
    modifies io
    ensures old(Conserved(io.chip)) ==> Conserved(io.chip)
    ensures Agrees(io.bus, io.chip) && (io.honest ==> old(io.honest) && got == v % 0x10)
    ensures Harmless(old(io.bus), io.bus, 1) && io.bus.mcr == old(io.bus.mcr)
    ensures io.bus.lcr == LCR_8N1 && io.bus.ier == v
    ensures v == 0x00 ==> io.bus.seen == old(io.bus.seen).(zero := io.bus.seen.zero)
                          && io.bus.seen.zero >= 0 && got == io.bus.seen.zero % 0x10
    ensures v == 0x0F ==> io.bus.seen == old(io.bus.seen).(ones := io.bus.seen.ones)
                          && io.bus.seen.ones >= 0 && got == io.bus.seen.ones % 0x10
    ensures io.chip.kind == old(io.chip.kind) && (Quiet(io.world) && old(Idle(io.chip)) ==> Idle(io.chip))
  {
    Patterns();
    hide LineStatus, Turn, Conserved, Bit;
    io.Out(IER, v);
    got := io.In(IER);
    got := got % 0x10;
  }

  /** The store test, whatever the bus: a writable interrupt mask tells a chip from a floating bus. */
  method StoreTest(io: Port) returns (present: bool)
    requires Agrees(io.bus, io.chip)
    modifies io
    ensures old(Conserved(io.chip)) ==> Conserved(io.chip)
    ensures Agrees(io.bus, io.chip) && (io.honest ==> old(io.honest) && present)
    ensures Harmless(old(io.bus), io.bus, 2) && io.bus.mcr == old(io.bus.mcr)
    ensures io.bus.lcr == LCR_8N1 && io.bus.ier == 0
    ensures present <==> Stored(io.bus.seen)
    ensures io.chip.kind == old(io.chip.kind) && (Quiet(io.world) && old(Idle(io.chip)) ==> Idle(io.chip))
  {
    Patterns();
    hide LineStatus, Turn, Agrees, Conserved, Bit;
    io.Out(LCR, LCR_8N1);
    var ierZero := StoreOnce(io, 0x00);
    var ierSet := StoreOnce(io, 0x0F);
    present := ierZero == 0x00 && ierSet == 0x0F;
    io.Out(IER, 0x00);
  }

  method FifoProbe(io: Port) returns (iir: byte)
    requires Agrees(io.bus, io.chip)
    modifies io
    ensures old(Conserved(io.chip)) ==> Conserved(io.chip)
    ensures Agrees(io.bus, io.chip) && (io.honest ==> old(io.honest))
    ensures Harmless(old(io.bus), io.bus, 1) && io.bus.mcr == old(io.bus.mcr)
    ensures io.bus.lcr == old(io.bus.lcr) && io.bus.ier == old(io.bus.ier)
    ensures io.bus.probe == iir && io.bus.seen == old(io.bus.seen)
    ensures io.honest ==> (iir / 0x40 == 3 <==> io.chip.kind == K16550A)
    ensures io.chip.kind == old(io.chip.kind) && (Quiet(io.world) && old(Idle(io.chip)) ==> Idle(io.chip))
  {
    hide LineStatus, Turn, Agrees, Conserved;
    Patterns();
    hide Bit;
    io.Out(FCR, FCR_DETECT);
    iir := io.In(IIR);
  }

  method ScratchTest(io: Port) returns (ok: bool)
    requires Agrees(io.bus, io.chip)
    modifies io
    ensures old(Conserved(io.chip)) ==> Conserved(io.chip)
    ensures Agrees(io.bus, io.chip) && (io.honest ==> old(io.honest))
    ensures Harmless(old(io.bus), io.bus, 2) && io.bus.mcr == old(io.bus.mcr)
    ensures io.bus.lcr == old(io.bus.lcr) && io.bus.ier == old(io.bus.ier) && io.bus.probe == old(io.bus.probe)
    ensures io.bus.seen == old(io.bus.seen)
    ensures io.honest ==> (ok <==> io.chip.kind != K8250)
    ensures io.chip.kind == old(io.chip.kind) && (Quiet(io.world) && old(Idle(io.chip)) ==> Idle(io.chip))
  {
    hide LineStatus, Turn, Agrees, Conserved, Bit;
    io.Out(SCR, 0xAA);
    var s1 := io.In(SCR);
    io.Out(SCR, 0x55);
    var s2 := io.In(SCR);
    ok := s1 == 0xAA && s2 == 0x55;
  }

  /**
    Writes and reads back the interrupt mask, probes the FIFO and the scratch
    register. The FIFO is used exactly when the probe read 0xC0 in its top bits;
    on an honest chip the chip is found and named rightly.
   */
  method UartDetect(io: Port, drv: Driver) returns (present: bool)
    requires Agrees(io.bus, io.chip)
    modifies io, drv
    ensures old(Conserved(io.chip)) ==> Conserved(io.chip)
    ensures Agrees(io.bus, io.chip) && (io.honest ==> old(io.honest))
    ensures io.bus.sent == old(io.bus.sent) && io.bus.armed == old(io.bus.armed) && io.bus.mcr == old(io.bus.mcr)
    ensures io.bus.lcr == LCR_8N1 && io.bus.ier == 0
    ensures io.bus.inputs == old(io.bus.inputs) + if present then 5 else 2
    ensures drv.divisor == old(drv.divisor) && drv.overrunCount == old(drv.overrunCount) && drv.open == old(drv.open)
    ensures drv.txChunk == if drv.fifoEnabled then FIFO_CHUNK else SINGLE_CHUNK
    ensures drv.fifoEnabled <==> drv.chipKind == Chip16550A
    ensures present <==> Stored(io.bus.seen)
    ensures drv.chipKind == Unknown <==> !present
    ensures present ==> 0 <= io.bus.probe < 0x100 && (drv.fifoEnabled <==> io.bus.probe / 0x40 == 3)
    ensures io.chip.kind == old(io.chip.kind)
    ensures io.honest ==> present && drv.chipKind == Expected(io.chip.kind)
    ensures Quiet(io.world) && old(Idle(io.chip)) ==> Idle(io.chip)
  {
    hide LineStatus, Turn, Turned, Agrees, Bit;
    present := StoreTest(io);
    if !present {
      drv.chipKind, drv.fifoEnabled, drv.txChunk := Unknown, false, SINGLE_CHUNK;
      return;
    }
    var iir := FifoProbe(io);
    var fifoIs16550A := iir / 0x40 == 3;
    var scratchOk := ScratchTest(io);
    if fifoIs16550A {
      drv.chipKind, drv.fifoEnabled, drv.txChunk := Chip16550A, true, FIFO_CHUNK;
    } else {
      drv.chipKind, drv.fifoEnabled, drv.txChunk := if scratchOk then Chip16450 else Chip8250, false, SINGLE_CHUNK;
    }
  }

  // ------------------------------------------------------------------
  // The divisor
  // ------------------------------------------------------------------

  function Low(divisor: nat): byte { divisor % 0x100 }
  function High(divisor: nat): byte { divisor / 0x100 % 0x100 }

  method WriteLatch(io: Port, lo: byte, hi: byte)
    requires Agrees(io.bus, io.chip)
    modifies io
    ensures old(Conserved(io.chip)) ==> Conserved(io.chip)
    ensures Agrees(io.bus, io.chip) && io.honest == old(io.honest)
    ensures Harmless(old(io.bus), io.bus, 0) && io.bus.mcr == old(io.bus.mcr)
    ensures io.bus.lcr == LCR_8N1 && io.bus.ier == old(io.bus.ier) && io.bus.probe == old(io.bus.probe)
    ensures io.bus.seen == old(io.bus.seen)
    ensures io.chip.dll == lo && io.chip.dlm == hi
    ensures io.chip.kind == old(io.chip.kind) && (Quiet(io.world) && old(Idle(io.chip)) ==> Idle(io.chip))
  {
    Patterns();
    hide LineStatus, Turn, Agrees, Conserved, Bit;
    io.Out(LCR, DLAB);
    io.Out(DLL, lo);
    io.Out(DLM, hi);
    io.Out(LCR, LCR_8N1);
  }

  method ReadLatch(io: Port) returns (lo: byte, hi: byte)
    requires Agrees(io.bus, io.chip)
    modifies io
    ensures old(Conserved(io.chip)) ==> Conserved(io.chip)
    ensures Agrees(io.bus, io.chip)
    ensures io.honest ==> old(io.honest) && lo == io.chip.dll && hi == io.chip.dlm
    ensures Harmless(old(io.bus), io.bus, 2) && io.bus.mcr == old(io.bus.mcr)
    ensures io.bus.lcr == LCR_8N1 && io.bus.ier == old(io.bus.ier) && io.bus.probe == old(io.bus.probe)
    ensures io.bus.dll == lo && io.bus.dlm == hi && io.bus.seen == old(io.bus.seen)
    ensures io.chip.dll == old(io.chip.dll) && io.chip.dlm == old(io.chip.dlm)
    ensures io.chip.kind == old(io.chip.kind) && (Quiet(io.world) && old(Idle(io.chip)) ==> Idle(io.chip))
  {
    Patterns();
    hide LineStatus, Turn, Agrees, Conserved, Bit;
    io.Out(LCR, DLAB);
    lo := io.In(DLL);
    hi := io.In(DLM);
    io.Out(LCR, LCR_8N1);
  }

  /** Accepted exactly when the latch reads back as the low 16 bits of the divisor; an honest chip always does. */
  method UartProgramDivisor(io: Port, drv: Driver, divisor: nat) returns (ok: bool)
    requires Agrees(io.bus, io.chip)
    modifies io, drv`divisor
    ensures old(Conserved(io.chip)) ==> Conserved(io.chip)
    ensures Agrees(io.bus, io.chip) && (io.honest ==> old(io.honest) && ok)
    ensures Harmless(old(io.bus), io.bus, 2) && io.bus.mcr == old(io.bus.mcr)
    ensures io.bus.lcr == LCR_8N1 && io.bus.ier == old(io.bus.ier) && io.bus.probe == old(io.bus.probe)
    ensures ok <==> io.bus.dll == divisor % 0x100 && io.bus.dlm == divisor / 0x100 % 0x100
    ensures io.bus.seen == old(io.bus.seen)
    ensures drv.divisor == if ok then divisor else old(drv.divisor)
    ensures io.chip.dll == Low(divisor) && io.chip.dlm == High(divisor)
    ensures io.chip.kind == old(io.chip.kind) && (Quiet(io.world) && old(Idle(io.chip)) ==> Idle(io.chip))
  {
    hide LineStatus, Turn, Turned, Agrees, Bit;
    var wantLo, wantHi := Low(divisor), High(divisor);
    WriteLatch(io, wantLo, wantHi);
    var gotLo, gotHi := ReadLatch(io);
    ok := gotLo == wantLo && gotHi == wantHi;
    if ok { drv.divisor := divisor; }
  }

  // ------------------------------------------------------------------
  // The loopback self-test
  // ------------------------------------------------------------------

  /** Into loopback, and the sentinel: no byte goes out. */
  method SendSentinel(io: Port)
    requires Agrees(io.bus, io.chip)
    modifies io
    ensures old(Conserved(io.chip)) ==> Conserved(io.chip)
    ensures Agrees(io.bus, io.chip) && io.honest == old(io.honest)
    ensures Harmless(old(io.bus), io.bus, 0) && io.bus == old(io.bus).(mcr := MCR_TEST) && io.ops == old(io.ops) + 2
    ensures io.bus.lcr == LCR_8N1 ==> SameSettings(old(io.chip), io.chip.(mcr := old(io.chip.mcr))) && io.chip.mcr == MCR_TEST
    ensures Quiet(io.world) && old(Idle(io.chip)) && !old(ChipLatch(io.chip)) ==>
              io.chip.tx == [SENTINEL] && |io.chip.rx| == 0 && ChipLoop(io.chip) && io.chip.mcr == MCR_TEST
  {
    Patterns();
    hide LineStatus, Turn, Conserved, Bit;
    io.Out(MCR, MCR_TEST);
    io.Out(THR, SENTINEL);
  }

  /** A looped chip that shifts at once has the sentinel in its receiver at the first look. */
  lemma Echo(c: Chip, w: World)
    requires c.tx == [SENTINEL] && |c.rx| == 0 && ChipLoop(c) && w.shift > 0
    ensures var d := Turn(c, w); |d.tx| == 0 && d.rx == [Rx(SENTINEL, false, false)] && Bit(LineStatus(d), LSR_DR)
  {
    var d := c.(tx := c.tx[1..]);
    var xs := [Rx(SENTINEL, false, false)];
    assert Clean(c.tx[..1]) == xs && xs[1..] == [];
    var e := d.(rx := d.rx + [Rx(SENTINEL, false, false)], came := d.came + [Rx(SENTINEL, false, false)]);
    assert Receive(e, []) == e;
    assert Receive(d, xs) == e;
    assert Turn(c, w) == e;
    StatusBits(e);
  }

  /** The echo and the modem lines that a real loop reflects. */
  method ReadEcho(io: Port) returns (rbr: byte, msr: byte)
    requires Agrees(io.bus, io.chip)
    modifies io
    ensures old(Conserved(io.chip)) ==> Conserved(io.chip)
    ensures Agrees(io.bus, io.chip) && (io.honest ==> old(io.honest))
    ensures OnlyRead(old(io.bus), io.bus) && io.bus.inputs == old(io.bus.inputs) + 2
    ensures Looped(old(io.bus)) && !Latching(old(io.bus)) ==> io.bus.seen.echo == rbr && io.bus.seen.lines == msr
    ensures SameSettings(old(io.chip), io.chip)
    ensures Quiet(io.world) && io.honest && |old(io.chip.tx)| == 0 && old(io.chip.rx) == [Rx(SENTINEL, false, false)]
              && !old(ChipLatch(io.chip)) && old(io.chip.mcr) == MCR_TEST ==>
              rbr == SENTINEL && Bit(msr, 0x10) && Bit(msr, 0x20) && Idle(io.chip)
  {
    hide LineStatus, Turn, Agrees, Conserved, Turned, AfterRead, Answer, OnlyRead, SameSettings, Looped, Latching;
    LoopStays(io.bus);
    QuietNow(io);
    ghost var b0, c0, now := io.bus, io.chip, io.Now();
    rbr := io.In(RBR);
    ReadOne(b0, c0, now, RBR, rbr);
    QuietNow(io);
    EchoRead(c0);
    ghost var b1, c1, next := io.bus, io.chip, io.Now();
    msr := io.In(MSR);
    ReadOne(b1, c1, next, MSR, msr);
    ReadTwo(b0, b1, io.bus);
    SameTwo(c0, c1, io.chip);
  }

  /** A receiver and a modem status read under loopback are seen. */
  lemma LoopStays(b: Bus)
    ensures Looped(b) && !Latching(b) ==>
              forall v: byte, w: byte :: var d := BusRead(BusRead(b, RBR, v), MSR, w); d.seen.echo == v && d.seen.lines == w
  {}

  lemma EchoRead(c: Chip)
    ensures |c.tx| == 0 && c.rx == [Rx(SENTINEL, false, false)] && !ChipLatch(c) && c.mcr == MCR_TEST ==>
              var d := AfterRead(c, RBR);
              Answer(c, RBR) == SENTINEL && Idle(d) && d.mcr == MCR_TEST
              && Bit(Answer(d, MSR), 0x10) && Bit(Answer(d, MSR), 0x20) && AfterRead(d, MSR) == d
  {
    Patterns();
    hide LineStatus;
  }

  /** The first look at a looped chip that shifts at once finds the sentinel, and leaves it there. */
  lemma EchoNow(io: Port)
    requires Quiet(io.world) && io.chip.tx == [SENTINEL] && |io.chip.rx| == 0 && ChipLoop(io.chip)
    ensures var d := io.Now();
            && Bit(LineStatus(d), LSR_DR)
            && |AfterRead(d, LSR).tx| == 0 && AfterRead(d, LSR).rx == [Rx(SENTINEL, false, false)]
            && AfterRead(d, LSR).mcr == io.chip.mcr && AfterRead(d, LSR).lcr == io.chip.lcr
  {
    Echo(io.chip, io.world(io.ops));
    hide Turn, LineStatus, Bit;
  }

  /** Leaving loopback changes nothing but the modem outputs. */
  method LeaveLoopback(io: Port)
    requires Agrees(io.bus, io.chip)
    modifies io
    ensures old(Conserved(io.chip)) ==> Conserved(io.chip)
    ensures Agrees(io.bus, io.chip) && io.honest == old(io.honest)
    ensures Harmless(old(io.bus), io.bus, 0) && io.bus == old(io.bus).(mcr := MCR_LIVE) && io.ops == old(io.ops) + 1
    ensures SameSettings(old(io.chip), io.chip.(mcr := old(io.chip.mcr))) && io.chip.mcr == MCR_LIVE
    ensures Quiet(io.world) && old(Idle(io.chip)) ==> Idle(io.chip)
  {
    Patterns();
    hide LineStatus, Turn, Agrees, Conserved, Bit;
    io.Out(MCR, MCR_LIVE);
  }

  /**
    Whatever the bus answers, no byte goes out, and the test is passed exactly if the
    poll shows a character within its bound, it is the sentinel, and both modem lines
    are back.
   */
  method UartLoopbackSelfTest(io: Port) returns (ok: bool)
    requires Agrees(io.bus, io.chip)
    modifies io
    ensures old(Conserved(io.chip)) ==> Conserved(io.chip)
    ensures Agrees(io.bus, io.chip) && (io.honest ==> old(io.honest))
    ensures io.bus.sent == old(io.bus.sent) && io.bus.armed == old(io.bus.armed)
    ensures io.bus.inputs <= old(io.bus.inputs) + POLL_BOUND + 2
    ensures io.bus.mcr == MCR_LIVE && io.bus.lcr == old(io.bus.lcr) && io.bus.ier == old(io.bus.ier) && io.bus.fcr == old(io.bus.fcr)
    ensures old(io.bus.lcr) == LCR_8N1 ==> io.bus.dll == old(io.bus.dll) && io.bus.dlm == old(io.bus.dlm)
    ensures old(io.bus.fcr) != FCR_DETECT ==> io.bus.probe == old(io.bus.probe)
    ensures old(io.bus.lcr) == LCR_8N1 ==> SameSettings(old(io.chip), io.chip.(mcr := old(io.chip.mcr))) && io.chip.mcr == MCR_LIVE
    ensures Quiet(io.world) && io.honest && old(Idle(io.chip)) && old(io.bus.lcr) == LCR_8N1 ==> ok && Idle(io.chip)
    ensures io.bus.seen.zero == old(io.bus.seen.zero) && io.bus.seen.ones == old(io.bus.seen.ones)
    ensures old(io.bus.lcr) == LCR_8N1 ==>
              (ok <==> Echoed(io.bus.seen) && !Unready(io.answers, old(io.ops) + 2, LSR_DR, POLL_BOUND))
    ensures Unready(io.answers, old(io.ops) + 2, LSR_DR, POLL_BOUND) ==> io.ops == old(io.ops) + 2 * POLL_BOUND + 3
  {
    hide *;
    ghost var b0, c0 := io.bus, io.chip;
    ghost var settled := io.bus.lcr == LCR_8N1;
    ghost var quiet := Quiet(io.world) && Idle(io.chip) && settled;
    TestPatterns(b0);
    if settled { Unlatched(b0, c0); }
    SendSentinel(io);
    ghost var b1, c1 := io.bus, io.chip;
    if quiet { EchoNow(io); }
    var ready := Poll(io, LSR_DR);
    ghost var b2, c2 := io.bus, io.chip;
    TestPolled(b0, b1, b2);
    if !ready {
      LeaveLoopback(io);
      TestBus(b0, b1, b2, b2, io.bus);
      if settled { TestChip(c0, c1, c2, c2, io.chip); }
      return false;
    }
    if settled { Unlatched(io.bus, io.chip); }
    var rbr, msr := ReadEcho(io);
    ghost var b3, c3 := io.bus, io.chip;
    LeaveLoopback(io);
    TestBus(b0, b1, b2, b3, io.bus);
    if settled { TestChip(c0, c1, c2, c3, io.chip); }
    ok := rbr == SENTINEL && Bit(msr, 0x10) && Bit(msr, 0x20);
    EchoedIs(io.bus.seen);
  }

  lemma TestPatterns(b: Bus)
    ensures LSR_DR in {LSR_DR, LSR_THRE, LSR_TEMT} && SENTINEL == 0xAE && POLL_BOUND > 0
  {}

  lemma EchoedIs(s: Seen)
    ensures Echoed(s) <==> s.echo == 0xAE && 0 <= s.lines < 0x100 && Bit(s.lines, 0x10) && Bit(s.lines, 0x20)
  {
    hide Bit;
  }

  /** The poll is made under loopback. */
  lemma TestPolled(b0: Bus, b1: Bus, b2: Bus)
    requires b1 == b0.(mcr := MCR_TEST) && OnlyPolled(b1, b2, POLL_BOUND)
    ensures b2 == b1.(inputs := b2.inputs) && b2.inputs <= b0.inputs + POLL_BOUND
    ensures b0.lcr == LCR_8N1 ==> Looped(b2) && !Latching(b2)
  {
    Patterns();
    hide Bit;
  }

  /** What the test leaves on the bus. */
  lemma TestBus(b0: Bus, b1: Bus, b2: Bus, b3: Bus, b4: Bus)
    requires b1 == b0.(mcr := MCR_TEST) && OnlyPolled(b1, b2, POLL_BOUND)
    requires b3 == b2 || (OnlyRead(b2, b3) && b3.inputs == b2.inputs + 2)
    requires b4 == b3.(mcr := MCR_LIVE)
    ensures b4.sent == b0.sent && b4.armed == b0.armed && b4.inputs <= b0.inputs + POLL_BOUND + 2
    ensures b4.mcr == MCR_LIVE && b4.lcr == b0.lcr && b4.ier == b0.ier && b4.fcr == b0.fcr
    ensures b0.lcr == LCR_8N1 ==> b4.dll == b0.dll && b4.dlm == b0.dlm
    ensures b0.fcr != FCR_DETECT ==> b4.probe == b0.probe
    ensures b4.seen.zero == b0.seen.zero && b4.seen.ones == b0.seen.ones
  {
    Patterns();
    hide Bit;
  }

  /** And on the chip. */
  lemma TestChip(c0: Chip, c1: Chip, c2: Chip, c3: Chip, c4: Chip)
    requires SameSettings(c0, c1.(mcr := c0.mcr)) && Waited(c1, c2) && (c3 == c2 || SameSettings(c2, c3))
    requires SameSettings(c3, c4.(mcr := c3.mcr))
    ensures SameSettings(c0, c4.(mcr := c0.mcr))
  {}

  lemma Unlatched(b: Bus, c: Chip)
    requires Agrees(b, c) && b.lcr == LCR_8N1
    ensures !ChipLatch(c) && !Latching(b)
  {
    Patterns();
    hide Bit;
  }

  // ------------------------------------------------------------------
  // Open and close
  // ------------------------------------------------------------------

  /** What a live session rests on, as far as any bus can show. */
  predicate LiveSettings(b: Bus, fifo: bool, divisor: nat) {
    && b.ier == 0 && b.mcr == 0x03 && b.lcr == 0x03
    && b.dll == divisor % 0x100 && b.dlm == divisor / 0x100 % 0x100
    && b.fcr == (if fifo then 0xC7 else 0)
    && 0 <= b.probe < 0x100 && (fifo <==> b.probe / 0x40 == 3)
    && Stored(b.seen) && Echoed(b.seen)
  }

  /** FIFO on only for a detected 16550A, modem outputs live, interrupts masked. */
  method Configure(io: Port, fifo: bool)
    requires Agrees(io.bus, io.chip) && io.bus.lcr == LCR_8N1
    modifies io
    ensures old(Conserved(io.chip)) ==> Conserved(io.chip)
    ensures Agrees(io.bus, io.chip) && io.honest == old(io.honest)
    ensures Harmless(old(io.bus), io.bus, 0)
    ensures io.bus == old(io.bus).(fcr := if fifo then FCR_ENABLE else 0, mcr := MCR_LIVE, ier := 0)
    ensures io.chip.kind == old(io.chip.kind) && io.chip.dll == old(io.chip.dll) && io.chip.dlm == old(io.chip.dlm)
    ensures fifo && io.chip.kind == K16550A ==> io.chip.fifoOn
    ensures Quiet(io.world) && old(Idle(io.chip)) ==> Idle(io.chip)
  {
    Patterns();
    hide LineStatus, Turn, Conserved, Bit;
    io.Out(FCR, if fifo then FCR_ENABLE else 0x00);
    io.Out(MCR, MCR_LIVE);
    io.Out(IER, 0x00);
  }

  /** What the rungs before the self-test leave, as far as any bus can show. */
  predicate Prepared(b: Bus, fifo: bool, divisor: nat) {
    && b.ier == 0 && b.mcr == MCR_LIVE && b.lcr == LCR_8N1
    && b.dll == divisor % 0x100 && b.dlm == divisor / 0x100 % 0x100
    && b.fcr == (if fifo then FCR_ENABLE else 0)
    && 0 <= b.probe < 0x100 && (fifo <==> b.probe / 0x40 == 3)
    && Stored(b.seen)
  }

  /** The ladder up to the self-test. */
  method Prepare(io: Port, drv: Driver, divisor: nat) returns (ok: bool)
    requires Agrees(io.bus, io.chip)
    modifies io, drv
    ensures old(Conserved(io.chip)) ==> Conserved(io.chip)
    ensures Agrees(io.bus, io.chip) && (io.honest ==> old(io.honest)) && !drv.open
    ensures io.bus.sent == old(io.bus.sent) && io.bus.armed == old(io.bus.armed)
    ensures io.bus.inputs <= old(io.bus.inputs) + 11
    ensures ok ==> Prepared(io.bus, drv.fifoEnabled, divisor) && drv.divisor == divisor
    ensures !ok ==> !Stored(io.bus.seen) || io.bus.dll != divisor % 0x100 || io.bus.dlm != divisor / 0x100 % 0x100
    ensures drv.txChunk == if drv.fifoEnabled then FIFO_CHUNK else SINGLE_CHUNK
    ensures drv.fifoEnabled <==> drv.chipKind == Chip16550A
    ensures io.honest ==> ok && drv.chipKind == Expected(io.chip.kind) && (drv.fifoEnabled <==> io.chip.kind == K16550A)
    ensures ok ==> io.chip.dll == divisor % 0x100 && io.chip.dlm == divisor / 0x100 % 0x100
    ensures ok && drv.fifoEnabled && io.chip.kind == K16550A ==> io.chip.fifoOn
    ensures Quiet(io.world) && old(Idle(io.chip)) ==> Idle(io.chip)
  {
    hide LineStatus, Turn, Turned, Agrees, Conserved, Bit, Low, High, AfterRead, Answer, Latching, Looped, Stored, Prepared, Idle, Quiet, Unseen;
    DivisorFits(divisor);
    drv.Init();
    UartClearStale(io);
    ExpectedFifo(io.chip.kind);
    ok := UartDetect(io, drv);
    if !ok {
      return;
    }
    ok := UartProgramDivisor(io, drv, divisor);
    if !ok {
      return;
    }
    Configure(io, drv.chipKind == Chip16550A);
    PreparedIs(io.bus, drv.fifoEnabled, divisor);
  }

  lemma ExpectedFifo(k: Kind)
    ensures Expected(k) == Chip16550A <==> k == K16550A
  {}

  lemma PreparedIs(b: Bus, fifo: bool, divisor: nat)
    ensures Prepared(b, fifo, divisor) <==>
              && b.ier == 0 && b.mcr == MCR_LIVE && b.lcr == LCR_8N1
              && b.dll == divisor % 0x100 && b.dlm == divisor / 0x100 % 0x100
              && b.fcr == (if fifo then FCR_ENABLE else 0)
              && 0 <= b.probe < 0x100 && (fifo <==> b.probe / 0x40 == 3)
              && Stored(b.seen)
    ensures Prepared(b, fifo, divisor) ==> b.fcr != FCR_DETECT
  {
    hide Stored;
  }

  /**
    The whole ladder. For every chip behaviour: no byte is sent to the line, no
    interrupt path is opened, the reads are bounded, and a live result rests on
    what was written and read back. On an honest chip a live result means a chip
    that can be driven; and an honest, idle chip on a quiet line goes live.
   */
  method UartOpenSequence(io: Port, drv: Driver, divisor: nat) returns (live: bool)
    requires Agrees(io.bus, io.chip)
    modifies io, drv
    ensures old(Conserved(io.chip)) ==> Conserved(io.chip)
    ensures Agrees(io.bus, io.chip) && (io.honest ==> old(io.honest)) && live == drv.open
    ensures io.bus.sent == old(io.bus.sent) && io.bus.armed == old(io.bus.armed)
    ensures io.bus.inputs <= old(io.bus.inputs) + 100017
    ensures live ==> LiveSettings(io.bus, drv.fifoEnabled, divisor) && drv.divisor == divisor
    ensures !live ==>
              || !Stored(io.bus.seen) || io.bus.dll != divisor % 0x100 || io.bus.dlm != divisor / 0x100 % 0x100
              || !Echoed(io.bus.seen)
              || (io.ops > 2 * POLL_BOUND && Unready(io.answers, io.ops - 2 * POLL_BOUND - 1, LSR_DR, POLL_BOUND))
    ensures live ==> (drv.divisor == io.bus.dll + 0x100 * io.bus.dlm <==> divisor <= 0xFFFF)
    ensures drv.txChunk == if drv.fifoEnabled then 16 else 1
    ensures io.honest && live ==> CanSend(io.chip, Chunk(drv.txChunk)) && drv.chipKind == Expected(io.chip.kind)
                                  && io.chip.dll == Low(divisor) && io.chip.dlm == High(divisor)
    ensures io.honest && Quiet(io.world) && old(Idle(io.chip)) ==> live && Idle(io.chip)
    ensures live && old(Conserved(io.chip)) ==> Unseen(io.chip)
  {
    Bounds();
    hide *;
    DivisorFits(divisor);
    live := Prepare(io, drv, divisor);
    ghost var fifo, b0, c0 := drv.fifoEnabled, io.bus, io.chip;
    if !live {
      return;
    }
    PreparedIs(b0, fifo, divisor);
    live := UartLoopbackSelfTest(io);
    StoredSame(b0.seen, io.bus.seen);
    if !live {
      return;
    }
    ghost var b1, c1 := io.bus, io.chip;
    Unlatched(b1, c1);
    InSessionIs(c1);
    UartClearStale(io);
    drv.open := true;
    LiveIs(b0, b1, io.bus, fifo, divisor);
    LiveChip(c0, c1, io.chip, io.bus, fifo, drv.txChunk);
  }

  lemma Bounds()
    ensures POLL_BOUND == 100000 && FIFO_CHUNK == 16 && SINGLE_CHUNK == 1
  {}

  lemma InSessionIs(c: Chip)
    ensures InSession(c) <==> !ChipLatch(c) && Conserved(c)
  {
    hide Conserved, ChipLatch;
  }

  /** A session that is prepared, has passed the test and has only been read from since is live. */
  lemma LiveIs(b0: Bus, b1: Bus, b: Bus, fifo: bool, divisor: nat)
    requires Prepared(b0, fifo, divisor) && b1.mcr == MCR_LIVE && OnlyRead(b1, b)
    requires b1.lcr == b0.lcr && b1.ier == b0.ier && b1.fcr == b0.fcr && b1.probe == b0.probe
    requires b1.dll == b0.dll && b1.dlm == b0.dlm && Stored(b1.seen) && Echoed(b1.seen)
    ensures LiveSettings(b, fifo, divisor) && b.lcr == LCR_8N1 && b.mcr == MCR_LIVE
    ensures b.sent == b1.sent && b.armed == b1.armed
    ensures b.dll == divisor % 0x100 && b.dlm == divisor / 0x100 % 0x100
  {
    Patterns();
    NotLooped(b1);
    DivisorFits(divisor);
    hide Bit, Stored, Echoed;
  }

  lemma StoredSame(s: Seen, t: Seen)
    requires t.zero == s.zero && t.ones == s.ones
    ensures Stored(t) <==> Stored(s)
  {}

  lemma NotLooped(b: Bus)
    requires b.mcr == MCR_LIVE
    ensures !Looped(b)
  {
    Patterns();
    hide Bit;
  }

  lemma DivisorFits(divisor: nat)
    ensures Low(divisor) == divisor % 0x100 && High(divisor) == divisor / 0x100 % 0x100
    ensures divisor == Low(divisor) as int + 0x100 * (High(divisor) as int) <==> divisor <= 0xFFFF
  {}

  /** Its chip has kept its settings, and takes a chunk at a time. */
  lemma LiveChip(c0: Chip, c1: Chip, c: Chip, b: Bus, fifo: bool, txChunk: int)
    requires SameSettings(c0, c1.(mcr := c0.mcr)) && SameSettings(c1, c)
    requires Agrees(b, c) && b.lcr == LCR_8N1 && b.mcr == MCR_LIVE
    requires txChunk == if fifo then FIFO_CHUNK else SINGLE_CHUNK
    ensures c.kind == c0.kind && c.dll == c0.dll && c.dlm == c0.dlm
    ensures (fifo ==> c0.kind == K16550A && c0.fifoOn) ==> CanSend(c, Chunk(txChunk))
  {
    Patterns();
    hide Bit;
  }

  /** Waits for the transmitter to empty, within the bound, then leaves the port quiet. */
  method UartDrainAndClose(io: Port, drv: Driver)
    requires Agrees(io.bus, io.chip)
    modifies io, drv`open
    ensures old(Conserved(io.chip)) ==> Conserved(io.chip)
    ensures Agrees(io.bus, io.chip) && (io.honest ==> old(io.honest)) && !drv.open
    ensures io.bus.sent == old(io.bus.sent) && io.bus.armed == old(io.bus.armed) && io.bus.mcr == 0
    ensures old(io.bus.lcr) == LCR_8N1 ==> io.bus.ier == 0
    ensures io.bus.inputs <= old(io.bus.inputs) + POLL_BOUND
    ensures io.chip.accepted == old(io.chip.accepted) && io.chip.lost == old(io.chip.lost)
    ensures io.honest && !Unready(io.answers, old(io.ops), LSR_TEMT, POLL_BOUND) ==> |io.chip.tx| == 0
  {
    ghost var b0 := io.bus;
    var ready := Poll(io, LSR_TEMT);
    Patterns();
    hide LineStatus, Turn, Conserved, Bit, Unready, PollRun;
    io.Out(IER, 0x00);
    io.Out(MCR, 0x00);
    drv.open := false;
  }
}
