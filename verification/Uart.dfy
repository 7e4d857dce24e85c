/**
  The direct-UART driver of src/uart.c: detection, the open ladder, polled
  transmit and receive, and close.
 */
module Uart {
  import opened Text
  import opened Chip
  import opened UartLine
  import opened UartLaws

  const FIFO_CHUNK: nat := 16
  const SINGLE_CHUNK: nat := 1

  datatype ChipKind = Unknown | Chip8250 | Chip16450 | Chip16550A

  class Driver {
    var chipKind: ChipKind
    var fifoEnabled: bool
    var txChunk: int
    var divisor: nat
    var overrunCount: u32
    var open: bool

    constructor ()
      ensures chipKind == Unknown && !fifoEnabled && txChunk == SINGLE_CHUNK && divisor == 0 && overrunCount == 0 && !open
    {
      chipKind, fifoEnabled, txChunk, divisor, overrunCount, open := Unknown, false, SINGLE_CHUNK, 0, 0, false;
    }

    method Init()
      modifies this
      ensures chipKind == Unknown && !fifoEnabled && txChunk == SINGLE_CHUNK && divisor == 0 && overrunCount == 0 && !open
    {
      chipKind, fifoEnabled, txChunk, divisor, overrunCount, open := Unknown, false, SINGLE_CHUNK, 0, 0, false;
    }
  }

  // ------------------------------------------------------------------
  // What polling does
  // ------------------------------------------------------------------

  /** Only reads were made since, and none that the bus view tells apart. */
  predicate OnlyPolled(b: Bus, now: Bus, bound: nat) {
    b.inputs <= now.inputs <= b.inputs + bound && now == b.(inputs := now.inputs)
  }

  /** Between two moments nothing was written or taken; characters only arrived and left. */
  predicate Waited(a: Chip, b: Chip) {
    && b.kind == a.kind && b.lcr == a.lcr && b.mcr == a.mcr && b.fifoOn == a.fifoOn && b.dll == a.dll && b.dlm == a.dlm
    && b.accepted == a.accepted && b.lost == a.lost && b.taken == a.taken
    && |b.tx| <= |a.tx| && |a.rx| <= |b.rx|
  }

  /** Each of the last n polls that yielded after them got an answer without the bit. */
  predicate Unready(answers: nat -> byte, from: nat, mask: nat, n: nat) {
    forall j: nat :: j < n ==> !Bit(answers(from + 2 * j), mask)
  }

  /**
    A bounded poll of the line status for one bit, yielding between reads. Whatever
    the bus, it gives up only after the whole bound of answers without the bit.
   */
  method Poll(io: Port, mask: byte) returns (ready: bool)
    requires Agrees(io.bus, io.chip) && mask in {LSR_DR, LSR_THRE, LSR_TEMT}
    modifies io
    ensures Agrees(io.bus, io.chip) && OnlyPolled(old(io.bus), io.bus, POLL_BOUND)
    ensures Waited(old(io.chip), io.chip) && (io.honest ==> old(io.honest))
    ensures old(Conserved(io.chip)) ==> Conserved(io.chip)
    ensures ready <==> !Unready(io.answers, old(io.ops), mask, POLL_BOUND)
    ensures !ready ==> io.ops == old(io.ops) + 2 * POLL_BOUND
    ensures io.honest ==> Polled(ready, io.chip, io.ops) == PollRun(io.world, old(io.chip), old(io.ops), mask, POLL_BOUND)
    ensures io.honest && Bit(LineStatus(old(io.Now())), mask) ==> ready && io.chip == AfterRead(old(io.Now()), LSR)
    ensures ready && io.honest && mask == LSR_DR ==> |io.chip.rx| > 0
    ensures ready && io.honest && (mask == LSR_THRE || mask == LSR_TEMT) ==> |io.chip.tx| == 0
  {
    hide *;
    ghost var goal := PollRun(io.world, io.chip, io.ops, mask, POLL_BOUND);
    ghost var b0, c0 := io.bus, io.chip;
    PollStart(b0, c0, io.answers, io.ops, mask);
    for guard := 0 to POLL_BOUND
      invariant Agrees(io.bus, io.chip) && OnlyPolled(b0, io.bus, guard)
      invariant Waited(c0, io.chip) && (io.honest ==> old(io.honest))
      invariant io.ops == old(io.ops) + 2 * guard && Unready(io.answers, old(io.ops), mask, guard)
      invariant io.honest ==> goal == PollRun(io.world, io.chip, io.ops, mask, POLL_BOUND - guard)
      invariant guard == 0 ==> io.Now() == old(io.Now())
      invariant guard > 0 && io.honest ==> !Bit(LineStatus(old(io.Now())), mask)
      invariant old(Conserved(io.chip)) ==> Conserved(io.chip)
    {
      ghost var b, c, now := io.bus, io.chip, io.Now();
      PollStep(io.world, c, io.ops, mask, POLL_BOUND - guard);
      PollLook(b0, b, c0, c, now, guard, mask);
      var lsr := io.In(LSR);
      LookOnBus(b0, b, lsr, guard);
      if Bit(lsr, mask) {
        NotUnready(io.answers, old(io.ops), mask, guard);
        return true;
      }
      StillUnready(io.answers, old(io.ops), mask, guard);
      PollYield(c0, io.chip, io.Now());
      io.Yield();
    }
    PollEnd(io.world, io.chip, io.ops, mask);
    ready := false;
  }

  lemma PollStart(b: Bus, c: Chip, answers: nat -> byte, from: nat, mask: nat)
    ensures OnlyPolled(b, b, 0) && Waited(c, c) && Unready(answers, from, mask, 0) && POLL_BOUND > 0
  {}

  lemma PollStep(w: nat -> World, c: Chip, k: nat, mask: nat, bound: nat)
    requires bound > 0
    ensures var d := AfterRead(Turn(c, w(k)), LSR);
            PollRun(w, c, k, mask, bound)
            == if Bit(Answer(Turn(c, w(k)), LSR), mask) then Polled(true, d, k + 1)
               else PollRun(w, Turn(d, w(k + 1)), k + 2, mask, bound - 1)
  {
    hide Turn, LineStatus, Bit;
  }

  lemma PollEnd(w: nat -> World, c: Chip, k: nat, mask: nat)
    ensures PollRun(w, c, k, mask, 0) == Polled(false, c, k)
  {}

  /** What one look finds and leaves. */
  lemma PollLook(b0: Bus, b: Bus, c0: Chip, was: Chip, c: Chip, guard: nat, mask: nat)
    requires Turned(was, c) && Waited(c0, was) && mask in {LSR_DR, LSR_THRE, LSR_TEMT}
    ensures var d := AfterRead(c, LSR);
            && Waited(c0, d) && Answer(c, LSR) == LineStatus(c)
            && (Bit(LineStatus(c), mask) && mask == LSR_DR ==> |d.rx| > 0)
            && (Bit(LineStatus(c), mask) && (mask == LSR_THRE || mask == LSR_TEMT) ==> |d.tx| == 0)
  {
    StatusBits(c);
    hide Bit, LineStatus, Conserved;
  }

  lemma LookOnBus(b0: Bus, b: Bus, v: byte, guard: nat)
    requires OnlyPolled(b0, b, guard) && guard < POLL_BOUND
    ensures OnlyPolled(b0, BusRead(b, LSR, v), guard + 1) && OnlyPolled(b0, BusRead(b, LSR, v), POLL_BOUND)
  {
    hide Bit;
  }

  lemma PollYield(c0: Chip, was: Chip, c: Chip)
    requires Turned(was, c) && Waited(c0, was)
    ensures Waited(c0, c)
  {
    hide Conserved;
  }

  lemma NotUnready(answers: nat -> byte, from: nat, mask: nat, n: nat)
    requires Bit(answers(from + 2 * n), mask) && n < POLL_BOUND
    ensures !Unready(answers, from, mask, POLL_BOUND)
  {
    hide Bit;
  }

  lemma StillUnready(answers: nat -> byte, from: nat, mask: nat, n: nat)
    requires Unready(answers, from, mask, n) && !Bit(answers(from + 2 * n), mask)
    ensures Unready(answers, from, mask, n + 1)
  {
    hide Bit;
  }

  // ------------------------------------------------------------------
  // Transmit
  // ------------------------------------------------------------------

  /** The chip is in session and takes at least a chunk at a time. */
  predicate CanSend(c: Chip, chunk: nat) {
    !ChipLatch(c) && !ChipLoop(c) && chunk <= Depth(c)
  }

  function Chunk(txChunk: int): (n: nat)
    ensures n >= 1
  {
    if txChunk < 1 then SINGLE_CHUNK else txChunk
  }

  /** One byte to the holding register, as the bus sees it and as the chip takes it. */
  lemma SendOne(b: Bus, was: Chip, c: Chip, v: byte, chunk: nat, i: nat)
    requires Turned(was, c)
    ensures BusWrite(b, THR, v).inputs == b.inputs
    ensures !Latching(b) && !Looped(b) ==>
              BusWrite(b, THR, v) == b.(sent := b.sent + [v]) && !Latching(BusWrite(b, THR, v)) && !Looped(BusWrite(b, THR, v))
    ensures CanSend(was, chunk) && |was.tx| <= i < chunk ==>
              var d := AfterWrite(c, THR, v);
              CanSend(d, chunk) && d.kind == was.kind && d.fifoOn == was.fifoOn && |d.tx| <= i + 1
              && d.accepted == was.accepted + [v] && d.lost == was.lost
  {
    hide Bit;
  }

  /** One burst into an empty transmitter. */
  method Burst(io: Port, buf: seq<byte>, from: nat, burst: nat)
    requires Agrees(io.bus, io.chip) && from + burst <= |buf|
    modifies io
    ensures Agrees(io.bus, io.chip) && io.honest == old(io.honest)
    ensures io.bus.inputs == old(io.bus.inputs) && io.ops == old(io.ops) + burst
    ensures io.chip == BurstRun(io.world, old(io.chip), old(io.ops), buf[from..from + burst])
    ensures old(Conserved(io.chip)) ==> Conserved(io.chip)
    ensures !Latching(old(io.bus)) && !Looped(old(io.bus)) ==>
              io.bus == old(io.bus).(sent := old(io.bus.sent) + buf[from..from + burst])
              && !Latching(io.bus) && !Looped(io.bus)
    ensures old(CanSend(io.chip, burst)) && |old(io.chip.tx)| == 0 ==>
              CanSend(io.chip, burst) && io.chip.kind == old(io.chip.kind) && io.chip.fifoOn == old(io.chip.fifoOn)
              && io.chip.accepted == old(io.chip.accepted) + buf[from..from + burst] && io.chip.lost == old(io.chip.lost)
  {
    hide *;
    ghost var good := CanSend(io.chip, burst) && |io.chip.tx| == 0;
    ghost var plain := !Latching(io.bus) && !Looped(io.bus);
    ghost var b0, c0, to := io.bus, io.chip, from + burst;
    ghost var goal := BurstRun(io.world, c0, io.ops, buf[from..to]);
    assert buf[from..from + 0] == [] && buf[from + 0..to] == buf[from..to];
    for i := 0 to burst
      invariant goal == BurstRun(io.world, io.chip, io.ops, buf[from + i..to]) && io.ops == old(io.ops) + i
      invariant old(Conserved(io.chip)) ==> Conserved(io.chip)
      invariant Agrees(io.bus, io.chip) && io.honest == old(io.honest)
      invariant io.bus.inputs == b0.inputs
      invariant plain ==> !Latching(io.bus) && !Looped(io.bus)
      invariant plain ==> io.bus == b0.(sent := b0.sent + buf[from..from + i])
      invariant good ==> CanSend(io.chip, burst) && io.chip.kind == c0.kind && io.chip.fifoOn == c0.fifoOn && |io.chip.tx| <= i
      invariant good ==> io.chip.accepted == c0.accepted + buf[from..from + i] && io.chip.lost == c0.lost
    {
      SendOne(io.bus, io.chip, io.Now(), buf[from + i], burst, i);
      BurstStep(io.world, io.chip, io.ops, buf[from + i..to]);
      assert buf[from + i..to][1..] == buf[from + i + 1..to] && buf[from + i..to][0] == buf[from + i];
      io.Out(THR, buf[from + i]);
      assert buf[from..from + i + 1] == buf[from..from + i] + [buf[from + i]];
    }
    BurstEnd(io.world, io.chip, io.ops);
    assert buf[from + burst..to] == [];
  }

  lemma BurstStep(w: nat -> World, c: Chip, k: nat, bytes: seq<byte>)
    requires |bytes| > 0
    ensures BurstRun(w, c, k, bytes) == BurstRun(w, AfterWrite(Turn(c, w(k)), THR, bytes[0]), k + 1, bytes[1..])
  {
    hide AfterWrite, Turn;
  }

  lemma BurstEnd(w: nat -> World, c: Chip, k: nat)
    ensures BurstRun(w, c, k, []) == c
  {}

  lemma SmallerBurst(c: Chip, burst: nat, chunk: nat)
    requires burst <= chunk
    ensures CanSend(c, chunk) ==> CanSend(c, burst)
  {}

  lemma StillSends(a: Chip, b: Chip, burst: nat, chunk: nat)
    ensures b.kind == a.kind && b.fifoOn == a.fifoOn && CanSend(a, chunk) && CanSend(b, burst) ==> CanSend(b, chunk)
  {}

  lemma WaitedSends(a: Chip, b: Chip, chunk: nat)
    requires Waited(a, b)
    ensures CanSend(a, chunk) ==> CanSend(b, chunk) && b.accepted == a.accepted && b.lost == a.lost
  {}

  lemma PolledBus(b: Bus, now: Bus, bound: nat)
    requires OnlyPolled(b, now, bound)
    ensures now.inputs <= b.inputs + bound && now == b.(inputs := now.inputs)
    ensures Latching(now) == Latching(b) && Looped(now) == Looped(b)
  {}

  /** The bursts that n bytes take. */
  function Bursts(n: nat, chunk: nat): nat
    requires chunk > 0
  {
    if n == 0 then 0 else if n <= chunk then 1 else 1 + Bursts(n - chunk, chunk)
  }

  /** n is a whole number of chunks. */
  predicate Whole(n: nat, chunk: nat)
    requires chunk > 0
  {
    n == 0 || (n >= chunk && Whole(n - chunk, chunk))
  }

  lemma {:induction false} WholeIsMultiple(n: nat, chunk: nat)
    requires chunk > 0
    ensures Whole(n, chunk) ==> n % chunk == 0
  {
    if n > 0 && n >= chunk {
      WholeIsMultiple(n - chunk, chunk);
      AddChunk(n - chunk, chunk);
    }
  }

  lemma AddChunk(x: nat, c: nat)
    requires c > 0
    ensures (x + c) % c == x % c
  {
    var q, r := (x + c) / c, (x + c) % c;
    assert x == c * (x / c) + x % c && x + c == c * q + r;
    assert c * (q - 1) == c * q - c;
    SameRemainder(c, q - 1, r, x / c, x % c);
  }

  lemma SameRemainder(c: nat, q: int, r: nat, q': int, r': nat)
    requires r < c && r' < c && c * q + r == c * q' + r'
    ensures r == r'
  {
    if q < q' { Grows(c, q, q'); }
    if q' < q { Grows(c, q', q); }
  }

  lemma Grows(c: nat, a: int, b: int)
    requires a < b
    ensures c * a + c <= c * b
  {
    assert c * b == c * a + c * (b - a) && c * (b - a) == c + c * (b - a - 1);
  }

  /** The reads that a transmit of n bytes may make. */
  function Reads(n: nat, chunk: nat): nat
    requires chunk > 0
  {
    POLL_BOUND * Bursts(n, chunk)
  }

  lemma OneMoreBurst(left: nat, chunk: nat, burst: nat)
    requires chunk > 0 && left > 0 && burst == if left > chunk then chunk else left
    ensures Reads(left, chunk) == POLL_BOUND + Reads(left - burst, chunk)
  {
    assert Bursts(left, chunk) == 1 + Bursts(left - burst, chunk);
    hide Bursts;
  }

  lemma WholeGrows(done: nat, chunk: nat)
    requires chunk > 0 && Whole(done, chunk)
    ensures Whole(done + chunk, chunk) && Whole(0, chunk)
  {}

  /** A wait for room, and a burst into it. */
  method SendBurst(io: Port, buf: seq<byte>, from: nat, burst: nat, chunk: nat) returns (ready: bool)
    requires Agrees(io.bus, io.chip) && from + burst <= |buf| && burst <= chunk
    modifies io
    ensures Agrees(io.bus, io.chip) && (io.honest ==> old(io.honest))
    ensures old(Conserved(io.chip)) ==> Conserved(io.chip)
    ensures io.bus.inputs <= old(io.bus.inputs) + POLL_BOUND
    ensures !ready ==> io.ops >= 2 * POLL_BOUND && Unready(io.answers, io.ops - 2 * POLL_BOUND, LSR_THRE, POLL_BOUND)
    ensures !Latching(old(io.bus)) && !Looped(old(io.bus)) ==>
              && !Latching(io.bus) && !Looped(io.bus)
              && io.bus.sent == if ready then old(io.bus.sent) + buf[from..from + burst] else old(io.bus.sent)
    ensures io.honest && old(CanSend(io.chip, chunk)) ==>
              && CanSend(io.chip, chunk) && io.chip.lost == old(io.chip.lost)
              && io.chip.accepted == if ready then old(io.chip.accepted) + buf[from..from + burst] else old(io.chip.accepted)
    ensures io.honest ==>
              var p := PollRun(io.world, old(io.chip), old(io.ops), LSR_THRE, POLL_BOUND);
              && ready == p.ready && io.ops == (if ready then p.ops + burst else p.ops)
              && io.chip == if ready then BurstRun(io.world, p.chip, p.ops, buf[from..from + burst]) else p.chip
  {
    hide *;
    ghost var b0, c0 := io.bus, io.chip;
    ready := Poll(io, LSR_THRE);
    PolledBus(b0, io.bus, POLL_BOUND);
    WaitedSends(c0, io.chip, chunk);
    if ready {
      ghost var c1 := io.chip;
      SmallerBurst(c1, burst, chunk);
      Burst(io, buf, from, burst);
      StillSends(c1, io.chip, burst, chunk);
    }
  }

  /**
    Returns the length when everything was sent, or -1 when a wait for room
    expired: then the whole bound of polls has just shown no room. Whatever the bus,
    `sent` bytes were written in order, with a bounded poll before each burst; on an
    honest chip they entered the transmitter in order and none was lost.
   */
  method UartTxChunk(io: Port, drv: Driver, buf: seq<byte>) returns (r: int, ghost sent: nat)
    requires Agrees(io.bus, io.chip)
    modifies io
    ensures Agrees(io.bus, io.chip)
    ensures sent <= |buf| && (r == |buf| == sent || (r == -1 && sent < |buf| && sent % Chunk(drv.txChunk) == 0))
    ensures !Latching(old(io.bus)) && !Looped(old(io.bus)) ==> io.bus.sent == old(io.bus.sent) + buf[..sent]
    ensures io.bus.inputs <= old(io.bus.inputs) + Reads(|buf|, Chunk(drv.txChunk))
    ensures r == -1 ==> io.ops >= 2 * POLL_BOUND && Unready(io.answers, io.ops - 2 * POLL_BOUND, LSR_THRE, POLL_BOUND)
    ensures old(Conserved(io.chip)) ==> Conserved(io.chip)
    ensures io.honest ==> old(io.honest)
    ensures io.honest ==>
              Sent(r >= 0, sent, io.chip, io.ops) == SendRun(io.world, old(io.chip), old(io.ops), Chunk(drv.txChunk), buf, 0)
    ensures io.honest && old(CanSend(io.chip, Chunk(drv.txChunk))) ==>
              && io.chip.accepted == old(io.chip.accepted) + buf[..sent] && io.chip.lost == old(io.chip.lost)
              && CanSend(io.chip, Chunk(drv.txChunk))
  {
    hide *;
    var chunk := Chunk(drv.txChunk);
    assert buf[..0] == [];
    ghost var good := CanSend(io.chip, chunk);
    ghost var plain := !Latching(io.bus) && !Looped(io.bus);
    ghost var b0, c0 := io.bus, io.chip;
    ghost var goal := SendRun(io.world, io.chip, io.ops, chunk, buf, 0);
    var done := 0;
    sent := 0;
    WholeStart(chunk);
    assert buf[0..] == buf;
    while done < |buf|
      invariant Agrees(io.bus, io.chip) && (io.honest ==> old(io.honest))
      invariant done <= |buf| && (done < |buf| ==> Whole(done, chunk))
      invariant io.honest ==> goal == SendRun(io.world, io.chip, io.ops, chunk, buf[done..], done)
      invariant old(Conserved(io.chip)) ==> Conserved(io.chip)
      invariant plain ==> !Latching(io.bus) && !Looped(io.bus) && io.bus.sent == b0.sent + buf[..done]
      invariant io.bus.inputs + Reads(|buf| - done, chunk) <= b0.inputs + Reads(|buf|, chunk)
      invariant good && io.honest ==> CanSend(io.chip, chunk) && io.chip.lost == c0.lost
      invariant good && io.honest ==> io.chip.accepted == c0.accepted + buf[..done]
    {
      var burst := |buf| - done;
      if burst > chunk { burst := chunk; }
      OneMoreBurst(|buf| - done, chunk, burst);
      ghost var p := PollRun(io.world, io.chip, io.ops, LSR_THRE, POLL_BOUND);
      SendStep(io.world, io.chip, io.ops, chunk, buf[done..], done, p);
      var ready := SendBurst(io, buf, done, burst, chunk);
      if !ready {
        sent := done;
        WholeIsMultiple(done, chunk);
        return -1, done;
      }
      CutAt(buf, done, burst);
      if done + burst < |buf| { WholeGrows(done, chunk); }
      done := done + burst;
    }
    sent := done;
    assert buf[..done] == buf && buf[done..] == [];
    SendEnd(io.world, io.chip, io.ops, chunk, done);
    r := done;
  }

  lemma CutAt(buf: seq<byte>, done: nat, burst: nat)
    requires done + burst <= |buf|
    ensures buf[..done] + buf[done..done + burst] == buf[..done + burst]
    ensures buf[done..][..burst] == buf[done..done + burst] && buf[done..][burst..] == buf[done + burst..]
  {}

  lemma WholeStart(chunk: nat)
    requires chunk > 0
    ensures Whole(0, chunk)
  {}

  // ------------------------------------------------------------------
  // Receive
  // ------------------------------------------------------------------

  lemma AwaitStep(w: nat -> World, c: Chip, k: nat, len: nat, left: nat, n: nat)
    ensures left == 0 ==> Await(w, c, k, len, left, n) == Heard(Waiting, [], n, c, k)
    ensures left > 0 ==>
              var d := AfterRead(Turn(c, w(k)), LSR);
              d.status == Answer(Turn(c, w(k)), LSR)
              && Await(w, c, k, len, left, n)
                 == if Bit(d.status, LSR_DR) then Onward(w, d, k + 1, len, left - 1, [], n)
                    else Await(w, Turn(d, w(k + 1)), k + 2, len, left - 1, n)
  {
    hide Turn, LineStatus, Onward, Bit;
  }

  /** A wait until a character is there, or the budget is spent. */
  method AwaitData(io: Port, budget: nat, ghost len: nat, ghost n: nat) returns (lsr: byte, ready: bool, left: nat)
    requires Agrees(io.bus, io.chip)
    modifies io
    ensures Agrees(io.bus, io.chip) && (io.honest ==> old(io.honest)) && left <= budget
    ensures if ready then Bit(lsr, LSR_DR) && left < budget else left == 0
    ensures io.bus.inputs == old(io.bus.inputs) + (budget - left)
    ensures old(Conserved(io.chip)) ==> Conserved(io.chip)
    ensures io.honest && ready ==> io.chip.status == lsr
    ensures io.honest ==>
              Await(io.world, old(io.chip), old(io.ops), len, budget, n)
              == if ready then Onward(io.world, io.chip, io.ops, len, left, [], n) else Heard(Waiting, [], n, io.chip, io.ops)
  {
    hide *;
    ghost var goal := Await(io.world, io.chip, io.ops, len, budget, n);
    lsr, left := 0, budget;
    while left > 0
      invariant Agrees(io.bus, io.chip) && (io.honest ==> old(io.honest)) && left <= budget
      invariant old(Conserved(io.chip)) ==> Conserved(io.chip)
      invariant io.bus.inputs == old(io.bus.inputs) + (budget - left)
      invariant io.honest ==> goal == Await(io.world, io.chip, io.ops, len, left, n)
    {
      AwaitStep(io.world, io.chip, io.ops, len, left, n);
      left := left - 1;
      ghost var b0 := io.bus;
      lsr := io.In(LSR);
      OneRead(b0, LSR, lsr);
      if Bit(lsr, LSR_DR) {
        return lsr, true, left;
      }
      io.Yield();
    }
    AwaitStep(io.world, io.chip, io.ops, len, 0, n);
    ready := false;
  }

  lemma OneRead(b: Bus, reg: nat, v: byte)
    ensures BusRead(b, reg, v).inputs == b.inputs + 1
  {}

  lemma OnwardIs(w: nat -> World, c: Chip, k: nat, len: nat, left: nat, bytes: seq<byte>, n: nat)
    requires |bytes| <= len
    ensures Onward(w, c, k, len, left, bytes, n)
            == if |bytes| < len && Bit(c.status, LSR_DR) then Take(w, c, k, len, left, bytes, n)
               else if |bytes| > 0 then Heard(Data(|bytes|), bytes, n, c, k)
               else Await(w, c, k, len, left, n)
  {
    hide Take, Await, Bit;
  }

  lemma TakeStep(w: nat -> World, c: Chip, k: nat, len: nat, left: nat, bytes: seq<byte>, n: nat)
    requires |bytes| < len
    ensures var (now, n') := (Turn(c, w(k)), n + One(Bit(c.status, LSR_OE)));
            var (b, e) := (Answer(now, RBR), AfterRead(now, RBR));
            var d := AfterRead(Turn(e, w(k + 1)), LSR);
            && d.status == Answer(Turn(e, w(k + 1)), LSR)
            && Take(w, c, k, len, left, bytes, n)
               == if !Bit(c.status, LSR_BI) then Onward(w, d, k + 2, len, left, bytes + [b], n')
                  else if Bit(c.status, LSR_FE) then Heard(CommsError, bytes, n', e, k + 1)
                  else if left == 0 then Heard(Waiting, bytes, n', e, k + 1)
                  else Onward(w, d, k + 2, len, left - 1, bytes, n')
  {
    hide Turn, LineStatus, Onward, Bit;
  }

  /** The counter wraps at 32 bits. */
  function Count(base: nat, n: nat): u32 { (base + n) % 0x1_0000_0000 }

  lemma CountOne(base: nat, n: nat)
    ensures Count(base, n + 1) == (Count(base, n) + 1) % 0x1_0000_0000
    ensures One(true) == 1 && One(false) == 0
  {}

  /** How the draining of characters ends: with an error, out of budget, with data, or with nothing yet. */
  datatype Stop = Failed | Spent | Enough | Nothing

  /** Decodes the overrun from the snapshot and reads one character. */
  method TakeChar(io: Port, drv: Driver, lsr: byte, ghost base: nat, ghost n: nat) returns (b: byte)
    requires Agrees(io.bus, io.chip) && drv.overrunCount == Count(base, n)
    modifies io, drv`overrunCount
    ensures Agrees(io.bus, io.chip) && (old(Conserved(io.chip)) ==> Conserved(io.chip))
    ensures drv.overrunCount == Count(base, n + One(Bit(lsr, LSR_OE)))
    ensures io.bus.inputs == old(io.bus.inputs) + 1 && io.ops == old(io.ops) + 1
    ensures io.chip == AfterRead(Turn(old(io.chip), io.world(old(io.ops))), RBR)
    ensures io.honest ==> old(io.honest) && b == Answer(Turn(old(io.chip), io.world(old(io.ops))), RBR)
  {
    hide *;
    CountOne(base, n);
    if Bit(lsr, LSR_OE) {
      drv.overrunCount := (drv.overrunCount + 1) % 0x1_0000_0000;
    }
    ghost var b0 := io.bus;
    b := io.In(RBR);
    OneRead(b0, RBR, b);
  }

  /** The snapshot after a character. */
  method Snapshot(io: Port) returns (lsr: byte)
    requires Agrees(io.bus, io.chip)
    modifies io
    ensures Agrees(io.bus, io.chip) && (old(Conserved(io.chip)) ==> Conserved(io.chip))
    ensures io.bus.inputs == old(io.bus.inputs) + 1 && io.ops == old(io.ops) + 1
    ensures io.chip == AfterRead(Turn(old(io.chip), io.world(old(io.ops))), LSR)
    ensures io.honest ==> old(io.honest) && lsr == io.chip.status
  {
    hide *;
    ghost var b0, now := io.bus, io.Now();
    StatusIs(now);
    lsr := io.In(LSR);
    OneRead(b0, LSR, lsr);
  }

  lemma StatusIs(c: Chip)
    ensures AfterRead(c, LSR).status == Answer(c, LSR)
  {
    hide LineStatus;
  }

  /** Takes characters while the status says there are more, and room for them. */
  method Drain(io: Port, drv: Driver, buf: array<byte>, len: nat, status: byte, budget: nat, ghost base: nat, ghost n: nat)
    returns (got: nat, left: nat, stop: Stop, ghost counted: nat)
    requires Agrees(io.bus, io.chip) && len <= buf.Length && drv.overrunCount == Count(base, n)
    modifies io, drv`overrunCount, buf
    ensures Agrees(io.bus, io.chip) && (io.honest ==> old(io.honest)) && got <= len && left <= budget
    ensures old(Conserved(io.chip)) ==> Conserved(io.chip)
    ensures io.bus.inputs + left >= old(io.bus.inputs) + budget
    ensures drv.overrunCount == Count(base, counted)
    ensures stop == Spent ==> left == 0
    ensures stop == Enough ==> got > 0
    ensures stop == Nothing ==> got == 0 && (left < budget || len == 0 || !Bit(status, LSR_DR))
    ensures len == 0 ==> stop == Nothing
    ensures io.honest && old(io.chip.status) == status ==>
              Onward(io.world, old(io.chip), old(io.ops), len, budget, [], n)
              == match stop
                 case Failed => Heard(CommsError, buf[..got], counted, io.chip, io.ops)
                 case Spent => Heard(Waiting, buf[..got], counted, io.chip, io.ops)
                 case Enough => Heard(Data(got), buf[..got], counted, io.chip, io.ops)
                 case Nothing => Await(io.world, io.chip, io.ops, len, left, counted)
  {
    hide *;
    ghost var told := io.chip.status == status;
    ghost var goal := Onward(io.world, io.chip, io.ops, len, budget, [], n);
    var lsr := status;
    got, left, counted := 0, budget, n;
    assert buf[..0] == [];
    while got < len && Bit(lsr, LSR_DR)
      invariant Agrees(io.bus, io.chip) && (io.honest ==> old(io.honest)) && got <= len && left <= budget
      invariant old(Conserved(io.chip)) ==> Conserved(io.chip)
      invariant io.bus.inputs + left >= old(io.bus.inputs) + budget
      invariant drv.overrunCount == Count(base, counted)
      invariant got == 0 ==> left < budget || lsr == status
      invariant told && io.honest ==>
                  io.chip.status == lsr && goal == Onward(io.world, io.chip, io.ops, len, left, buf[..got], counted)
      decreases left, len - got
    {
      ghost var before := buf[..got];
      OnwardIs(io.world, io.chip, io.ops, len, left, before, counted);
      TakeStep(io.world, io.chip, io.ops, len, left, before, counted);
      var b := TakeChar(io, drv, lsr, base, counted);
      counted := counted + One(Bit(lsr, LSR_OE));
      if Bit(lsr, LSR_BI) {
        if Bit(lsr, LSR_FE) {
          return got, left, Failed, counted;
        }
        if left == 0 {
          return got, left, Spent, counted;
        }
        left := left - 1;
      } else {
        buf[got] := b;
        got := got + 1;
        assert buf[..got] == before + [b];
      }
      lsr := Snapshot(io);
    }
    OnwardIs(io.world, io.chip, io.ops, len, left, buf[..got], counted);
    stop := if got > 0 then Enough else Nothing;
  }

  /**
    Polls until there is data. On an honest chip the call is the receive of UartLine:
    the same bytes, the same end, the same overruns counted; so the bytes are the
    characters taken, in order, without those whose status flagged a break, and only a
    break with a framing error makes it fail. Whatever the bus, a call that gives up
    has spent its budget.
   */
  method UartRxDrain(io: Port, drv: Driver, buf: array<byte>, len: nat, budget: nat) returns (r: Received, ghost got: nat)
    requires Agrees(io.bus, io.chip) && len <= buf.Length
    modifies io, drv`overrunCount, buf
    ensures Agrees(io.bus, io.chip) && (io.honest ==> old(io.honest))
    ensures got <= len && (r.Data? ==> 0 < r.n == got)
    ensures len == 0 ==> r == Waiting
    ensures r == Waiting ==> io.bus.inputs >= old(io.bus.inputs) + budget
    ensures old(Conserved(io.chip)) ==> Conserved(io.chip)
    ensures io.honest ==>
              var h := Hear(io.world, old(io.chip), old(io.ops), len, budget);
              h == Heard(r, buf[..got], h.counted, io.chip, io.ops) && drv.overrunCount == Count(old(drv.overrunCount), h.counted)
    ensures io.honest && old(InSession(io.chip)) && len > 0 ==>
              var ts := Since(old(io.chip), io.chip);
              && old(io.chip.taken) <= io.chip.taken && buf[..got] == Delivered(ts)
              && (r == CommsError ==> |ts| > 0)
              && (forall i :: 0 <= i < |ts| ==> (HardError(ts[i]) <==> r == CommsError && i == |ts| - 1))
              && drv.overrunCount == Count(old(drv.overrunCount), Overruns(ts))
  {
    hide *;
    if InSession(io.chip) && len > 0 { ReceiveLaw(io.world, io.chip, io.ops, len, budget); }
    ghost var base, n, goal := drv.overrunCount, 0, Hear(io.world, io.chip, io.ops, len, budget);
    HearIs(io.world, io.chip, io.ops, len, budget, drv.overrunCount);
    var left: nat := budget;
    assert buf[..0] == [];
    while true
      invariant Agrees(io.bus, io.chip) && (io.honest ==> old(io.honest)) && left <= budget
      invariant old(Conserved(io.chip)) ==> Conserved(io.chip)
      invariant io.bus.inputs + left >= old(io.bus.inputs) + budget
      invariant drv.overrunCount == Count(base, n)
      invariant io.honest ==> goal == Await(io.world, io.chip, io.ops, len, left, n)
      decreases left
    {
      var lsr, ready, rest := AwaitData(io, left, len, n);
      assert buf[..0] == [];
      if !ready {
        return Waiting, 0;
      }
      var some, stop;
      some, left, stop, n := Drain(io, drv, buf, len, lsr, rest, base, n);
      match stop {
        case Failed => return CommsError, some;
        case Spent => return Waiting, some;
        case Enough => return Data(some), some;
        case Nothing =>
      }
    }
  }

  lemma HearIs(w: nat -> World, c: Chip, k: nat, len: nat, budget: nat, base: u32)
    ensures Hear(w, c, k, len, budget) == Await(w, c, k, len, budget, 0) && Count(base, 0) == base
  {}

  // ------------------------------------------------------------------
  // Where a break or an overrun gets past the driver
  // ------------------------------------------------------------------

  /** A break waits, something is sent, and the next receive delivers the break as its first byte. */
  method SendThenReceive(io: Port, drv: Driver, bytes: seq<byte>, buf: array<byte>, len: nat, budget: nat)
    returns (r: Received, ghost got: nat)
    requires Agrees(io.bus, io.chip) && |bytes| > 0 && 0 < len <= buf.Length && budget > 0
    modifies io, drv`overrunCount, buf
    ensures got <= len
    ensures io.honest && old(InSession(io.chip)) && |old(io.chip.rx)| > 0 && First(old(io.chip)).brk ==>
              got > 0 && buf[0] == First(old(io.chip)).b
  {
    hide *;
    ghost var w, c, k, chunk := io.world, io.chip, io.ops, Chunk(drv.txChunk);
    if InSession(c) && |c.rx| > 0 && First(c).brk { BreakAfterSend(w, c, k, chunk, bytes, len, budget); }
    var n, sent := UartTxChunk(io, drv, bytes);
    r, got := UartRxDrain(io, drv, buf, len, budget);
  }

  /** A buffer of one byte fills in front of a break, and the next receive delivers the break as its first byte. */
  method FillThenReceive(io: Port, drv: Driver, buf: array<byte>, len: nat, budget: nat)
    returns (r: Received, ghost got: nat)
    requires Agrees(io.bus, io.chip) && 0 < len <= buf.Length && budget > 0
    modifies io, drv`overrunCount, buf
    ensures got <= len
    ensures io.honest && old(InSession(io.chip)) && |old(io.chip.rx)| > 1 && !First(old(io.chip)).brk && old(io.chip).rx[1].brk ==>
              got > 0 && buf[0] == old(io.chip).rx[1].b
  {
    hide *;
    ghost var w, c, k := io.world, io.chip, io.ops;
    if InSession(c) && |c.rx| > 1 && !First(c).brk && c.rx[1].brk { BreakAfterFullBuffer(w, c, k, budget, len, budget); }
    r, got := UartRxDrain(io, drv, buf, 1, budget);
    r, got := UartRxDrain(io, drv, buf, len, budget);
  }

  /** Without a FIFO, an overrun that falls between the look at a character and its taking leaves the count as it was. */
  method ReceiveOverOverrun(io: Port, drv: Driver, buf: array<byte>, budget: nat, ghost x: Rx) returns (r: Received)
    requires Agrees(io.bus, io.chip) && 1 <= buf.Length && budget > 0
    requires InSession(io.chip) && !ChipLoop(io.chip) && Depth(io.chip) == 1
    requires |io.chip.rx| == 1 && !First(io.chip).brk && !io.chip.oe
    requires io.world(io.ops).arrive == [] && io.world(io.ops + 1).arrive == [x] && io.world(io.ops + 2).arrive == []
    modifies io, drv`overrunCount, buf
    ensures io.honest ==> r == Data(1) && drv.overrunCount == old(drv.overrunCount)
                          && io.chip.overran == old(io.chip.overran) + 1 && io.chip.reports == old(io.chip.reports) + 1
  {
    hide *;
    OverrunUnseen(io.world, io.chip, io.ops, x, budget);
    HearIs(io.world, io.chip, io.ops, 1, budget, drv.overrunCount);
    ghost var got;
    r, got := UartRxDrain(io, drv, buf, 1, budget);
  }
}
