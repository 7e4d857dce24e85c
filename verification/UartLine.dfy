/**
  What the polled transmit and receive of src/uart.c do on an honest chip, as
  functions of the chip, of the world around it, and of the number of the next
  operation on the port.
 */
module UartLine {
  import opened Text
  import opened Chip

  const POLL_BOUND: nat := 100000

  // ------------------------------------------------------------------
  // Transmit
  // ------------------------------------------------------------------

  datatype Polled = Polled(ready: bool, chip: Chip, ops: nat)

  /** Up to `bound` looks at the line status for one bit, yielding after each that does not show it. */
  function PollRun(w: nat -> World, c: Chip, k: nat, mask: nat, bound: nat): Polled
    decreases bound
  {
    if bound == 0 then Polled(false, c, k)
    else
      var d := Looked(Turn(c, w(k)));
      if Bit(d.status, mask) then Polled(true, d, k + 1)
      else PollRun(w, Turn(d, w(k + 1)), k + 2, mask, bound - 1)
  }

  function BurstRun(w: nat -> World, c: Chip, k: nat, bytes: seq<byte>): Chip
    decreases |bytes|
  {
    if |bytes| == 0 then c else BurstRun(w, AfterWrite(Turn(c, w(k)), THR, bytes[0]), k + 1, bytes[1..])
  }

  datatype Sent = Sent(all: bool, sent: nat, chip: Chip, ops: nat)

  function SendRun(w: nat -> World, c: Chip, k: nat, chunk: nat, buf: seq<byte>, sent: nat): Sent
    requires chunk > 0
    decreases |buf|
  {
    if |buf| == 0 then Sent(true, sent, c, k)
    else
      var p := PollRun(w, c, k, LSR_THRE, POLL_BOUND);
      if !p.ready then Sent(false, sent, p.chip, p.ops)
      else
        var burst := if |buf| > chunk then chunk else |buf|;
        SendRun(w, BurstRun(w, p.chip, p.ops, buf[..burst]), p.ops + burst, chunk, buf[burst..], sent + burst)
  }

  lemma SendStep(w: nat -> World, c: Chip, k: nat, chunk: nat, buf: seq<byte>, sent: nat, p: Polled)
    requires chunk > 0 && |buf| > 0 && p == PollRun(w, c, k, LSR_THRE, POLL_BOUND)
    ensures var burst := if |buf| > chunk then chunk else |buf|;
            SendRun(w, c, k, chunk, buf, sent)
            == if !p.ready then Sent(false, sent, p.chip, p.ops)
               else SendRun(w, BurstRun(w, p.chip, p.ops, buf[..burst]), p.ops + burst, chunk, buf[burst..], sent + burst)
  {
    hide PollRun, BurstRun;
  }

  lemma SendEnd(w: nat -> World, c: Chip, k: nat, chunk: nat, sent: nat)
    requires chunk > 0
    ensures SendRun(w, c, k, chunk, [], sent) == Sent(true, sent, c, k)
  {}

  // ------------------------------------------------------------------
  // Receive
  // ------------------------------------------------------------------

  /** How a receive ends; `Waiting` is a call that has used up its budget of polls and dropped breaks. */
  datatype Received = Data(n: nat) | CommsError | Waiting

  /** The end of a receive: the bytes stored, the overruns counted, the chip, and the next operation. */
  datatype Heard = Heard(r: Received, bytes: seq<byte>, counted: nat, chip: Chip, ops: nat)

  /** Polling for data; the budget pays for every poll. */
  function Await(w: nat -> World, c: Chip, k: nat, len: nat, left: nat, n: nat): Heard
    decreases left, len, 0
  {
    if left == 0 then Heard(Waiting, [], n, c, k)
    else
      var d := Looked(Turn(c, w(k)));
      if Bit(d.status, LSR_DR) then Onward(w, d, k + 1, len, left - 1, [], n)
      else Await(w, Turn(d, w(k + 1)), k + 2, len, left - 1, n)
  }

  /** After a look at the status: take a character, return what there is, or poll. */
  function Onward(w: nat -> World, c: Chip, k: nat, len: nat, left: nat, bytes: seq<byte>, n: nat): Heard
    requires |bytes| <= len
    decreases left, len - |bytes|, 2
  {
    if |bytes| < len && Bit(c.status, LSR_DR) then Take(w, c, k, len, left, bytes, n)
    else if |bytes| > 0 then Heard(Data(|bytes|), bytes, n, c, k)
    else Await(w, c, k, len, left, n)
  }

  /** Decoding the last status, taking the character it spoke of, and a look after it; the budget pays for every break. */
  function Take(w: nat -> World, c: Chip, k: nat, len: nat, left: nat, bytes: seq<byte>, n: nat): Heard
    requires |bytes| < len
    decreases left, len - |bytes|, 1
  {
    var now := Turn(c, w(k));
    var (b, e, n') := (Answer(now, RBR), AfterRead(now, RBR), n + One(Bit(c.status, LSR_OE)));
    var d := Looked(Turn(e, w(k + 1)));
    if !Bit(c.status, LSR_BI) then Onward(w, d, k + 2, len, left, bytes + [b], n')
    else if Bit(c.status, LSR_FE) then Heard(CommsError, bytes, n', e, k + 1)
    else if left == 0 then Heard(Waiting, bytes, n', e, k + 1)
    else Onward(w, d, k + 2, len, left - 1, bytes, n')
  }

  function Hear(w: nat -> World, c: Chip, k: nat, len: nat, budget: nat): Heard {
    Await(w, c, k, len, budget, 0)
  }
}
