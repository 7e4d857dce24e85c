/**
  What the transmit and receive of UartLine are worth to the caller, for every chip
  state and whatever the world does: which breaks are dropped, which overruns are
  counted, and what one call leaves for the next.
 */
module UartLaws {
  import opened Text
  import opened Chip
  import opened UartLine

  // ------------------------------------------------------------------
  // What a call takes out of the receiver
  // ------------------------------------------------------------------

  /** What a run of taken characters is worth to the caller: those flagged as breaks are dropped. */
  function Delivered(ts: seq<Taken>): seq<byte> {
    if |ts| == 0 then []
    else
      var t := ts[|ts| - 1];
      Delivered(ts[..|ts| - 1]) + if Bit(t.status, LSR_BI) then [] else [t.b]
  }

  /** The taken characters whose status reported an overrun. */
  function Overruns(ts: seq<Taken>): nat {
    if |ts| == 0 then 0 else Overruns(ts[..|ts| - 1]) + One(Bit(ts[|ts| - 1].status, LSR_OE))
  }

  predicate HardError(t: Taken) { Bit(t.status, LSR_BI) && Bit(t.status, LSR_FE) }

  predicate Soft(ts: seq<Taken>) { forall i :: 0 <= i < |ts| ==> !HardError(ts[i]) }

  /** The characters the chip has handed over since c. */
  function Since(c: Chip, now: Chip): seq<Taken> {
    if |c.taken| <= |now.taken| then now.taken[|c.taken|..] else []
  }

  /** Every character but the first was looked at once; the first once more than before the call. */
  predicate LookedOnce(ts: seq<Taken>, before: nat) {
    forall i :: 0 <= i < |ts| ==> ts[i].looks == if i == 0 then before + 1 else 1
  }

  /** The tally of a receive that began at c0, with `bytes` stored and n overruns counted. */
  predicate Tally(c0: Chip, c: Chip, bytes: seq<byte>, n: nat) {
    && !ChipLatch(c) && Conserved(c) && c0.taken <= c.taken && c0.came <= c.came
    && bytes == Delivered(Since(c0, c)) && n == Overruns(Since(c0, c))
    && LookedOnce(Since(c0, c), c0.looks)
  }

  /** The overruns reported since c0 are those counted, those reported with no character there, and `pending`. */
  predicate Reported(c0: Chip, c: Chip, n: nat, pending: nat) {
    c.reports + c0.blind == c0.reports + n + c.blind + pending
  }

  /** No character is decoded and not yet taken. */
  predicate Sofar(c0: Chip, c: Chip, bytes: seq<byte>, n: nat) {
    && Tally(c0, c, bytes, n) && Soft(Since(c0, c)) && Reported(c0, c, n, 0)
    && c.looks == if |Since(c0, c)| == 0 then c0.looks else 0
  }

  /** The last status has decoded the character that is first. */
  predicate Ready(c0: Chip, c: Chip, bytes: seq<byte>, n: nat) {
    && Tally(c0, c, bytes, n) && Soft(Since(c0, c)) && Reported(c0, c, n, One(Bit(c.status, LSR_OE)))
    && |c.rx| > 0 && Bit(c.status, LSR_DR)
    && c.looks == if |Since(c0, c)| == 0 then c0.looks + 1 else 1
  }

  /** The last character taken was a break with a framing error, and no other was. */
  predicate Broken(c0: Chip, c: Chip, bytes: seq<byte>, n: nat) {
    var ts := Since(c0, c);
    && Tally(c0, c, bytes, n) && Reported(c0, c, n, 0) && c.looks == 0
    && |ts| > 0 && HardError(ts[|ts| - 1]) && Soft(ts[..|ts| - 1])
  }

  /** How a receive with room for len bytes ends. */
  predicate Ended(c0: Chip, h: Heard, len: nat) {
    match h.r
    case Waiting => Sofar(c0, h.chip, h.bytes, h.counted)
    case CommsError => Broken(c0, h.chip, h.bytes, h.counted)
    case Data(n) =>
      && n == |h.bytes| > 0
      && if Bit(h.chip.status, LSR_DR) then n == len && Ready(c0, h.chip, h.bytes, h.counted)
         else Sofar(c0, h.chip, h.bytes, h.counted)
  }

  // ------------------------------------------------------------------
  // The steps
  // ------------------------------------------------------------------

  lemma WaitSofar(c0: Chip, was: Chip, c: Chip, bytes: seq<byte>, n: nat)
    requires Sofar(c0, was, bytes, n) && Turned(was, c)
    ensures Sofar(c0, c, bytes, n)
  {
    assert Since(c0, c) == Since(c0, was);
    hide Bit, Conserved, Delivered, Overruns, LookedOnce, Soft;
  }

  /** A look finds the next character, with its flags if it is the first look, or finds none. */
  lemma LookSofar(c0: Chip, c: Chip, bytes: seq<byte>, n: nat)
    requires Sofar(c0, c, bytes, n)
    ensures var d := Looked(c);
            if Bit(d.status, LSR_DR) then Ready(c0, d, bytes, n) else Sofar(c0, d, bytes, n)
    ensures Looked(c).taken == c.taken
  {
    var d := Looked(c);
    StatusBits(c);
    LookConserves(c);
    NoLooksWhenEmpty(c);
    assert Since(c0, d) == Since(c0, c);
    assert ChipLatch(d) == ChipLatch(c);
    hide Bit, Conserved, Delivered, Overruns, LookedOnce, Soft, LineStatus, ChipLatch;
  }

  lemma NoLooksWhenEmpty(c: Chip)
    requires Conserved(c)
    ensures |c.rx| == 0 ==> c.looks == 0
  {
    hide Tells, Recorded, Holds;
  }

  /** Taking the decoded character. */
  lemma TakeReady(c0: Chip, was: Chip, c: Chip, bytes: seq<byte>, n: nat)
    requires Ready(c0, was, bytes, n) && Turned(was, c)
    ensures var (b, e, n') := (Answer(c, RBR), AfterRead(c, RBR), n + One(Bit(was.status, LSR_OE)));
            && e.taken == was.taken + [Taken(b, was.status, First(was), was.looks)]
            && if !Bit(was.status, LSR_BI) then Sofar(c0, e, bytes + [b], n')
               else if Bit(was.status, LSR_FE) then Broken(c0, e, bytes, n')
               else Sofar(c0, e, bytes, n')
  {
    hide Bit, Conserved, Delivered, Overruns, LookedOnce, Soft, HardError;
    var e := AfterRead(c, RBR);
    var ts := Since(c0, was);
    assert c.rx[0] == was.rx[0];
    SameFirst(was, c);
    var t := Taken(Answer(c, RBR), was.status, First(was), was.looks);
    assert e.taken == was.taken + [t];
    assert Since(c0, e) == ts + [t];
    assert Conserved(e) by { assert Conserved(c); TakeConserves(c); }
    TallyOne(ts, t, c0.looks);
  }

  lemma SameFirst(was: Chip, c: Chip)
    requires Turned(was, c) && |was.rx| > 0 && Conserved(was)
    ensures First(c) == First(was)
  {
    assert |was.came| == |was.taken| + |was.rx|;
    hide Bit, Conserved;
  }

  lemma TallyOne(ts: seq<Taken>, t: Taken, before: nat)
    ensures Delivered(ts + [t]) == Delivered(ts) + if Bit(t.status, LSR_BI) then [] else [t.b]
    ensures Overruns(ts + [t]) == Overruns(ts) + One(Bit(t.status, LSR_OE))
    ensures LookedOnce(ts, before) && t.looks == (if |ts| == 0 then before + 1 else 1) ==> LookedOnce(ts + [t], before)
    ensures Soft(ts) && !HardError(t) ==> Soft(ts + [t])
    ensures (ts + [t])[..|ts|] == ts
    ensures HardError(t) <==> Bit(t.status, LSR_BI) && Bit(t.status, LSR_FE)
  {
    hide Bit, Delivered, Overruns, LookedOnce, Soft;
    assert (ts + [t])[..|ts|] == ts;
    DeliveredOne(ts, t);
    OverrunsOne(ts, t);
    LookedOne(ts, t, before);
    SoftOne(ts, t);
  }

  lemma LookedOne(ts: seq<Taken>, t: Taken, before: nat)
    ensures LookedOnce(ts, before) && t.looks == (if |ts| == 0 then before + 1 else 1) ==> LookedOnce(ts + [t], before)
  {}

  lemma SoftOne(ts: seq<Taken>, t: Taken)
    ensures Soft(ts) && !HardError(t) ==> Soft(ts + [t])
  {
    hide Bit;
  }

  lemma DeliveredOne(ts: seq<Taken>, t: Taken)
    ensures Delivered(ts + [t]) == Delivered(ts) + if Bit(t.status, LSR_BI) then [] else [t.b]
  {
    assert (ts + [t])[..|ts|] == ts;
    hide Bit;
  }

  lemma OverrunsOne(ts: seq<Taken>, t: Taken)
    ensures Overruns(ts + [t]) == Overruns(ts) + One(Bit(t.status, LSR_OE))
  {
    assert (ts + [t])[..|ts|] == ts;
    hide Bit;
  }

  // ------------------------------------------------------------------
  // Every receive
  // ------------------------------------------------------------------

  /** Two operations of a wait without a character. */
  lemma WaitLonger(w: nat -> World, c0: Chip, c: Chip, k: nat, n: nat)
    requires Sofar(c0, c, [], n)
    ensures var d := Looked(Turn(c, w(k)));
            && d.taken == c.taken
            && (if Bit(d.status, LSR_DR) then Ready(c0, d, [], n)
                else Sofar(c0, Turn(d, w(k + 1)), [], n) && Turn(d, w(k + 1)).taken == c.taken)
  {
    hide Sofar, Ready, Turn, Looked, Bit;
    var now := Turn(c, w(k));
    var d := Looked(now);
    TurnTurned(c, w(k));
    TurnTurned(d, w(k + 1));
    WaitSofar(c0, c, now, [], n);
    LookSofar(c0, now, [], n);
    if !Bit(d.status, LSR_DR) { WaitSofar(c0, d, Turn(d, w(k + 1)), [], n); }
    hide Conserved;
  }

  /** A character taken, and the look after it. */
  lemma TakeOneMore(w: nat -> World, c0: Chip, c: Chip, k: nat, bytes: seq<byte>, n: nat)
    requires Ready(c0, c, bytes, n)
    ensures var (now, n') := (Turn(c, w(k)), n + One(Bit(c.status, LSR_OE)));
            var (b, e) := (Answer(now, RBR), AfterRead(now, RBR));
            var d := Looked(Turn(e, w(k + 1)));
            var some := if Bit(c.status, LSR_BI) then bytes else bytes + [b];
            && |e.taken| == |c.taken| + 1 && c.taken <= e.taken && d.taken == e.taken
            && e.taken[|c.taken|] == Taken(b, c.status, First(c), c.looks)
            && (if Bit(c.status, LSR_BI) && Bit(c.status, LSR_FE) then Broken(c0, e, bytes, n')
                else Sofar(c0, e, some, n') && (if Bit(d.status, LSR_DR) then Ready(c0, d, some, n') else Sofar(c0, d, some, n')))
  {
    hide Sofar, Broken, Turn, Looked, Bit, AfterRead, Answer, First;
    var now := Turn(c, w(k));
    TurnTurned(c, w(k));
    TakeReady(c0, c, now, bytes, n);
    hide Ready;
    var e := AfterRead(now, RBR);
    var d := Looked(Turn(e, w(k + 1)));
    TurnTurned(e, w(k + 1));
    if !(Bit(c.status, LSR_BI) && Bit(c.status, LSR_FE)) {
      var some := if Bit(c.status, LSR_BI) then bytes else bytes + [Answer(now, RBR)];
      WaitSofar(c0, e, Turn(e, w(k + 1)), some, n + One(Bit(c.status, LSR_OE)));
      LookSofar(c0, Turn(e, w(k + 1)), some, n + One(Bit(c.status, LSR_OE)));
    } else {
      LookKeepsTaken(Turn(e, w(k + 1)));
    }
    hide Conserved;
  }

  lemma LookKeepsTaken(c: Chip)
    ensures Looked(c).taken == c.taken
  {
    hide LineStatus;
  }

  lemma {:induction false} AwaitEnds(w: nat -> World, c0: Chip, c: Chip, k: nat, len: nat, left: nat, n: nat)
    requires len > 0 && Sofar(c0, c, [], n)
    ensures var h := Await(w, c, k, len, left, n); Ended(c0, h, len) && c.taken <= h.chip.taken && |h.bytes| <= len
    decreases left, len, 0
  {
    hide Sofar, Ready, Broken, Looked, Turn, Onward, Bit;
    if left > 0 {
      WaitLonger(w, c0, c, k, n);
      var d := Looked(Turn(c, w(k)));
      if Bit(d.status, LSR_DR) {
        OnwardEnds(w, c0, d, k + 1, len, left - 1, [], n);
      } else {
        AwaitEnds(w, c0, Turn(d, w(k + 1)), k + 2, len, left - 1, n);
      }
    }
  }

  lemma {:induction false} OnwardEnds(w: nat -> World, c0: Chip, c: Chip, k: nat, len: nat, left: nat, bytes: seq<byte>, n: nat)
    requires |bytes| <= len && len > 0
    requires if Bit(c.status, LSR_DR) then Ready(c0, c, bytes, n) else Sofar(c0, c, bytes, n)
    ensures var h := Onward(w, c, k, len, left, bytes, n); Ended(c0, h, len) && c.taken <= h.chip.taken && |h.bytes| <= len
    decreases left, len - |bytes|, 2
  {
    hide Sofar, Ready, Broken, Take, Await, Bit;
    if |bytes| < len && Bit(c.status, LSR_DR) {
      TakeEnds(w, c0, c, k, len, left, bytes, n);
    } else if |bytes| == 0 {
      AwaitEnds(w, c0, c, k, len, left, n);
    }
  }

  lemma {:induction false} TakeEnds(w: nat -> World, c0: Chip, c: Chip, k: nat, len: nat, left: nat, bytes: seq<byte>, n: nat)
    requires |bytes| < len && Ready(c0, c, bytes, n)
    ensures var h := Take(w, c, k, len, left, bytes, n);
            && Ended(c0, h, len) && |h.bytes| <= len
            && |c.taken| < |h.chip.taken| && c.taken <= h.chip.taken
            && h.chip.taken[|c.taken|].looks == c.looks && h.chip.taken[|c.taken|].was == First(c)
            && h.chip.taken[|c.taken|].status == c.status
    decreases left, len - |bytes|, 1
  {
    hide Sofar, Ready, Broken, Looked, Turn, Onward, Bit, AfterRead, Answer, First;
    TakeOneMore(w, c0, c, k, bytes, n);
    var now, n' := Turn(c, w(k)), n + One(Bit(c.status, LSR_OE));
    var b, e := Answer(now, RBR), AfterRead(now, RBR);
    var d := Looked(Turn(e, w(k + 1)));
    if !Bit(c.status, LSR_BI) {
      OnwardEnds(w, c0, d, k + 2, len, left, bytes + [b], n');
    } else if !Bit(c.status, LSR_FE) && left > 0 {
      OnwardEnds(w, c0, d, k + 2, len, left - 1, bytes, n');
    }
  }

  /** A chip in session: its receiver is at offset 0, and its history is in order. */
  predicate InSession(c: Chip) { !ChipLatch(c) && Conserved(c) }

  lemma StartSofar(c: Chip)
    requires InSession(c)
    ensures Sofar(c, c, [], 0)
  {
    hide Bit, Conserved;
  }

  lemma HearEnds(w: nat -> World, c: Chip, k: nat, len: nat, budget: nat)
    requires InSession(c) && len > 0
    ensures var h := Hear(w, c, k, len, budget); Ended(c, h, len) && |h.bytes| <= len && InSession(h.chip)
  {
    StartSofar(c);
    AwaitEnds(w, c, c, k, len, budget, 0);
    hide Conserved, Delivered, Overruns, LookedOnce, Soft, Await, ChipLatch;
  }

  /**
    Every receive: the bytes are the characters taken, in order, without those their
    status flagged as breaks; the count grows by those whose status reported an
    overrun; and a break with a framing error ends the call, as an error.
   */
  lemma ReceiveLaw(w: nat -> World, c: Chip, k: nat, len: nat, budget: nat)
    requires InSession(c) && len > 0
    ensures var h := Hear(w, c, k, len, budget);
            var ts := Since(c, h.chip);
            && c.taken <= h.chip.taken && h.bytes == Delivered(ts) && h.counted == Overruns(ts)
            && (h.r.Data? ==> h.r.n == |h.bytes| > 0)
            && (h.r == CommsError ==> |ts| > 0)
            && (forall i :: 0 <= i < |ts| ==> (HardError(ts[i]) <==> h.r == CommsError && i == |ts| - 1))
  {
    HearEnds(w, c, k, len, budget);
    var h := Hear(w, c, k, len, budget);
    EndedIs(c, h, len);
    hide *;
    LastIsHard(Since(c, h.chip), h.r == CommsError);
  }

  /** An end in its parts. */
  lemma EndedIs(c: Chip, h: Heard, len: nat)
    requires Ended(c, h, len)
    ensures var ts := Since(c, h.chip);
            && c.taken <= h.chip.taken && h.bytes == Delivered(ts) && h.counted == Overruns(ts)
            && (h.r.Data? ==> h.r.n == |h.bytes| > 0)
            && if h.r == CommsError then |ts| > 0 && HardError(ts[|ts| - 1]) && Soft(ts[..|ts| - 1]) else Soft(ts)
  {
    hide Conserved, Delivered, Overruns, LookedOnce, HardError, Bit, Soft;
  }

  lemma LastIsHard(ts: seq<Taken>, hard: bool)
    requires if hard then |ts| > 0 && HardError(ts[|ts| - 1]) && Soft(ts[..|ts| - 1]) else Soft(ts)
    ensures forall i :: 0 <= i < |ts| ==> (HardError(ts[i]) <==> hard && i == |ts| - 1)
  {
    hide HardError;
    if hard { assert forall i :: 0 <= i < |ts| - 1 ==> ts[i] == ts[..|ts| - 1][i]; }
  }

  // ------------------------------------------------------------------
  // Breaks
  // ------------------------------------------------------------------

  /** The characters as they came in. */
  function Came(ts: seq<Taken>): seq<Rx> { seq(|ts|, i requires 0 <= i < |ts| => ts[i].was) }

  /** What was sent to the device: the characters that are no breaks. */
  function Unbroken(xs: seq<Rx>): seq<byte> {
    if |xs| == 0 then [] else Unbroken(xs[..|xs| - 1]) + if xs[|xs| - 1].brk then [] else [xs[|xs| - 1].b]
  }

  /** The same, but a break in front is taken for data if it has been looked at before. */
  function Worth(xs: seq<Rx>, known: bool): seq<byte> {
    if known && |xs| > 0 && xs[0].brk then [xs[0].b] + Unbroken(xs[1..]) else Unbroken(xs)
  }

  lemma {:induction false} DeliveredIsWorth(ts: seq<Taken>, before: nat)
    requires LookedOnce(ts, before) && forall i :: 0 <= i < |ts| ==> Recorded(ts[i], ts[i].was)
    ensures Delivered(ts) == Worth(Came(ts), before > 0)
  {
    hide Bit;
    if |ts| > 0 {
      var k := |ts| - 1;
      var xs := Came(ts);
      DeliveredIsWorth(ts[..k], before);
      assert Came(ts[..k]) == xs[..k];
      assert Recorded(ts[k], ts[k].was) && ts[k].looks == if k == 0 then before + 1 else 1;
      assert Bit(ts[k].status, LSR_BI) <==> ts[k].was.brk && ts[k].looks == 1;
      WorthOne(xs, before > 0);
      hide Recorded, Tells, Worth, LookedOnce;
    }
  }

  lemma WorthOne(xs: seq<Rx>, known: bool)
    requires |xs| > 0
    ensures var k := |xs| - 1;
            Worth(xs, known) == Worth(xs[..k], known) + if xs[k].brk && !(known && k == 0) then [] else [xs[k].b]
  {
    var k := |xs| - 1;
    if known && xs[0].brk && k > 0 {
      assert xs[1..][..k - 1] == xs[..k][1..] && xs[1..][k - 1] == xs[k];
      Assoc([xs[0].b], Unbroken(xs[..k][1..]), if xs[k].brk then [] else [xs[k].b]);
    }
    if k == 0 { assert xs[1..] == [] && xs[..0] == []; }
  }

  lemma WorthIsUnbroken(xs: seq<Rx>, known: bool)
    ensures Worth(xs, known) == Unbroken(xs) <==> !(known && |xs| > 0 && xs[0].brk)
  {
    if known && |xs| > 0 && xs[0].brk { UnbrokenSkips(xs); }
  }

  lemma {:induction false} UnbrokenSkips(xs: seq<Rx>)
    requires |xs| > 0 && xs[0].brk
    ensures Unbroken(xs) == Unbroken(xs[1..])
  {
    var k := |xs| - 1;
    if k > 0 {
      UnbrokenSkips(xs[..k]);
      assert xs[..k][1..] == xs[1..][..k - 1] && xs[1..][k - 1] == xs[k];
    } else {
      assert xs[1..] == [] && xs[..0] == [];
    }
  }

  /** The characters taken are the next that came in. */
  lemma CameIsHistory(c: Chip, d: Chip)
    requires InSession(c) && InSession(d) && c.taken <= d.taken
    ensures |d.taken| <= |d.came| && Came(Since(c, d)) == d.came[|c.taken|..|d.taken|]
    ensures forall t <- Since(c, d) :: Recorded(t, t.was)
  {
    hide Bit, Tells, Holds;
    forall i | 0 <= i < |Since(c, d)| ensures Came(Since(c, d))[i] == d.came[|c.taken| + i] {
      assert Recorded(d.taken[|c.taken| + i], d.came[|c.taken| + i]);
    }
    forall t | t in Since(c, d) ensures Recorded(t, t.was) {
      var i :| 0 <= i < |Since(c, d)| && Since(c, d)[i] == t;
      assert Recorded(d.taken[|c.taken| + i], d.came[|c.taken| + i]);
    }
  }

  /**
    Which breaks are dropped, in every receive: of the characters that came in, in
    order, all breaks are, except a break that is first and whose flag an earlier
    look at the line status has already cleared. So the call delivers exactly what
    was sent if and only if it does not begin with such a break.
   */
  lemma BreaksDropped(w: nat -> World, c: Chip, k: nat, len: nat, budget: nat)
    requires InSession(c) && len > 0
    ensures var h := Hear(w, c, k, len, budget);
            var xs := Came(Since(c, h.chip));
            && |c.taken| <= |h.chip.taken| <= |h.chip.came| && xs == h.chip.came[|c.taken|..|h.chip.taken|]
            && h.bytes == Worth(xs, c.looks > 0)
            && (h.bytes == Unbroken(xs) <==> !(c.looks > 0 && |xs| > 0 && xs[0].brk))
  {
    HearEnds(w, c, k, len, budget);
    ReceiveLaw(w, c, k, len, budget);
    var h := Hear(w, c, k, len, budget);
    var ts := Since(c, h.chip);
    CameIsHistory(c, h.chip);
    assert LookedOnce(ts, c.looks) by { EndedLooks(c, h, len); }
    hide *;
    DeliveredIsWorth(ts, c.looks);
    WorthIsUnbroken(Came(ts), c.looks > 0);
  }

  /** A character is taken for a hard error exactly if it came in as a break with a framing error and is looked at for the first time. */
  lemma HardErrorCame(t: Taken, x: Rx)
    requires Recorded(t, x) && t.looks > 0
    ensures HardError(t) <==> x.brk && x.fe && t.looks == 1
  {
    hide Bit;
  }

  /**
    Which receives fail: those that take a break with a framing error, unless it comes
    first and an earlier look has already seen it; and they take nothing after it.
   */
  lemma HardErrorsFail(w: nat -> World, c: Chip, k: nat, len: nat, budget: nat)
    requires InSession(c) && len > 0
    ensures var h := Hear(w, c, k, len, budget);
            var xs := Came(Since(c, h.chip));
            && (h.r == CommsError ==> |xs| > 0)
            && forall i :: 0 <= i < |xs| ==>
                 (xs[i].brk && xs[i].fe && !(i == 0 && c.looks > 0) <==> h.r == CommsError && i == |xs| - 1)
  {
    var h := Hear(w, c, k, len, budget);
    var ts := Since(c, h.chip);
    HearEnds(w, c, k, len, budget);
    ReceiveLaw(w, c, k, len, budget);
    assert LookedOnce(ts, c.looks) by { EndedLooks(c, h, len); }
    CameIsHistory(c, h.chip);
    hide Recorded, HardError, InSession, Hear, Since, Ended, Delivered, Overruns;
    var xs := Came(ts);
    forall i | 0 <= i < |xs|
      ensures xs[i].brk && xs[i].fe && !(i == 0 && c.looks > 0) <==> h.r == CommsError && i == |xs| - 1
    {
      assert ts[i] in ts;
      HardErrorCame(ts[i], ts[i].was);
    }
  }

  lemma EndedLooks(c: Chip, h: Heard, len: nat)
    requires Ended(c, h, len)
    ensures LookedOnce(Since(c, h.chip), c.looks)
  {
    hide LookedOnce, Conserved, Delivered, Overruns, Soft, Bit;
  }

  /**
    Only two things leave a character looked at for the next call: a buffer that was
    filled while another character stood behind, and a call that took nothing and
    found it so.
   */
  lemma LookedAtAfter(w: nat -> World, c: Chip, k: nat, len: nat, budget: nat)
    requires InSession(c) && len > 0
    ensures var h := Hear(w, c, k, len, budget);
            h.chip.looks == if h.r == Data(len) && Bit(h.chip.status, LSR_DR) then 1
                            else if |h.chip.taken| == |c.taken| then c.looks else 0
    ensures var h := Hear(w, c, k, len, budget); h.r != Data(len) && c.looks == 0 ==> h.chip.looks == 0
  {
    HearEnds(w, c, k, len, budget);
    hide LookedOnce, Conserved, Delivered, Overruns, Soft, Bit, Hear;
    var h := Hear(w, c, k, len, budget);
    if |h.bytes| > 0 && |Since(c, h.chip)| == 0 { NothingDelivered(); }
  }

  lemma NothingDelivered()
    ensures Delivered([]) == []
  {}

  /** A session of receives: how much each has room for, and its budget. */
  datatype Call = Call(len: nat, budget: nat)

  datatype Session = Session(bytes: seq<byte>, counted: nat, full: bool, chip: Chip, ops: nat)

  /** Receives one after another; `full` says that some buffer was filled. */
  function Receives(w: nat -> World, c: Chip, k: nat, calls: seq<Call>): Session
    decreases |calls|
  {
    if |calls| == 0 then Session([], 0, false, c, k)
    else
      var h := Hear(w, c, k, calls[0].len, calls[0].budget);
      var rest := Receives(w, h.chip, h.ops, calls[1..]);
      Session(h.bytes + rest.bytes, h.counted + rest.counted, h.r == Data(calls[0].len) || rest.full, rest.chip, rest.ops)
  }

  /**
    A caller who never fills its buffer and lets nothing else poll the port in
    between gets exactly what was sent: every break that came in is dropped, and
    nothing else.
   */
  lemma {:induction false} ShortReceivesDropAllBreaks(w: nat -> World, c: Chip, k: nat, calls: seq<Call>)
    requires InSession(c) && c.looks == 0 && forall i :: 0 <= i < |calls| ==> calls[i].len > 0
    requires !Receives(w, c, k, calls).full
    ensures var s := Receives(w, c, k, calls);
            && InSession(s.chip) && s.chip.looks == 0
            && |c.taken| <= |s.chip.taken| <= |s.chip.came| && c.came <= s.chip.came
            && s.bytes == Unbroken(s.chip.came[|c.taken|..|s.chip.taken|])
    decreases |calls|
  {
    hide *;
    if |calls| == 0 {
      NoReceives(w, c, k, calls);
      SessionEnds(c);
    } else {
      var len, budget := calls[0].len, calls[0].budget;
      var h := Hear(w, c, k, len, budget);
      OneReceive(w, c, k, calls);
      HearEnds(w, c, k, len, budget);
      BreaksDropped(w, c, k, len, budget);
      LookedAtAfter(w, c, k, len, budget);
      HearKeepsCame(w, c, k, len, budget);
      ShortReceivesDropAllBreaks(w, h.chip, h.ops, calls[1..]);
      var s := Receives(w, c, k, calls);
      var xs, ys := h.chip.came[|c.taken|..|h.chip.taken|], s.chip.came[|h.chip.taken|..|s.chip.taken|];
      assert s.chip.came[|c.taken|..|s.chip.taken|] == xs + ys;
      UnbrokenJoins(xs, ys);
    }
  }

  lemma NoReceives(w: nat -> World, c: Chip, k: nat, calls: seq<Call>)
    requires |calls| == 0
    ensures Receives(w, c, k, calls) == Session([], 0, false, c, k) && forall x: seq<Rx> :: Unbroken(x[..0]) == []
  {}

  lemma SessionEnds(c: Chip)
    requires InSession(c)
    ensures |c.taken| <= |c.came|
    ensures c.came[|c.taken|..|c.taken|] == c.came[..0]
  {
    hide Bit, Tells, Recorded, Holds;
  }

  lemma OneReceive(w: nat -> World, c: Chip, k: nat, calls: seq<Call>)
    requires |calls| > 0
    ensures var h := Hear(w, c, k, calls[0].len, calls[0].budget);
            var rest := Receives(w, h.chip, h.ops, calls[1..]);
            Receives(w, c, k, calls)
            == Session(h.bytes + rest.bytes, h.counted + rest.counted, h.r == Data(calls[0].len) || rest.full, rest.chip, rest.ops)
  {
    hide Hear;
  }

  lemma HearKeepsCame(w: nat -> World, c: Chip, k: nat, len: nat, budget: nat)
    requires InSession(c) && len > 0
    ensures c.came <= Hear(w, c, k, len, budget).chip.came
  {
    HearEnds(w, c, k, len, budget);
    hide LookedOnce, Conserved, Delivered, Overruns, Soft, Bit, Hear;
  }

  lemma {:induction false} UnbrokenJoins(xs: seq<Rx>, ys: seq<Rx>)
    ensures Unbroken(xs + ys) == Unbroken(xs) + Unbroken(ys)
    decreases |ys|
  {
    if |ys| == 0 {
      assert xs + ys == xs;
    } else {
      var k := |ys| - 1;
      UnbrokenJoins(xs, ys[..k]);
      UnbrokenOne(ys[..k], ys[k]);
      UnbrokenOne(xs + ys[..k], ys[k]);
      hide Unbroken;
      assert ys[..k] + [ys[k]] == ys && xs + ys[..k] + [ys[k]] == xs + ys;
    }
  }

  lemma UnbrokenOne(xs: seq<Rx>, x: Rx)
    ensures Unbroken(xs + [x]) == Unbroken(xs) + if x.brk then [] else [x.b]
  {
    assert (xs + [x])[..|xs|] == xs;
  }

  // ------------------------------------------------------------------
  // Overruns
  // ------------------------------------------------------------------

  /**
    Which overruns are counted, in every receive: each line status read that reports
    one, except a read that finds no character there, and the look that comes after
    the buffer was filled.
   */
  lemma OverrunsCounted(w: nat -> World, c: Chip, k: nat, len: nat, budget: nat)
    requires InSession(c) && len > 0
    ensures var h := Hear(w, c, k, len, budget);
            var unread := One(h.r == Data(len) && Bit(h.chip.status, LSR_DR) && Bit(h.chip.status, LSR_OE));
            h.chip.reports - c.reports == h.counted + (h.chip.blind - c.blind) + unread
  {
    HearEnds(w, c, k, len, budget);
    hide LookedOnce, Conserved, Delivered, Overruns, Soft, Bit, Hear;
  }

  /** With the FIFO on, an overrun waits for its report only while characters are there. */
  predicate Heedful(c: Chip) { Depth(c) == 16 && (c.oe ==> |c.rx| > 0) }

  lemma {:induction false} ReceiveHeeds(c: Chip, xs: seq<Rx>)
    requires Depth(c) == 16
    ensures var d := Receive(c, xs); Depth(d) == 16 && (d.oe ==> c.oe || |d.rx| >= 16) && |c.rx| <= |d.rx|
    decreases |xs|
  {
    if |xs| > 0 {
      ReceiveHeeds(
        if |c.rx| < Depth(c) then c.(rx := c.rx + [xs[0]], came := c.came + [xs[0]])
        else c.(oe := true, overran := c.overran + 1), xs[1..]);
    }
  }

  lemma TurnHeeds(c: Chip, w: World)
    requires Depth(c) == 16
    ensures var d := Turn(c, w);
            Depth(d) == 16 && (d.oe ==> c.oe || |d.rx| >= 16) && |c.rx| <= |d.rx| && d.blind == c.blind
  {
    var k := if w.shift < |c.tx| then w.shift else |c.tx|;
    var d := c.(tx := c.tx[k..]);
    ReceiveHeeds(d, if ChipLoop(c) then Clean(c.tx[..k]) else w.arrive);
    TurnTurned(c, w);
    hide Receive, Conserved;
  }

  lemma LookHeeds(c: Chip, w: World)
    requires Heedful(c)
    ensures var d := Looked(Turn(c, w)); Heedful(d) && !d.oe && d.blind == c.blind
  {
    TurnHeeds(c, w);
    hide Turn, LineStatus;
  }

  lemma TakeHeeds(c: Chip, w: World)
    requires Heedful(c) && !c.oe
    ensures var e := AfterRead(Turn(c, w), RBR); Heedful(e) && e.blind == c.blind
  {
    TurnHeeds(c, w);
    hide Turn, Bit;
  }

  lemma YieldHeeds(c: Chip, w: World)
    requires Heedful(c)
    ensures Heedful(Turn(c, w)) && Turn(c, w).blind == c.blind
  {
    TurnHeeds(c, w);
    hide Turn;
  }

  lemma {:induction false} AwaitHeeds(w: nat -> World, c: Chip, k: nat, len: nat, left: nat, n: nat)
    requires Heedful(c)
    ensures var h := Await(w, c, k, len, left, n); Heedful(h.chip) && h.chip.blind == c.blind
    decreases left, len, 0
  {
    hide Heedful, Looked, Turn, Onward, Bit;
    if left > 0 {
      LookHeeds(c, w(k));
      var d := Looked(Turn(c, w(k)));
      if Bit(d.status, LSR_DR) {
        OnwardHeeds(w, d, k + 1, len, left - 1, [], n);
      } else {
        YieldHeeds(d, w(k + 1));
        AwaitHeeds(w, Turn(d, w(k + 1)), k + 2, len, left - 1, n);
      }
    }
  }

  lemma {:induction false} OnwardHeeds(w: nat -> World, c: Chip, k: nat, len: nat, left: nat, bytes: seq<byte>, n: nat)
    requires |bytes| <= len && Heedful(c) && !c.oe
    ensures var h := Onward(w, c, k, len, left, bytes, n); Heedful(h.chip) && h.chip.blind == c.blind
    decreases left, len - |bytes|, 2
  {
    hide Heedful, Looked, Turn, Take, Await, Bit, AfterRead, Answer;
    if |bytes| < len && Bit(c.status, LSR_DR) {
      TakeHeeds(c, w(k));
      var now, n' := Turn(c, w(k)), n + One(Bit(c.status, LSR_OE));
      var b, e := Answer(now, RBR), AfterRead(now, RBR);
      var d := Looked(Turn(e, w(k + 1)));
      LookHeeds(e, w(k + 1));
      TakeIs(w, c, k, len, left, bytes, n);
      if !Bit(c.status, LSR_BI) {
        OnwardHeeds(w, d, k + 2, len, left, bytes + [b], n');
      } else if !Bit(c.status, LSR_FE) && left > 0 {
        OnwardHeeds(w, d, k + 2, len, left - 1, bytes, n');
      }
    } else if |bytes| == 0 {
      AwaitHeeds(w, c, k, len, left, n);
    }
  }

  lemma TakeIs(w: nat -> World, c: Chip, k: nat, len: nat, left: nat, bytes: seq<byte>, n: nat)
    requires |bytes| < len
    ensures var (now, n') := (Turn(c, w(k)), n + One(Bit(c.status, LSR_OE)));
            var (b, e) := (Answer(now, RBR), AfterRead(now, RBR));
            var d := Looked(Turn(e, w(k + 1)));
            Take(w, c, k, len, left, bytes, n)
            == if !Bit(c.status, LSR_BI) then Onward(w, d, k + 2, len, left, bytes + [b], n')
               else if Bit(c.status, LSR_FE) then Heard(CommsError, bytes, n', e, k + 1)
               else if left == 0 then Heard(Waiting, bytes, n', e, k + 1)
               else Onward(w, d, k + 2, len, left - 1, bytes, n')
  {
    hide Turn, Looked, Onward, Bit, AfterRead, Answer;
  }

  /**
    With the FIFO on, no report is ever met without a character: every overrun that is
    reported during a call is counted by it, but one reported by the look after the
    buffer was filled.
   */
  lemma FifoOverrunsCounted(w: nat -> World, c: Chip, k: nat, len: nat, budget: nat)
    requires InSession(c) && len > 0 && Heedful(c)
    ensures var h := Hear(w, c, k, len, budget);
            && Heedful(h.chip)
            && (h.chip.reports - c.reports == h.counted <==>
                  !(h.r == Data(len) && Bit(h.chip.status, LSR_DR) && Bit(h.chip.status, LSR_OE)))
  {
    OverrunsCounted(w, c, k, len, budget);
    AwaitHeeds(w, c, k, len, budget, 0);
    hide Await, Bit, Heedful, InSession;
  }

  /** A caller who never fills its buffer has every overrun counted that is reported with the FIFO on. */
  lemma {:induction false} ShortReceivesCountAllOverruns(w: nat -> World, c: Chip, k: nat, calls: seq<Call>)
    requires InSession(c) && Heedful(c) && forall i :: 0 <= i < |calls| ==> calls[i].len > 0
    requires !Receives(w, c, k, calls).full
    ensures var s := Receives(w, c, k, calls);
            InSession(s.chip) && Heedful(s.chip) && s.chip.reports == c.reports + s.counted
    decreases |calls|
  {
    hide *;
    if |calls| == 0 {
      NoReceives(w, c, k, calls);
    } else {
      var len, budget := calls[0].len, calls[0].budget;
      var h := Hear(w, c, k, len, budget);
      OneReceive(w, c, k, calls);
      HearEnds(w, c, k, len, budget);
      FifoOverrunsCounted(w, c, k, len, budget);
      ShortReceivesCountAllOverruns(w, h.chip, h.ops, calls[1..]);
    }
  }

  // ------------------------------------------------------------------
  // Transmitting in between
  // ------------------------------------------------------------------

  /** Nothing was taken, and a character in front stays there, looked at at least as often as before. */
  predicate Untaken(a: Chip, b: Chip) {
    && b.taken == a.taken && a.came <= b.came && b.lcr == a.lcr && (Conserved(a) ==> Conserved(b))
    && |a.rx| <= |b.rx| && (|a.rx| > 0 ==> b.looks >= a.looks)
  }

  lemma UntakenTwice(a: Chip, b: Chip, c: Chip)
    requires Untaken(a, b) && Untaken(b, c)
    ensures Untaken(a, c)
  {
    hide Conserved;
  }

  lemma TurnUntaken(c: Chip, w: World)
    ensures Untaken(c, Turn(c, w)) && Turn(c, w).looks == c.looks
  {
    TurnTurned(c, w);
    hide Conserved, Turn;
  }

  lemma LookUntaken(c: Chip)
    ensures Untaken(c, Looked(c)) && (|c.rx| > 0 ==> Looked(c).looks == c.looks + 1)
  {
    if Conserved(c) { LookConserves(c); }
    hide Conserved, LineStatus;
  }

  lemma WriteUntaken(c: Chip, v: byte)
    ensures Untaken(c, AfterWrite(c, THR, v))
  {
    if Conserved(c) { WriteConserves(c, THR, v); }
    hide Conserved, Bit;
  }

  lemma {:induction false} PollUntaken(w: nat -> World, c: Chip, k: nat, mask: nat, bound: nat)
    ensures var p := PollRun(w, c, k, mask, bound);
            Untaken(c, p.chip) && (bound > 0 && |c.rx| > 0 ==> p.chip.looks > c.looks)
    decreases bound
  {
    hide Untaken, Turn, Looked, Bit;
    if bound == 0 {
      UntakenItself(c);
    } else {
      var now := Turn(c, w(k));
      var d := Looked(now);
      TurnUntaken(c, w(k));
      LookUntaken(now);
      UntakenTwice(c, now, d);
      UntakenParts(c, now);
      UntakenParts(c, d);
      if !Bit(d.status, mask) {
        var e := Turn(d, w(k + 1));
        TurnUntaken(d, w(k + 1));
        UntakenTwice(c, d, e);
        PollUntaken(w, e, k + 2, mask, bound - 1);
        var p := PollRun(w, e, k + 2, mask, bound - 1).chip;
        UntakenTwice(c, e, p);
        UntakenParts(c, e);
        UntakenParts(e, p);
      }
    }
  }

  lemma UntakenItself(c: Chip)
    ensures Untaken(c, c)
  {
    hide Conserved;
  }

  lemma UntakenParts(a: Chip, b: Chip)
    requires Untaken(a, b)
    ensures |a.rx| <= |b.rx| && b.taken == a.taken && a.came <= b.came && (|a.rx| > 0 ==> b.looks >= a.looks)
    ensures InSession(a) ==> InSession(b)
    ensures InSession(a) && |a.rx| > 0 ==> First(b) == First(a)
  {
    hide Tells, Recorded, Holds, Bit;
  }

  lemma {:induction false} BurstUntaken(w: nat -> World, c: Chip, k: nat, bytes: seq<byte>)
    ensures Untaken(c, BurstRun(w, c, k, bytes))
    decreases |bytes|
  {
    hide Untaken, Turn, AfterWrite;
    if |bytes| == 0 {
      UntakenItself(c);
    } else {
      var now := Turn(c, w(k));
      var d := AfterWrite(now, THR, bytes[0]);
      TurnUntaken(c, w(k));
      WriteUntaken(now, bytes[0]);
      UntakenTwice(c, now, d);
      BurstUntaken(w, d, k + 1, bytes[1..]);
      UntakenTwice(c, d, BurstRun(w, d, k + 1, bytes[1..]));
    }
  }

  lemma {:induction false} SendUntaken(w: nat -> World, c: Chip, k: nat, chunk: nat, buf: seq<byte>, sent: nat)
    requires chunk > 0
    ensures var s := SendRun(w, c, k, chunk, buf, sent);
            Untaken(c, s.chip) && (|buf| > 0 && |c.rx| > 0 ==> s.chip.looks > c.looks)
    decreases |buf|
  {
    hide Untaken, PollRun, BurstRun;
    if |buf| == 0 {
      UntakenItself(c);
    } else {
      assert POLL_BOUND > 0;
      var p := PollRun(w, c, k, LSR_THRE, POLL_BOUND);
      PollUntaken(w, c, k, LSR_THRE, POLL_BOUND);
      UntakenParts(c, p.chip);
      if p.ready {
        var burst := if |buf| > chunk then chunk else |buf|;
        var d := BurstRun(w, p.chip, p.ops, buf[..burst]);
        BurstUntaken(w, p.chip, p.ops, buf[..burst]);
        UntakenTwice(c, p.chip, d);
        UntakenParts(p.chip, d);
        SendUntaken(w, d, p.ops + burst, chunk, buf[burst..], sent + burst);
        var e := SendRun(w, d, p.ops + burst, chunk, buf[burst..], sent + burst).chip;
        UntakenTwice(c, d, e);
        UntakenParts(d, e);
      }
    }
  }

  /** The first character of a receive that finds one waiting. */
  lemma FirstTaken(w: nat -> World, c: Chip, k: nat, len: nat, budget: nat)
    requires InSession(c) && len > 0 && budget > 0 && |c.rx| > 0
    ensures var ts := Since(c, Hear(w, c, k, len, budget).chip);
            |ts| > 0 && ts[0].was == First(c) && ts[0].looks == c.looks + 1
  {
    hide *;
    var d := Looked(Turn(c, w(k)));
    FirstLook(w, c, k);
    AwaitTakes(w, c, k, len, budget);
    TakeEnds(w, c, d, k + 1, len, budget - 1, [], 0);
    SinceFirst(c, Hear(w, c, k, len, budget).chip);
  }

  lemma FirstLook(w: nat -> World, c: Chip, k: nat)
    requires InSession(c) && |c.rx| > 0
    ensures var d := Looked(Turn(c, w(k)));
            && Bit(d.status, LSR_DR) && Ready(c, d, [], 0)
            && |d.rx| > 0 && First(d) == First(c) && d.looks == c.looks + 1 && d.taken == c.taken
  {
    StartSofar(c);
    WaitLonger(w, c, c, k, 0);
    var now := Turn(c, w(k));
    StatusBits(now);
    TurnTurned(c, w(k));
    SameFirst(c, now);
    CameEnough(now);
    LookKeeps(now);
    hide Turn, Bit, LineStatus, Sofar, Ready, First, Conserved;
  }

  lemma CameEnough(c: Chip)
    requires Conserved(c) && |c.rx| > 0
    ensures |c.taken| < |c.came|
  {
    hide Tells, Recorded, Holds;
  }

  lemma AwaitTakes(w: nat -> World, c: Chip, k: nat, len: nat, budget: nat)
    requires len > 0 && budget > 0
    ensures var d := Looked(Turn(c, w(k)));
            Bit(d.status, LSR_DR) ==> Hear(w, c, k, len, budget) == Take(w, d, k + 1, len, budget - 1, [], 0)
  {
    hide Looked, Turn, Bit, Take;
    var d := Looked(Turn(c, w(k)));
    var none: seq<byte> := [];
    if Bit(d.status, LSR_DR) {
      assert Await(w, c, k, len, budget, 0) == Onward(w, d, k + 1, len, budget - 1, none, 0);
      assert Onward(w, d, k + 1, len, budget - 1, none, 0) == Take(w, d, k + 1, len, budget - 1, none, 0);
    }
  }

  lemma SinceFirst(c: Chip, d: Chip)
    requires |c.taken| < |d.taken|
    ensures |Since(c, d)| > 0 && Since(c, d)[0] == d.taken[|c.taken|]
  {}

  lemma LookKeeps(c: Chip)
    requires |c.rx| > 0
    ensures var d := Looked(c); |d.rx| > 0 && d.looks == c.looks + 1 && d.taken == c.taken
    ensures First(Looked(c)).b == First(c).b && (|c.taken| < |c.came| ==> First(Looked(c)) == First(c))
  {
    hide LineStatus;
  }

  /**
    A transmit between two receives: its polls read the line status too, so a break
    that is already waiting is taken for data by the next receive, which delivers it
    as its first byte.
   */
  lemma BreakAfterSend(w: nat -> World, c: Chip, k: nat, chunk: nat, buf: seq<byte>, len: nat, budget: nat)
    requires InSession(c) && |c.rx| > 0 && First(c).brk && chunk > 0 && |buf| > 0 && len > 0 && budget > 0
    ensures var s := SendRun(w, c, k, chunk, buf, 0);
            var h := Hear(w, s.chip, s.ops, len, budget);
            |h.bytes| > 0 && h.bytes[0] == First(c).b
  {
    var s := SendRun(w, c, k, chunk, buf, 0);
    SendUntaken(w, c, k, chunk, buf, 0);
    UntakenParts(c, s.chip);
    hide *;
    KnownBreak(w, s.chip, s.ops, len, budget);
  }

  /** A break that has been looked at and is still waiting is delivered. */
  lemma KnownBreak(w: nat -> World, c: Chip, k: nat, len: nat, budget: nat)
    requires InSession(c) && |c.rx| > 0 && First(c).brk && c.looks > 0 && len > 0 && budget > 0
    ensures var h := Hear(w, c, k, len, budget); |h.bytes| > 0 && h.bytes[0] == First(c).b
  {
    FirstTaken(w, c, k, len, budget);
    BreaksDropped(w, c, k, len, budget);
    hide Hear, InSession, First, Unbroken;
  }

  // ------------------------------------------------------------------
  // Sessions of both
  // ------------------------------------------------------------------

  datatype Act = Listen(len: nat, budget: nat) | Speak(chunk: nat, bytes: seq<byte>)

  predicate Sensible(acts: seq<Act>) {
    forall i :: 0 <= i < |acts| ==> if acts[i].Listen? then acts[i].len > 0 else acts[i].chunk > 0
  }

  /**
    What one receive delivered, the characters it took as they came in, and whether
    the first had been looked at; `risky` is what the caller could know of that.
   */
  datatype Receipt = Receipt(bytes: seq<byte>, xs: seq<Rx>, known: bool, risky: bool)

  datatype Talk = Talk(receipts: seq<Receipt>, chip: Chip, ops: nat)

  /** A full buffer is a risk for the next receive, and any other result is none. */
  function RiskAfter(risky: bool, r: Received, len: nat): bool {
    match r
    case Waiting => risky
    case CommsError => false
    case Data(n) => n == len
  }

  /** Receives and transmits one after another. */
  function Converse(w: nat -> World, c: Chip, k: nat, risky: bool, acts: seq<Act>): Talk
    requires Sensible(acts)
    decreases |acts|
  {
    if |acts| == 0 then Talk([], c, k)
    else
      match acts[0]
      case Listen(len, budget) =>
        var h := Hear(w, c, k, len, budget);
        var rest := Converse(w, h.chip, h.ops, RiskAfter(risky, h.r, len), acts[1..]);
        Talk([Receipt(h.bytes, Came(Since(c, h.chip)), c.looks > 0, risky)] + rest.receipts, rest.chip, rest.ops)
      case Speak(chunk, bytes) =>
        var s := SendRun(w, c, k, chunk, bytes, 0);
        Converse(w, s.chip, s.ops, risky || |bytes| > 0, acts[1..])
  }

  /** All the characters that were taken. */
  function TakenIn(rs: seq<Receipt>): seq<Rx> { if |rs| == 0 then [] else rs[0].xs + TakenIn(rs[1..]) }

  function BytesOf(rs: seq<Receipt>): seq<byte> { if |rs| == 0 then [] else rs[0].bytes + BytesOf(rs[1..]) }

  /** The receive delivered what its characters are worth, and what was sent unless a known break was first. */
  predicate Honoured(r: Receipt) {
    && r.bytes == Worth(r.xs, r.known)
    && (r.bytes == Unbroken(r.xs) <==> !(r.known && |r.xs| > 0 && r.xs[0].brk))
    && (r.known ==> r.risky)
  }

  lemma OneListen(w: nat -> World, c: Chip, k: nat, risky: bool, acts: seq<Act>)
    requires Sensible(acts) && |acts| > 0 && acts[0].Listen?
    ensures Sensible(acts[1..])
    ensures var h := Hear(w, c, k, acts[0].len, acts[0].budget);
            var rest := Converse(w, h.chip, h.ops, RiskAfter(risky, h.r, acts[0].len), acts[1..]);
            Converse(w, c, k, risky, acts)
            == Talk([Receipt(h.bytes, Came(Since(c, h.chip)), c.looks > 0, risky)] + rest.receipts, rest.chip, rest.ops)
  {
    hide Hear, Came, Since, RiskAfter;
  }

  lemma OneSpeak(w: nat -> World, c: Chip, k: nat, risky: bool, acts: seq<Act>)
    requires Sensible(acts) && |acts| > 0 && acts[0].Speak?
    ensures Sensible(acts[1..])
    ensures var s := SendRun(w, c, k, acts[0].chunk, acts[0].bytes, 0);
            Converse(w, c, k, risky, acts) == Converse(w, s.chip, s.ops, risky || |acts[0].bytes| > 0, acts[1..])
  {
    hide SendRun;
  }

  lemma NoActs(w: nat -> World, c: Chip, k: nat, risky: bool, acts: seq<Act>)
    requires Sensible(acts) && |acts| == 0
    ensures Converse(w, c, k, risky, acts) == Talk([], c, k) && TakenIn([]) == []
  {}

  lemma ReceiptFirst(r: Receipt, rs: seq<Receipt>)
    ensures TakenIn([r] + rs) == r.xs + TakenIn(rs) && BytesOf([r] + rs) == r.bytes + BytesOf(rs)
    ensures Honoured(r) && (forall x <- rs :: Honoured(x)) ==> forall x <- [r] + rs :: Honoured(x)
  {
    hide Honoured;
    assert ([r] + rs)[1..] == rs;
  }

  lemma ListenIsHonoured(w: nat -> World, c: Chip, k: nat, len: nat, budget: nat, risky: bool)
    requires InSession(c) && len > 0 && (c.looks > 0 ==> risky)
    ensures var h := Hear(w, c, k, len, budget);
            && Honoured(Receipt(h.bytes, Came(Since(c, h.chip)), c.looks > 0, risky))
            && (h.chip.looks > 0 ==> RiskAfter(risky, h.r, len))
  {
    BreaksDropped(w, c, k, len, budget);
    LookedAtAfter(w, c, k, len, budget);
    HearEnds(w, c, k, len, budget);
    EndTakes(c, Hear(w, c, k, len, budget), len);
    hide Hear, InSession, Worth, Unbroken, Came, Since, Bit, Ended;
  }

  lemma EndTakes(c: Chip, h: Heard, len: nat)
    requires Ended(c, h, len)
    ensures h.r.CommsError? || h.r.Data? ==> |h.chip.taken| > |c.taken|
  {
    NothingDelivered();
    hide LookedOnce, Conserved, Overruns, Soft, Bit, Delivered;
  }

  /**
    Every session of receives and transmits: the characters taken are those that came
    in, in order, none twice and none left out; each receive delivers what its own are
    worth, given whether the first had been looked at; and that can only be so behind
    a full buffer or a transmit, with no shorter receive in between.
   */
  lemma {:induction false} ConversationIsHonoured(w: nat -> World, c: Chip, k: nat, risky: bool, acts: seq<Act>)
    requires InSession(c) && Sensible(acts) && (c.looks > 0 ==> risky)
    ensures var s := Converse(w, c, k, risky, acts);
            && InSession(s.chip) && |c.taken| <= |s.chip.taken| <= |s.chip.came| && c.came <= s.chip.came
            && TakenIn(s.receipts) == s.chip.came[|c.taken|..|s.chip.taken|]
            && (forall r <- s.receipts :: Honoured(r))
    decreases |acts|
  {
    hide *;
    if |acts| == 0 {
      NoActs(w, c, k, risky, acts);
      SessionEnds(c);
      assert c.came[..0] == [];
    } else if acts[0].Speak? {
      FirstIsSensible(acts);
      var s := SendRun(w, c, k, acts[0].chunk, acts[0].bytes, 0);
      OneSpeak(w, c, k, risky, acts);
      SendUntaken(w, c, k, acts[0].chunk, acts[0].bytes, 0);
      UntakenParts(c, s.chip);
      if |acts[0].bytes| == 0 { SaysNothing(w, c, k, acts[0].chunk, acts[0].bytes); }
      ConversationIsHonoured(w, s.chip, s.ops, risky || |acts[0].bytes| > 0, acts[1..]);
    } else {
      var len, budget := acts[0].len, acts[0].budget;
      var h := Hear(w, c, k, len, budget);
      var r := Receipt(h.bytes, Came(Since(c, h.chip)), c.looks > 0, risky);
      OneListen(w, c, k, risky, acts);
      FirstIsSensible(acts);
      HearEnds(w, c, k, len, budget);
      HearKeepsCame(w, c, k, len, budget);
      ListenIsHonoured(w, c, k, len, budget, risky);
      BreaksDropped(w, c, k, len, budget);
      ConversationIsHonoured(w, h.chip, h.ops, RiskAfter(risky, h.r, len), acts[1..]);
      var rest := Converse(w, h.chip, h.ops, RiskAfter(risky, h.r, len), acts[1..]);
      ReceiptFirst(r, rest.receipts);
      SlicesJoin(h.chip.came, rest.chip.came, |c.taken|, |h.chip.taken|, |rest.chip.taken|);
    }
  }

  lemma SlicesJoin<T>(a: seq<T>, b: seq<T>, i: nat, j: nat, m: nat)
    requires a <= b && i <= j <= |a| && j <= m <= |b|
    ensures a[i..j] + b[j..m] == b[i..m]
  {}

  lemma FirstIsSensible(acts: seq<Act>)
    requires Sensible(acts) && |acts| > 0
    ensures Sensible(acts[1..]) && if acts[0].Listen? then acts[0].len > 0 else acts[0].chunk > 0
  {}

  lemma SaysNothing(w: nat -> World, c: Chip, k: nat, chunk: nat, bytes: seq<byte>)
    requires chunk > 0 && |bytes| == 0
    ensures SendRun(w, c, k, chunk, bytes, 0).chip == c
  {}

  lemma {:induction false} SafeReceipts(rs: seq<Receipt>)
    requires forall r <- rs :: Honoured(r) && !r.risky
    ensures BytesOf(rs) == Unbroken(TakenIn(rs))
  {
    if |rs| > 0 {
      assert Honoured(rs[0]) && rs == [rs[0]] + rs[1..];
      SafeReceipts(rs[1..]);
      UnbrokenJoins(rs[0].xs, TakenIn(rs[1..]));
      hide Unbroken;
    }
  }

  /**
    So a session in which no receive comes behind a full buffer or a transmit delivers
    exactly what was sent, every break dropped.
   */
  lemma SafeConversationDropsAllBreaks(w: nat -> World, c: Chip, k: nat, acts: seq<Act>)
    requires InSession(c) && c.looks == 0 && Sensible(acts)
    requires forall r <- Converse(w, c, k, false, acts).receipts :: !r.risky
    ensures var s := Converse(w, c, k, false, acts);
            && |c.taken| <= |s.chip.taken| <= |s.chip.came|
            && BytesOf(s.receipts) == Unbroken(s.chip.came[|c.taken|..|s.chip.taken|])
  {
    hide *;
    ConversationIsHonoured(w, c, k, false, acts);
    SafeReceipts(Converse(w, c, k, false, acts).receipts);
  }

  /** A receive with room for one byte that finds a character which is no break, and is no break it knows. */
  lemma OneByteReceive(w: nat -> World, c: Chip, k: nat, budget: nat)
    requires InSession(c) && |c.rx| > 0 && !First(c).brk && budget > 0
    ensures var e := AfterRead(Turn(Looked(Turn(c, w(k))), w(k + 1)), RBR);
            var h := Hear(w, c, k, 1, budget);
            h.r == Data(1) && h.bytes == [First(c).b] && h.chip == Looked(Turn(e, w(k + 2))) && h.ops == k + 3
  {
    hide *;
    var d := Looked(Turn(c, w(k)));
    FirstLook(w, c, k);
    AwaitTakes(w, c, k, 1, budget);
    ReadyFlag(c, d);
    TakeIs(w, d, k + 1, 1, budget - 1, [], 0);
    TakenByte(d, w(k + 1), c);
    var b := Answer(Turn(d, w(k + 1)), RBR);
    var e := AfterRead(Turn(d, w(k + 1)), RBR);
    var n := 0 + One(Bit(d.status, LSR_OE));
    assert [] + [b] == [b];
    OnwardFull(w, Looked(Turn(e, w(k + 2))), k + 3, budget - 1, [b], n);
  }

  lemma ReadyFlag(c: Chip, d: Chip)
    requires Ready(c, d, [], 0) && |d.rx| > 0 && !First(d).brk
    ensures !Bit(d.status, LSR_BI)
  {
    hide Delivered, Overruns, LookedOnce, Soft;
    assert Conserved(d) && d.looks > 0;
    assert Tells(d.status, First(d), d.looks);
    hide Bit, Recorded, Holds;
  }

  lemma TakenByte(d: Chip, x: World, c: Chip)
    requires Ready(c, d, [], 0) && |d.rx| > 0
    ensures Answer(Turn(d, x), RBR) == First(d).b
  {
    TurnTurned(d, x);
    assert Holds(d.rx[0], d.came[|d.taken|], d.looks > 0);
    hide Bit, Delivered, Overruns, LookedOnce, Soft, Turn;
    assert Turn(d, x).rx[0] == d.rx[0];
  }

  lemma OnwardFull(w: nat -> World, c: Chip, k: nat, left: nat, bytes: seq<byte>, n: nat)
    requires |bytes| == 1
    ensures Onward(w, c, k, 1, left, bytes, n) == Heard(Data(1), bytes, n, c, k)
  {
    hide Take, Await, Bit;
  }

  /**
    A buffer that fills in front of a break: the look after the last byte clears the
    break's flag, and the next receive delivers it as its first byte.
   */
  lemma BreakAfterFullBuffer(w: nat -> World, c: Chip, k: nat, budget: nat, len: nat, later: nat)
    requires InSession(c) && |c.rx| > 1 && !First(c).brk && c.rx[1].brk && budget > 0 && len > 0 && later > 0
    ensures var h := Hear(w, c, k, 1, budget);
            var next := Hear(w, h.chip, h.ops, len, later);
            h.r == Data(1) && h.bytes == [First(c).b] && |next.bytes| > 0 && next.bytes[0] == c.rx[1].b
  {
    var d := Looked(Turn(c, w(k)));
    var now := Turn(d, w(k + 1));
    var e := AfterRead(now, RBR);
    OneByteReceive(w, c, k, budget);
    HearEnds(w, c, k, 1, budget);
    TurnTurned(c, w(k));
    TurnTurned(d, w(k + 1));
    TurnTurned(e, w(k + 2));
    SecondNext(c, Turn(c, w(k)), d, now, e, Turn(e, w(k + 2)));
    hide *;
    KnownBreak(w, Looked(Turn(e, w(k + 2))), k + 3, len, later);
  }

  lemma SecondNext(c: Chip, c1: Chip, d: Chip, now: Chip, e: Chip, f: Chip)
    requires InSession(c) && |c.rx| > 1 && c.rx[1].brk
    requires Turned(c, c1) && d == Looked(c1) && Turned(d, now) && e == AfterRead(now, RBR) && Turned(e, f)
    ensures var g := Looked(f); |g.rx| > 0 && g.looks > 0 && First(g) == c.rx[1]
  {
    SecondCame(c);
    SecondIsFirst(c, c1, d, now, e, f);
    hide *;
    LookKeeps(f);
  }

  lemma SecondCame(c: Chip)
    requires InSession(c) && |c.rx| > 1
    ensures |c.came| > |c.taken| + 1 && c.came[|c.taken| + 1] == c.rx[1]
  {
    hide Bit, Tells, Recorded;
    assert Holds(c.rx[1], c.came[|c.taken| + 1], false);
  }

  lemma SecondIsFirst(c: Chip, c1: Chip, d: Chip, now: Chip, e: Chip, f: Chip)
    requires |c.rx| > 1 && |c.came| > |c.taken| + 1 && c.came[|c.taken| + 1] == c.rx[1] && !ChipLatch(c)
    requires Turned(c, c1) && d == Looked(c1) && Turned(d, now) && e == AfterRead(now, RBR) && Turned(e, f)
    ensures |f.rx| > 0 && |f.taken| < |f.came| && First(f) == c.rx[1]
  {
    hide Bit, LineStatus, Conserved;
    assert c1.rx[1] == c.rx[1] && d.rx[1] == c.rx[1] && now.rx[1] == c.rx[1] && e.rx[0] == c.rx[1] && f.rx[0] == c.rx[1];
    assert now.came[|c.taken| + 1] == c.rx[1];
  }

  /**
    Without a FIFO: an overrun that falls between the look at a character and its
    taking is reported by the look after it, where no character is; it is never
    counted.
   */
  lemma OverrunUnseen(w: nat -> World, c: Chip, k: nat, x: Rx, budget: nat)
    requires InSession(c) && !ChipLoop(c) && Depth(c) == 1 && |c.rx| == 1 && !First(c).brk && !c.oe && budget > 0
    requires w(k).arrive == [] && w(k + 1).arrive == [x] && w(k + 2).arrive == []
    ensures var h := Hear(w, c, k, 1, budget);
            && h.r == Data(1) && h.bytes == [First(c).b] && h.counted == 0
            && h.chip.overran == c.overran + 1 && h.chip.reports == c.reports + 1 && h.chip.blind == c.blind + 1
  {
    var c1 := Turn(c, w(k));
    var d := Looked(c1);
    var now := Turn(d, w(k + 1));
    var e := AfterRead(now, RBR);
    var f := Turn(e, w(k + 2));
    OneByteReceive(w, c, k, budget);
    OverrunsCounted(w, c, k, 1, budget);
    QuietTurn(c, w(k));
    FullTurn(d, w(k + 1), x);
    QuietTurn(e, w(k + 2));
    StatusBits(f);
    hide Bit, LineStatus, Turn, Hear, InSession, Conserved;
  }

  lemma QuietTurn(c: Chip, w: World)
    requires !ChipLoop(c) && w.arrive == []
    ensures var d := Turn(c, w);
            && d.rx == c.rx && d.oe == c.oe && d.overran == c.overran && d.reports == c.reports && d.blind == c.blind
            && d.lcr == c.lcr && d.mcr == c.mcr && d.kind == c.kind && d.fifoOn == c.fifoOn
  {
    hide Bit;
  }

  lemma FullTurn(c: Chip, w: World, x: Rx)
    requires !ChipLoop(c) && w.arrive == [x] && |c.rx| >= Depth(c)
    ensures var d := Turn(c, w);
            && d.rx == c.rx && d.oe && d.overran == c.overran + 1 && d.reports == c.reports && d.blind == c.blind
            && d.lcr == c.lcr && d.mcr == c.mcr && d.kind == c.kind && d.fifoOn == c.fifoOn
  {
    hide Bit;
    var k := if w.shift < |c.tx| then w.shift else |c.tx|;
    var e := c.(tx := c.tx[k..]);
    assert Receive(e.(oe := true, overran := e.overran + 1), []) == e.(oe := true, overran := e.overran + 1);
    assert [x][1..] == [];
  }

  // ------------------------------------------------------------------
  // A transmitter that keeps shifting
  // ------------------------------------------------------------------

  ghost predicate Shifting(w: nat -> World) { forall n: nat :: w(n).shift > 0 }

  lemma ShiftOne(w: nat -> World, c: Chip, k: nat)
    requires Shifting(w)
    ensures |c.tx| > 0 ==> |Turn(c, w(k)).tx| < |c.tx|
    ensures |c.tx| == 0 ==> |Turn(c, w(k)).tx| == 0
  {
    var k' := if w(k).shift < |c.tx| then w(k).shift else |c.tx|;
    var d := c.(tx := c.tx[k'..]);
    ReceiveTurned(d, if ChipLoop(c) then Clean(c.tx[..k']) else w(k).arrive);
    hide Receive, Conserved;
  }

  /** What a poll does to the settings of the chip. */
  predicate SameLine(a: Chip, b: Chip) {
    b.kind == a.kind && b.lcr == a.lcr && b.mcr == a.mcr && b.fifoOn == a.fifoOn
  }

  lemma LookLine(w: nat -> World, c: Chip, k: nat)
    ensures SameLine(c, Turn(c, w(k))) && SameLine(c, Looked(Turn(c, w(k)))) && Looked(Turn(c, w(k))).tx == Turn(c, w(k)).tx
    ensures Bit(Looked(Turn(c, w(k))).status, LSR_THRE) <==> |Turn(c, w(k)).tx| == 0
  {
    TurnTurned(c, w(k));
    StatusBits(Turn(c, w(k)));
    hide Turn, Bit, LineStatus, Conserved;
  }

  /** A poll for room succeeds within as many looks as there are bytes to shift. */
  lemma {:induction false} PollSucceeds(w: nat -> World, c: Chip, k: nat, bound: nat)
    requires Shifting(w) && bound > |c.tx|
    ensures var p := PollRun(w, c, k, LSR_THRE, bound); p.ready && |p.chip.tx| == 0 && SameLine(c, p.chip)
    decreases bound
  {
    hide Shifting, Turn, Looked, Bit, SameLine;
    var d := Looked(Turn(c, w(k)));
    ShiftOne(w, c, k);
    LookLine(w, c, k);
    if !Bit(d.status, LSR_THRE) {
      var e := Turn(d, w(k + 1));
      ShiftOne(w, d, k + 1);
      LookLine(w, d, k + 1);
      PollSucceeds(w, e, k + 2, bound - 1);
      LineTwice(c, d, e, PollRun(w, e, k + 2, LSR_THRE, bound - 1).chip);
    }
  }

  lemma LineTwice(a: Chip, b: Chip, c: Chip, d: Chip)
    requires SameLine(a, b) && SameLine(b, c) && SameLine(c, d)
    ensures SameLine(a, d)
  {}

  lemma {:induction false} BurstLine(w: nat -> World, c: Chip, k: nat, bytes: seq<byte>)
    requires !ChipLatch(c)
    ensures var d := BurstRun(w, c, k, bytes); SameLine(c, d) && |d.tx| <= |c.tx| + |bytes|
    decreases |bytes|
  {
    if |bytes| > 0 {
      TurnTurned(c, w(k));
      hide Turn, Bit, Conserved;
      BurstLine(w, AfterWrite(Turn(c, w(k)), THR, bytes[0]), k + 1, bytes[1..]);
    }
  }

  /** A transmitter that keeps shifting takes the whole buffer: the wait for room never expires. */
  lemma {:induction false} SendsAll(w: nat -> World, c: Chip, k: nat, chunk: nat, buf: seq<byte>, sent: nat)
    requires Shifting(w) && 0 < chunk <= 16 && |c.tx| <= 16 && !ChipLatch(c)
    ensures var s := SendRun(w, c, k, chunk, buf, sent); s.all && s.sent == sent + |buf|
    decreases |buf|
  {
    hide *;
    if |buf| == 0 {
      SendEnd(w, c, k, chunk, sent);
      assert buf == [];
    } else {
      PollFits(|c.tx|);
      PollSucceeds(w, c, k, POLL_BOUND);
      var p := PollRun(w, c, k, LSR_THRE, POLL_BOUND);
      SendStep(w, c, k, chunk, buf, sent, p);
      var burst := if |buf| > chunk then chunk else |buf|;
      LineLatch(c, p.chip);
      BurstLine(w, p.chip, p.ops, buf[..burst]);
      LineLatch(p.chip, BurstRun(w, p.chip, p.ops, buf[..burst]));
      SendsAll(w, BurstRun(w, p.chip, p.ops, buf[..burst]), p.ops + burst, chunk, buf[burst..], sent + burst);
    }
  }

  lemma PollFits(n: nat)
    requires n <= 16
    ensures POLL_BOUND > n
  {}

  lemma LineLatch(a: Chip, b: Chip)
    requires SameLine(a, b)
    ensures ChipLatch(a) == ChipLatch(b)
  {}
}
