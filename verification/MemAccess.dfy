/**
  Peek and poke of src/mem_ops.c. What the operating system answers is a parameter
  of each call; the audit sink is a sequence that may refuse a record.
 */
module MemAccess {
  import opened Text
  import opened MemGuards
  import opened MemTable

  const MAX_ACCESS: u32 := 65536

  datatype Tier = NoTier | ProcessTier | Arena | SharedVm

  function TierName(t: Tier): (s: string)
    ensures s != ""
  {
    match t
    case ProcessTier => "process"
    case Arena => "arena"
    case SharedVm => "shared_vm"
    case NoTier => "none"
  }

  /** Whose memory an address is in; a process is known by what was issued for it, so a handle may come again. */
  datatype Space = Own | Of(process: Issue)

  type Memory = (Space, int) -> byte

  /** The memory after a run of bytes has been stored; nothing else changes. */
  function Written(m: Memory, where: Space, addr: int, bytes: seq<byte>): Memory {
    (s, a) => if s == where && addr <= a < addr + |bytes| then bytes[a - addr] else m(s, a)
  }

  datatype Record = Record(tier: Tier, token: string, pid: nat, command: string,
                           addr: u32, requested: u32, actual: u32, partial: bool)

  datatype Refusal =
    | NotArmed | OutOfRange | NoCapability | TokenRequired | InvalidToken | NoApi
    | NotAccessible | SinkClosed | AccessFailed | Unlogged

  /** The refusals that come before any store. */
  predicate BeforeStore(r: Refusal) { r != Unlogged }

  /** What the cross-process call answers: how many bytes, all or part, or nothing. */
  datatype Reply = All(n: u32) | Part(n: u32) | Failed

  /** The device: what it was started with, and the operating system's answers to one call. */
  datatype Setup = Setup(tier: Tier, armed: bool, api: bool)

  datatype Answers = Answers(region: Option<Region>, reply: Reply, sinkOpen: bool, logged: bool)

  datatype Device = Device(table: Table, memory: Memory, audit: seq<Record>)

  datatype Poke = Poke(token: string, addr: u32, bytes: seq<byte>)

  datatype PokeResult = PokeResult(ok: bool, hasProcess: bool, written: u32, partial: bool, reason: Option<Refusal>)

  predicate Honest(reply: Reply, len: int) { reply.Failed? || reply.n <= len }

  // ------------------------------------------------------------------
  // The floors of a poke, in their order
  // ------------------------------------------------------------------

  function InBounds(addr: u32, len: int): bool { len <= MAX_ACCESS && addr + len <= MAX }

  function Floor(u: Setup, t: Table, p: Poke, w: Answers): Option<Refusal>
    requires |p.bytes| <= MAX
  {
    if !u.armed then Some(NotArmed)
    else if !InBounds(p.addr, |p.bytes|) then Some(OutOfRange)
    else if u.tier == NoTier then Some(NoCapability)
    else if u.tier == ProcessTier && p.token == "" then Some(TokenRequired)
    else if u.tier == ProcessTier && Lookup(t.slots, p.token) < 0 then Some(InvalidToken)
    else if u.tier == ProcessTier && !u.api then Some(NoApi)
    else if u.tier != ProcessTier
            && (w.region.None? || Reach(w.region.value, p.addr, |p.bytes|, true) < |p.bytes|) then Some(NotAccessible)
    else if !w.sinkOpen then Some(SinkClosed)
    else if u.tier == ProcessTier && w.reply.Failed? then Some(AccessFailed)
    else None
  }

  function Target(u: Setup, t: Table, p: Poke): Space {
    if u.tier == ProcessTier then NamedBy(t, p.token) else Own
  }

  function Stored(u: Setup, p: Poke, w: Answers): (n: u32)
    requires |p.bytes| <= MAX && Honest(w.reply, |p.bytes|)
    ensures n <= |p.bytes|
  {
    if u.tier == ProcessTier then (if w.reply.Failed? then 0 else w.reply.n) else |p.bytes|
  }

  function Logged(u: Setup, t: Table, p: Poke, w: Answers): Record
    requires |p.bytes| <= MAX && Honest(w.reply, |p.bytes|)
  {
    var k := Lookup(t.slots, p.token);
    var command := if u.tier == ProcessTier && k >= 0 && t.slots[k].command != "" then t.slots[k].command else TierName(u.tier);
    Record(u.tier, p.token, if k >= 0 then t.slots[k].pid else 0, command,
           p.addr, |p.bytes|, Stored(u, p, w), u.tier == ProcessTier && w.reply.Part?)
  }

  /** A poke past its floors stores first and is logged then. */
  function AfterPoke(u: Setup, d: Device, p: Poke, w: Answers): Device
    requires |p.bytes| <= MAX && Honest(w.reply, |p.bytes|)
  {
    if Floor(u, d.table, p, w).Some? then d
    else d.(memory := Written(d.memory, Target(u, d.table, p), p.addr, p.bytes[..Stored(u, p, w)]),
            audit := d.audit + if w.logged then [Logged(u, d.table, p, w)] else [])
  }

  /** A slot in use has this token. */
  predicate Names(slots: seq<Slot>, token: string) {
    exists k :: 0 <= k < |slots| && slots[k].inUse && slots[k].token == token
  }

  /** Every byte of a range lies in a region that lets it be written, below 4 GB. */
  predicate HoldsWritably(r: Option<Region>, addr: u32, len: nat) {
    && r.Some?
    && (len == 0 || (r.value.base + r.value.size < 0x1_0000_0000
                     && forall a :: addr <= a < addr + len ==> MayTouch(r.value, a, true)))
  }

  lemma NamesIs(slots: seq<Slot>, token: string)
    ensures Lookup(slots, token) >= 0 <==> token != "" && Names(slots, token)
  {}

  /** The floors let a poke through exactly if none of these grounds stands against it. */
  lemma FloorIs(u: Setup, t: Table, p: Poke, w: Answers)
    requires |p.bytes| <= MAX
    ensures Floor(u, t, p, w).None? <==>
              && u.armed && |p.bytes| <= 65536 && p.addr + |p.bytes| <= 0xFFFF_FFFF && u.tier != NoTier && w.sinkOpen
              && (u.tier == ProcessTier ==> p.token != "" && Names(t.slots, p.token) && u.api && !w.reply.Failed?)
              && (u.tier != ProcessTier ==> HoldsWritably(w.region, p.addr, |p.bytes|))
  {
    NamesIs(t.slots, p.token);
    if w.region.Some? { WholeIsOffered(w.region.value, p.addr, |p.bytes|, true); }
    hide Lookup, Names, Reach, MayTouch;
  }

  datatype PeekResult = PeekResult(ok: bool, hasProcess: bool, got: u32, truncated: bool, reason: Option<Refusal>)

  function PeekFloor(u: Setup, t: Table, token: string, addr: u32, len: u32, w: Answers): Option<Refusal> {
    if !InBounds(addr, len) then Some(OutOfRange)
    else if u.tier == NoTier then Some(NoCapability)
    else if u.tier == ProcessTier && token == "" then Some(TokenRequired)
    else if u.tier == ProcessTier && Lookup(t.slots, token) < 0 then Some(InvalidToken)
    else if u.tier == ProcessTier && !u.api then Some(NoApi)
    else if u.tier == ProcessTier && w.reply.Failed? then Some(AccessFailed)
    else if u.tier != ProcessTier
            && (w.region.None? || Reach(w.region.value, addr, len, false) == 0) then Some(NotAccessible)
    else None
  }

  function NamedBy(t: Table, token: string): Space {
    var k := Lookup(t.slots, token);
    if k >= 0 then Of(Issue(t.slots[k].token, t.slots[k].handle)) else Own
  }

  function Seen(u: Setup, addr: u32, len: u32, w: Answers): u32 {
    if u.tier == ProcessTier then (if w.reply.Failed? then 0 else w.reply.n)
    else if w.region.None? then 0 else Reach(w.region.value, addr, len, false)
  }

  lemma RegionOffers(m: Region, addr: u32, len: u32)
    ensures var n := Reach(m, addr, len, false);
            && n <= len && (forall a :: addr <= a < addr + n ==> MayTouch(m, a, false))
            && (m.base + m.size < 0x1_0000_0000 && len > 0 && MayTouch(m, addr, false) ==>
                  n > 0 && (n < len ==> !MayTouch(m, addr + n, false)))
  {
    ReachIsSafe(m, addr, len, false);
    if m.base + m.size <= MAX {
      ReachIsLongest(m, addr, len, false);
      if len > 0 && MayTouch(m, addr, false) { ReachOfTouchable(m, addr, len, false); }
    }
  }

  // ------------------------------------------------------------------
  // The device
  // ------------------------------------------------------------------

  class MemDevice {
    const setup: Setup
    const table: ProcessTable
    var memory: Memory
    var audit: seq<Record>

    ghost predicate Valid()
      reads this, table, table.slots
    {
      table.Valid()
    }

    ghost function View(): Device
      reads this, table, table.slots
    {
      Device(table.View(), memory, audit)
    }

    constructor (setup: Setup, table: ProcessTable, memory: Memory)
      requires table.Valid()
      ensures Valid() && this.setup == setup && View() == Device(table.View(), memory, [])
    {
      this.setup, this.table, this.memory, audit := setup, table, memory, [];
    }

    /**
      Success and exactly one audit record go together; a refusal before the store
      changes neither memory nor log; a store that could not be logged is reported
      as a failure.
     */
    method MemPoke(p: Poke, w: Answers) returns (r: PokeResult)
      requires Valid() && |p.bytes| <= MAX && Honest(w.reply, |p.bytes|)
      modifies this
      ensures Valid() && View() == AfterPoke(setup, old(View()), p, w)
      ensures r.ok <==> Floor(setup, table.View(), p, w).None? && w.logged
      ensures r.ok <==> r.reason.None?
      ensures r.ok ==> audit == old(audit) + [Logged(setup, table.View(), p, w)]
      ensures r.ok ==> audit[|audit| - 1].actual == r.written && audit[|audit| - 1].partial == r.partial
      ensures r.ok ==> var x := audit[|audit| - 1];
                       x.tier == setup.tier && x.token == p.token && x.addr == p.addr && x.requested == |p.bytes|
      ensures !r.ok ==> audit == old(audit)
      ensures !r.ok && BeforeStore(r.reason.value) ==> memory == old(memory) && Some(r.reason.value) == Floor(setup, table.View(), p, w)
      ensures !r.ok && !BeforeStore(r.reason.value) <==> Floor(setup, table.View(), p, w).None? && !w.logged
      ensures !setup.armed ==> !r.ok && memory == old(memory) && audit == old(audit)
      ensures |p.bytes| > 65536 || p.addr + |p.bytes| > 0xFFFF_FFFF ==> !r.ok && memory == old(memory) && audit == old(audit)
      ensures setup.tier == NoTier || !w.sinkOpen ==> !r.ok && memory == old(memory) && audit == old(audit)
      ensures setup.tier == ProcessTier && (p.token == "" || !Names(table.slots[..], p.token) || !setup.api || w.reply.Failed?) ==>
                !r.ok && memory == old(memory) && audit == old(audit)
      ensures setup.tier != ProcessTier && !HoldsWritably(w.region, p.addr, |p.bytes|) ==>
                !r.ok && memory == old(memory) && audit == old(audit)
      ensures var permitted := setup.armed && |p.bytes| <= 65536 && p.addr + |p.bytes| <= 0xFFFF_FFFF && w.sinkOpen;
              && (permitted && setup.tier == ProcessTier && p.token != "" && Names(table.slots[..], p.token)
                  && setup.api && !w.reply.Failed? ==>
                    (r.ok <==> w.logged) && memory == Written(old(memory), NamedBy(table.View(), p.token), p.addr, p.bytes[..w.reply.n]))
              && (permitted && setup.tier in {Arena, SharedVm} && HoldsWritably(w.region, p.addr, |p.bytes|) ==>
                    (r.ok <==> w.logged) && memory == Written(old(memory), Own, p.addr, p.bytes))
    {
      FloorIs(setup, table.View(), p, w);
      assert p.bytes[..|p.bytes|] == p.bytes;
      r := PokeResult(false, false, 0, false, None);
      if !setup.armed { return r.(reason := Some(NotArmed)); }
      var bounded := MemRangeInBounds(p.addr, |p.bytes|, MAX_ACCESS);
      if !bounded { return r.(reason := Some(OutOfRange)); }
      if setup.tier == NoTier { return r.(reason := Some(NoCapability)); }
      var found, handle, pid, command := table.Resolve(p.token);
      if setup.tier == ProcessTier {
        if p.token == "" { return r.(reason := Some(TokenRequired)); }
        if !found { return r.(reason := Some(InvalidToken)); }
        if !setup.api { return r.(reason := Some(NoApi)); }
        r := r.(hasProcess := true);
      } else {
        if w.region.None? { return r.(reason := Some(NotAccessible)); }
        var n := MemRegionAccessibleDecision(w.region.value, p.addr, |p.bytes|, true);
        if n < |p.bytes| { return r.(reason := Some(NotAccessible)); }
      }
      if !w.sinkOpen { return r.(reason := Some(SinkClosed)); }
      if r.hasProcess {
        match w.reply {
          case Failed => return r.(reason := Some(AccessFailed));
          case All(n) => r := r.(written := n);
          case Part(n) => r := r.(written := n, partial := true);
        }
        memory := Written(memory, Of(Issue(p.token, handle)), p.addr, p.bytes[..r.written]);
      } else {
        r := r.(written := |p.bytes|);
        memory := Written(memory, Own, p.addr, p.bytes[..r.written]);
      }
      var cmd := if r.hasProcess then command else TierName(setup.tier);
      if cmd == "" { cmd := TierName(setup.tier); }
      if !w.logged { return r.(reason := Some(Unlogged)); }
      audit := audit + [Record(setup.tier, p.token, pid, cmd, p.addr, |p.bytes|, r.written, r.partial)];
      r := r.(ok := true);
    }

    /**
      What a peek reports as read is what stands there, and nothing is changed but the
      buffer's start. A device may be peeked at unarmed, and a region need not hold the
      whole range: what it holds of it is read.
     */
    method MemPeek(token: string, addr: u32, len: u32, w: Answers, out: array<byte>) returns (r: PeekResult)
      requires Valid() && Honest(w.reply, len) && (len <= MAX_ACCESS ==> len <= out.Length)
      modifies out
      ensures r.reason == PeekFloor(setup, table.View(), token, addr, len, w)
      ensures r.ok <==> r.reason.None?
      ensures r.got == if r.ok then Seen(setup, addr, len, w) else 0
      ensures r.ok ==> (r.truncated <==> if setup.tier == ProcessTier then w.reply.Part? else r.got < len)
      ensures r.got <= out.Length
      ensures r.ok ==> var sp := if setup.tier == ProcessTier then NamedBy(table.View(), token) else Own;
                       forall k :: 0 <= k < r.got ==> out[k] == memory(sp, addr + k)
      ensures forall k :: r.got <= k < out.Length ==> out[k] == old(out[k])
      ensures len > 65536 || addr + len > 0xFFFF_FFFF || setup.tier == NoTier ==> !r.ok
      ensures len <= 65536 && addr + len <= 0xFFFF_FFFF && setup.tier == ProcessTier ==>
                && (r.ok <==> token != "" && Names(table.slots[..], token) && setup.api && !w.reply.Failed?)
                && (r.ok ==> r.got == w.reply.n)
      ensures len <= 65536 && addr + len <= 0xFFFF_FFFF && setup.tier in {Arena, SharedVm} && w.region.Some? ==>
                && (r.ok ==> r.got > 0 && forall a :: addr <= a < addr + r.got ==> MayTouch(w.region.value, a, false))
                && (len > 0 && w.region.value.base + w.region.value.size < 0x1_0000_0000 && MayTouch(w.region.value, addr, false) ==>
                      r.ok && (r.got < len ==> !MayTouch(w.region.value, addr + r.got, false)))
    {
      NamesIs(table.slots[..], token);
      if w.region.Some? { RegionOffers(w.region.value, addr, len); }
      r := PeekResult(false, false, 0, false, None);
      var bounded := MemRangeInBounds(addr, len, MAX_ACCESS);
      if !bounded { return r.(reason := Some(OutOfRange)); }
      if setup.tier == NoTier { return r.(reason := Some(NoCapability)); }
      if setup.tier == ProcessTier {
        if token == "" { return r.(reason := Some(TokenRequired)); }
        var found, handle, pid, command := table.Resolve(token);
        if !found { return r.(reason := Some(InvalidToken)); }
        if !setup.api { return r.(reason := Some(NoApi)); }
        r := r.(hasProcess := true);
        match w.reply {
          case Failed => return r.(reason := Some(AccessFailed));
          case All(n) => r := r.(got := n, ok := true);
          case Part(n) => r := r.(got := n, truncated := true, ok := true);
        }
        forall k | 0 <= k < r.got { out[k] := memory(Of(Issue(token, handle)), addr + k); }
      } else {
        if w.region.None? { return r.(reason := Some(NotAccessible)); }
        var n := MemRegionAccessibleDecision(w.region.value, addr, len, false);
        if n == 0 { return r.(reason := Some(NotAccessible)); }
        forall k | 0 <= k < n { out[k] := memory(Own, addr + k); }
        r := r.(got := n, truncated := n < len, ok := true);
      }
    }
  }

  // ------------------------------------------------------------------
  // Whole runs
  // ------------------------------------------------------------------

  datatype Event = Tables(op: Op) | Pokes(poke: Poke, answers: Answers)

  /** A poke of 32-bit length, answered by a call that stores no more than it was given. */
  predicate Sound(e: Event) { e.Pokes? ==> |e.poke.bytes| <= MAX && Honest(e.answers.reply, |e.poke.bytes|) }

  function After(u: Setup, d: Device, e: Event): Device
    requires Sound(e)
  {
    match e
    case Tables(op) => d.(table := MemTable.Next(d.table, op))
    case Pokes(p, w) => AfterPoke(u, d, p, w)
  }

  function Lives(u: Setup, d: Device, es: seq<Event>): Device
    requires forall k :: 0 <= k < |es| ==> Sound(es[k])
    decreases |es|
  {
    if |es| == 0 then d else Lives(u, After(u, d, es[0]), es[1..])
  }

  /** A poke that is reported as done. */
  predicate Succeeds(u: Setup, d: Device, e: Event)
    requires Sound(e)
  {
    e.Pokes? && Floor(u, d.table, e.poke, e.answers).None? && e.answers.logged
  }

  function Successes(u: Setup, d: Device, es: seq<Event>): nat
    requires forall k :: 0 <= k < |es| ==> Sound(es[k])
    decreases |es|
  {
    if |es| == 0 then 0
    else
      (if Succeeds(u, d, es[0]) then 1 else 0) + Successes(u, After(u, d, es[0]), es[1..])
  }

  /** The record accounts for a byte: of the process that its token was issued for, or of the device itself. */
  ghost predicate Covers(r: Record, issued: seq<Issue>, where: Space, a: int) {
    && r.addr <= a < r.addr + r.actual
    && match where
       case Own => r.tier != ProcessTier
       case Of(x) => r.tier == ProcessTier && r.token == x.token && x in issued
  }

  ghost predicate Accounted(d: Device, d': Device) {
    && |d.audit| <= |d'.audit| && d'.audit[..|d.audit|] == d.audit
    && (forall x :: x in d.table.issued ==> x in d'.table.issued)
    && (forall where: Space, a: int :: d'.memory(where, a) != d.memory(where, a) ==> SomeCovers(d, d', where, a))
  }

  ghost predicate SomeCovers(d: Device, d': Device, where: Space, a: int)
    requires |d.audit| <= |d'.audit|
  {
    exists k :: |d.audit| <= k < |d'.audit| && Covers(d'.audit[k], d'.table.issued, where, a)
  }

  /** The record of a poke names what was asked for, and on the process tier the process and its command. */
  lemma RecordIs(u: Setup, t: Table, p: Poke, w: Answers)
    requires |p.bytes| <= MAX && Honest(w.reply, |p.bytes|) && Floor(u, t, p, w).None?
    ensures var r := Logged(u, t, p, w);
            && r.tier == u.tier && r.token == p.token && r.addr == p.addr && r.requested == |p.bytes|
            && (u.tier == ProcessTier ==>
                  && r.actual == w.reply.n && (r.partial <==> w.reply.Part?)
                  && exists k :: 0 <= k < |t.slots| && t.slots[k].inUse && t.slots[k].token == p.token && r.pid == t.slots[k].pid
                                 && r.command == if t.slots[k].command != "" then t.slots[k].command else "process")
            && (u.tier == Arena ==> r.actual == |p.bytes| && !r.partial && r.command == "arena")
            && (u.tier == SharedVm ==> r.actual == |p.bytes| && !r.partial && r.command == "shared_vm")
  {}

  lemma PokeAccounts(u: Setup, d: Device, p: Poke, w: Answers)
    requires Sound(Pokes(p, w)) && w.logged && AllBacked(d.table)
    ensures Accounted(d, AfterPoke(u, d, p, w))
  {
    var d' := AfterPoke(u, d, p, w);
    if Floor(u, d.table, p, w).None? {
      var r, target, k := Logged(u, d.table, p, w), Target(u, d.table, p), Lookup(d.table.slots, p.token);
      assert d'.audit == d.audit + [r] && r.actual == Stored(u, p, w);
      if u.tier == ProcessTier {
        assert target.Of? && k >= 0 && d.table.slots[k].token == p.token;
        assert Backed(d.table, k);
      }
      hide AllBacked, Backed, Floor, Logged, Target, Stored, AfterPoke;
      forall where: Space, a: int | d'.memory(where, a) != d.memory(where, a) ensures SomeCovers(d, d', where, a) {
        assert where == target && r.addr <= a < r.addr + r.actual;
        assert Covers(d'.audit[|d.audit|], d'.table.issued, where, a);
      }
    }
  }

  lemma TableAccounts(u: Setup, d: Device, op: Op)
    ensures Accounted(d, d.(table := MemTable.Next(d.table, op)))
  {
    hide TokenOf, Argv.Joined, Refuses;
  }

  lemma AccountedTwice(a: Device, b: Device, c: Device)
    requires Accounted(a, b) && Accounted(b, c)
    ensures Accounted(a, c)
  {
    assert c.audit[..|a.audit|] == c.audit[..|b.audit|][..|a.audit|];
    forall where: Space, x: int | c.memory(where, x) != a.memory(where, x) ensures SomeCovers(a, c, where, x) {
      if c.memory(where, x) != b.memory(where, x) {
        assert SomeCovers(b, c, where, x);
      } else {
        assert SomeCovers(a, b, where, x);
        var k :| |a.audit| <= k < |b.audit| && Covers(b.audit[k], b.table.issued, where, x);
        assert c.audit[k] == c.audit[..|b.audit|][k];
        assert Covers(c.audit[k], c.table.issued, where, x);
      }
    }
  }

  /**
    Over a whole run in which no record was refused after its store: every byte that
    has changed, in the device or in a retained process, is accounted for by an audit
    record with its address, and there are as many new records as successful pokes.
   */
  lemma {:induction false} AuditCoversWrites(u: Setup, d: Device, es: seq<Event>)
    requires forall k :: 0 <= k < |es| ==> Sound(es[k]) && (es[k].Pokes? ==> es[k].answers.logged)
    requires AllBacked(d.table)
    ensures Accounted(d, Lives(u, d, es))
    ensures |Lives(u, d, es).audit| == |d.audit| + Successes(u, d, es)
    decreases |es|
  {
    hide AllBacked, Floor, Target, Stored, Logged, MemTable.Next;
    if |es| > 0 {
      var d1 := After(u, d, es[0]);
      match es[0] {
        case Tables(op) =>
          StepKeepsBacked(d.table, op);
          TableAccounts(u, d, op);
        case Pokes(p, w) =>
          PokeAccounts(u, d, p, w);
      }
      AuditCoversWrites(u, d1, es[1..]);
      AccountedTwice(d, d1, Lives(u, d1, es[1..]));
    }
  }

  /** Without the arm, without a tier, or while the sink is closed, no run changes memory or log. */
  lemma {:induction false} UnarmedNeverWrites(u: Setup, d: Device, es: seq<Event>)
    requires forall k :: 0 <= k < |es| ==> Sound(es[k])
    requires !u.armed || u.tier == NoTier || forall k :: 0 <= k < |es| && es[k].Pokes? ==> !es[k].answers.sinkOpen
    ensures Lives(u, d, es).memory == d.memory && Lives(u, d, es).audit == d.audit
    decreases |es|
  {
    if |es| > 0 {
      if es[0].Pokes? { FloorIs(u, d.table, es[0].poke, es[0].answers); }
      hide Floor, MemTable.Next, Written;
      UnarmedNeverWrites(u, After(u, d, es[0]), es[1..]);
    }
  }

  /** On the process tier no run changes the device's own memory, and below it none changes a process's. */
  lemma {:induction false} TiersStayApart(u: Setup, d: Device, es: seq<Event>, where: Space, a: int)
    requires forall k :: 0 <= k < |es| ==> Sound(es[k])
    requires u.tier == ProcessTier <==> where == Own
    ensures Lives(u, d, es).memory(where, a) == d.memory(where, a)
    decreases |es|
  {
    if |es| > 0 {
      if es[0].Pokes? { FloorIs(u, d.table, es[0].poke, es[0].answers); NamesIs(d.table.slots, es[0].poke.token); }
      hide Floor, MemTable.Next, Lookup;
      TiersStayApart(u, After(u, d, es[0]), es[1..], where, a);
    }
  }

  /** On the pre-NT tiers a poke of no bytes passes a region that a peek of no bytes is refused at. */
  lemma EmptyAccess(u: Setup, t: Table, token: string, addr: u32, w: Answers)
    requires u.tier == Arena || u.tier == SharedVm
    requires u.armed && w.sinkOpen && w.region.Some?
    ensures Floor(u, t, Poke(token, addr, []), w) == None
    ensures PeekFloor(u, t, token, addr, 0, w) == Some(NotAccessible)
  {
    ReachIsSafe(w.region.value, addr, 0, false);
  }
}
