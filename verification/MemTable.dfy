/**
  The spawn-retain process table of src/mem_ops.c: eight slots, and tokens that name
  what is retained. `issued` and `closed` record what the operating system was asked
  to do: every process handle obtained, with its token, and every handle closed.
 */
module MemTable {
  import opened Text
  import opened Digits
  import Argv

  const SLOTS: nat := 8
  const MAX_CMDLINE: nat := 32766

  type Handle = nat

  datatype Slot = Slot(inUse: bool, token: string, handle: Handle, pid: nat, command: string)

  const FREE := Slot(false, "", 0, 0, "")

  datatype Issue = Issue(token: string, handle: Handle)

  datatype Table = Table(slots: seq<Slot>, serial: nat, issued: seq<Issue>, closed: seq<Handle>)

  /** The catalogue's word on the program: not asked, not found, a shell builtin, or a program. */
  datatype Gate = Unenforced | Missing | Builtin | Program

  /** What CreateProcess makes of the command line. */
  datatype Spawned = Running(handle: Handle, pid: nat) | NotRunning(error: nat)

  datatype Refusal = EmptyCommand | NotCatalogued | BuiltinTarget | TableFull | LineTooLong | SpawnFailed(error: nat)

  datatype Answer = Retained(token: string, pid: nat) | Refused(reason: Refusal)

  datatype Attempt = Attempt(argv: seq<string>, gate: Gate, spawned: Spawned, tick: nat)

  // ------------------------------------------------------------------
  // Tokens
  // ------------------------------------------------------------------

  function Suffix(serial: nat, pid: nat, tick: nat): nat {
    ((tick + serial + pid) % U32 * 1103515245 + 12345) % U32 % 100000
  }

  function TokenOf(serial: nat, pid: nat, tick: nat): string {
    "m" + Decimal(serial) + "-" + Decimal(Suffix(serial, pid, tick))
  }

  /** The first token of a process that the system numbers 0, started when the clock stands at 0. */
  lemma FirstToken()
    ensures TokenOf(1, 0, 0) == "m1-27590"
  {
    assert Suffix(1, 0, 0) == 27590;
    assert Decimal(1) == "1";
    assert Decimal(27) == "27" by { assert Decimal(2) == "2"; }
    assert Decimal(275) == "275" && Decimal(2759) == "2759" && Decimal(27590) == "27590";
    hide Decimal, Suffix;
  }

  /** The token carries this serial number. */
  predicate Carries(token: string, serial: nat) {
    var head := "m" + Decimal(serial) + "-";
    |head| <= |token| && token[..|head|] == head
  }

  lemma TokenCarries(serial: nat, pid: nat, tick: nat)
    ensures Carries(TokenOf(serial, pid, tick), serial) && TokenOf(serial, pid, tick) != ""
  {
    hide Decimal, Suffix;
    var head, tail := "m" + Decimal(serial) + "-", Decimal(Suffix(serial, pid, tick));
    assert TokenOf(serial, pid, tick) == head + tail;
    assert (head + tail)[..|head|] == head;
  }

  /** A token carries one serial number only. */
  lemma CarriesOnce(token: string, m: nat, n: nat)
    requires Carries(token, m) && Carries(token, n)
    ensures m == n
  {
    hide Decimal;
    var hm, hn := "m" + Decimal(m) + "-", "m" + Decimal(n) + "-";
    var body := token[1..];
    assert body == Decimal(m) + ['-'] + token[|hm|..] by { Behead(token, hm, Decimal(m)); }
    assert body == Decimal(n) + ['-'] + token[|hn|..] by { Behead(token, hn, Decimal(n)); }
    DigitsUpTo(Decimal(m), token[|hm|..], Decimal(n), token[|hn|..], '-');
    DecimalIsInjective(m, n);
  }

  lemma Behead(token: string, head: string, digits: string)
    requires head == "m" + digits + "-" && |head| <= |token| && token[..|head|] == head
    ensures token[1..] == digits + ['-'] + token[|digits| + 2..]
  {
    assert token == head + token[|head|..];
    assert head[1..] == digits + ['-'];
  }

  // ------------------------------------------------------------------
  // The table's steps
  // ------------------------------------------------------------------

  /** The first slot in use under a token; -1 if there is none. */
  function Find(slots: seq<Slot>, token: string): (k: int)
    ensures -1 <= k < |slots|
    ensures k >= 0 ==> slots[k].inUse && slots[k].token == token
    ensures k < 0 ==> forall j :: 0 <= j < |slots| ==> !(slots[j].inUse && slots[j].token == token)
  {
    if |slots| == 0 then -1
    else if slots[0].inUse && slots[0].token == token then 0
    else
      var rest := slots[1..];
      var k := Find(rest, token);
      assert forall j :: 1 <= j < |slots| ==> slots[j] == rest[j - 1];
      if k < 0 then -1 else k + 1
  }

  function Lookup(slots: seq<Slot>, token: string): int {
    if |token| == 0 then -1 else Find(slots, token)
  }

  function FirstFree(slots: seq<Slot>): (k: int)
    ensures -1 <= k < |slots|
    ensures k >= 0 ==> !slots[k].inUse && forall j :: 0 <= j < k ==> slots[j].inUse
    ensures k < 0 ==> forall j :: 0 <= j < |slots| ==> slots[j].inUse
  {
    if |slots| == 0 then -1
    else if !slots[0].inUse then 0
    else
      var rest := slots[1..];
      var k := FirstFree(rest);
      assert forall j :: 1 <= j < |slots| ==> slots[j] == rest[j - 1];
      if k < 0 then -1 else k + 1
  }

  function Refuses(t: Table, a: Attempt): Option<Refusal> {
    if |a.argv| == 0 || |a.argv[0]| == 0 then Some(EmptyCommand)
    else if a.gate == Missing then Some(NotCatalogued)
    else if a.gate == Builtin then Some(BuiltinTarget)
    else if FirstFree(t.slots) < 0 then Some(TableFull)
    else if |Argv.Joined(a.argv)| + 1 > MAX_CMDLINE then Some(LineTooLong)
    else if a.spawned.NotRunning? then Some(SpawnFailed(a.spawned.error))
    else None
  }

  /** A process is retained exactly if none of these grounds stands against it; and then in the first free slot. */
  lemma SpawnsWhen(t: Table, a: Attempt)
    requires |t.slots| == SLOTS
    ensures Refuses(t, a).None? <==>
              && |a.argv| > 0 && |a.argv[0]| > 0 && a.gate in {Unenforced, Program} && |Argv.Joined(a.argv)| < 32766
              && a.spawned.Running? && exists k :: 0 <= k < 8 && !t.slots[k].inUse
  {}

  function NextSerial(serial: nat): nat { (serial + 1) % U32 }

  function TokenFor(t: Table, a: Attempt): string
    requires a.spawned.Running?
  {
    TokenOf(NextSerial(t.serial), a.spawned.pid, a.tick)
  }

  function AfterSpawn(t: Table, a: Attempt): Table {
    if Refuses(t, a).Some? then t
    else
      var token := TokenFor(t, a);
      Table(
        t.slots[FirstFree(t.slots) := Slot(true, token, a.spawned.handle, a.spawned.pid, Argv.Joined(a.argv))],
        NextSerial(t.serial), t.issued + [Issue(token, a.spawned.handle)], t.closed)
  }

  function Freed(s: Slot): Slot { s.(inUse := false, handle := 0) }

  /** Release and terminate alike. */
  function AfterDrop(t: Table, token: string): Table {
    var k := Lookup(t.slots, token);
    if k < 0 then t
    else t.(slots := t.slots[k := Freed(t.slots[k])], closed := t.closed + [t.slots[k].handle])
  }

  function Live(slots: seq<Slot>): seq<Handle> {
    if |slots| == 0 then []
    else Live(slots[..|slots| - 1]) + Held(slots[|slots| - 1])
  }

  function Held(s: Slot): seq<Handle> { if s.inUse then [s.handle] else [] }

  function AllFreed(slots: seq<Slot>): (r: seq<Slot>)
    ensures |r| == |slots|
  {
    seq(|slots|, k requires 0 <= k < |slots| => if slots[k].inUse then Freed(slots[k]) else slots[k])
  }

  function AfterSweep(t: Table): Table {
    t.(slots := AllFreed(t.slots), closed := t.closed + Live(t.slots))
  }

  const EMPTY := Table(seq(SLOTS, _ => FREE), 0, [], [])

  // ------------------------------------------------------------------
  // The table
  // ------------------------------------------------------------------

  class ProcessTable {
    const slots: array<Slot>
    var serial: nat
    ghost var issued: seq<Issue>
    var closed: seq<Handle>

    ghost predicate Valid()
      reads this, slots
    {
      slots.Length == SLOTS && serial < U32
    }

    ghost function View(): Table
      reads this, slots
    {
      Table(slots[..], serial, issued, closed)
    }

    constructor ()
      ensures Valid() && View() == EMPTY && fresh(slots) && slots.Length == 8
    {
      slots := new Slot[SLOTS](_ => FREE);
      serial, issued, closed := 0, [], [];
    }

    method FindSlot(token: string) returns (k: int)
      requires Valid()
      ensures k == Lookup(slots[..], token)
    {
      if |token| == 0 { return -1; }
      ghost var all := slots[..];
      var i := 0;
      assert all[0..] == all;
      while i < slots.Length
        invariant 0 <= i <= slots.Length
        invariant Find(all, token) == if Find(all[i..], token) < 0 then -1 else i + Find(all[i..], token)
      {
        if slots[i].inUse && slots[i].token == token { return i; }
        assert all[i..][1..] == all[i + 1..] && all[i..][0] == slots[i];
        i := i + 1;
      }
      k := -1;
    }

    method FreeSlot() returns (k: int)
      requires Valid()
      ensures k == FirstFree(slots[..])
    {
      ghost var all := slots[..];
      var i := 0;
      assert all[0..] == all;
      while i < slots.Length
        invariant 0 <= i <= slots.Length
        invariant FirstFree(all) == if FirstFree(all[i..]) < 0 then -1 else i + FirstFree(all[i..])
      {
        if !slots[i].inUse { return i; }
        assert all[i..][1..] == all[i + 1..] && all[i..][0] == slots[i];
        i := i + 1;
      }
      k := -1;
    }

    method CommandLine(argv: seq<string>) returns (line: Option<string>)
      ensures line == if |Argv.Joined(argv)| + 1 > MAX_CMDLINE then None else Some(Argv.Joined(argv))
    {
      hide Argv.Joined, Overwrite;
      var buffer := new char[MAX_CMDLINE];
      ghost var was := buffer[..];
      var n := Argv.ArgvJoin(argv, buffer, MAX_CMDLINE);
      if n < 0 { return None; }
      OverwriteFront(was, Argv.Joined(argv), Argv.NUL);
      assert buffer[..n] == buffer[..][..n];
      line := Some(buffer[..n]);
    }

    method SpawnRetain(a: Attempt) returns (r: Answer)
      requires Valid()
      modifies this, slots
      ensures Valid()
      ensures View() == AfterSpawn(old(View()), a)
      ensures var refusal := Refuses(old(View()), a);
              r == if refusal.Some? then Refused(refusal.value) else Retained(TokenFor(old(View()), a), a.spawned.pid)
      ensures r.Retained? <==>
                && |a.argv| > 0 && |a.argv[0]| > 0 && a.gate in {Unenforced, Program} && |Argv.Joined(a.argv)| < 32766
                && a.spawned.Running? && exists k :: 0 <= k < 8 && !old(slots[..])[k].inUse
      ensures r.Refused? ==> View() == old(View())
      ensures r.Retained? ==>
                && serial == (old(serial) + 1) % 0x1_0000_0000
                && issued == old(issued) + [Issue(r.token, a.spawned.handle)] && r.pid == a.spawned.pid
                && exists k :: 0 <= k < 8 && !old(slots[..])[k].inUse && (forall j :: 0 <= j < k ==> old(slots[..])[j].inUse)
                               && slots[..] == old(slots[..])[k := Slot(true, r.token, a.spawned.handle, a.spawned.pid, Argv.Joined(a.argv))]
    {
      SpawnsWhen(View(), a);
      hide TokenOf, Find, FirstFree;
      if |a.argv| == 0 || |a.argv[0]| == 0 { return Refused(EmptyCommand); }
      if a.gate == Missing { return Refused(NotCatalogued); }
      if a.gate == Builtin { return Refused(BuiltinTarget); }
      var free := FreeSlot();
      if free < 0 { return Refused(TableFull); }
      var line := CommandLine(a.argv);
      if line.None? { return Refused(LineTooLong); }
      match a.spawned {
        case NotRunning(error) => return Refused(SpawnFailed(error));
        case Running(handle, pid) =>
          serial := (serial + 1) % U32;
          var token := TokenOf(serial, pid, a.tick);
          slots[free] := Slot(true, token, handle, pid, line.value);
          issued := issued + [Issue(token, handle)];
          r := Retained(token, pid);
      }
    }

    method Drop(token: string) returns (ok: bool)
      requires Valid()
      modifies this, slots
      ensures Valid()
      ensures ok <==> Lookup(old(slots[..]), token) >= 0
      ensures View() == AfterDrop(old(View()), token)
      ensures ok <==> token != "" && exists k :: 0 <= k < 8 && old(slots[..])[k].inUse && old(slots[..])[k].token == token
      ensures !ok ==> View() == old(View())
      ensures ok ==>
                && serial == old(serial) && issued == old(issued)
                && exists k :: 0 <= k < 8 && old(slots[..])[k].inUse && old(slots[..])[k].token == token
                               && slots[..] == old(slots[..])[k := old(slots[..])[k].(inUse := false, handle := 0)]
                               && closed == old(closed) + [old(slots[..])[k].handle]
    {
      var k := FindSlot(token);
      if k < 0 { return false; }
      closed := closed + [slots[k].handle];
      slots[k] := slots[k].(inUse := false, handle := 0);
      ok := true;
    }

    method ReleaseAll()
      requires Valid()
      modifies this, slots
      ensures Valid() && View() == AfterSweep(old(View()))
    {
      ghost var all := slots[..];
      for i := 0 to slots.Length
        invariant Valid() && serial == old(serial) && issued == old(issued)
        invariant forall k :: 0 <= k < i ==> slots[k] == AllFreed(all)[k]
        invariant forall k :: i <= k < slots.Length ==> slots[k] == all[k]
        invariant closed == old(closed) + Live(all[..i])
      {
        assert all[..i + 1][..i] == all[..i];
        if slots[i].inUse {
          closed := closed + [slots[i].handle];
          slots[i] := slots[i].(inUse := false, handle := 0);
        }
      }
      assert slots[..] == AllFreed(all) && all[..slots.Length] == all;
    }

    /** The retained process that a token names; what the source answers for none is 0 and "". */
    method Resolve(token: string) returns (found: bool, handle: Handle, pid: nat, command: string)
      requires Valid()
      ensures found <==> Lookup(slots[..], token) >= 0
      ensures found ==> var s := slots[Lookup(slots[..], token)]; handle == s.handle && pid == s.pid && command == s.command
      ensures !found ==> handle == 0 && pid == 0 && command == ""
    {
      var k := FindSlot(token);
      if k < 0 { return false, 0, 0, ""; }
      found, handle, pid, command := true, slots[k].handle, slots[k].pid, slots[k].command;
    }
  }

  // ------------------------------------------------------------------
  // Every run of fewer than 2^32 spawns
  // ------------------------------------------------------------------

  datatype Op = Spawn(attempt: Attempt) | Release(token: string) | Sweep

  function Next(t: Table, op: Op): Table {
    match op
    case Spawn(a) => AfterSpawn(t, a)
    case Release(token) => AfterDrop(t, token)
    case Sweep => AfterSweep(t)
  }

  function Run(t: Table, ops: seq<Op>): Table
    decreases |ops|
  {
    if |ops| == 0 then t else Run(Next(t, ops[0]), ops[1..])
  }

  /** The slot holds what was issued under its token. */
  ghost predicate Backed(t: Table, k: nat) {
    k < |t.slots| && t.slots[k].inUse ==> Issue(t.slots[k].token, t.slots[k].handle) in t.issued
  }

  ghost predicate AllBacked(t: Table) { forall k: nat :: Backed(t, k) }

  ghost predicate Numbered(t: Table) {
    && |t.slots| == SLOTS && t.serial == |t.issued| % U32 && |t.issued| <= U32
    && (forall i :: 0 <= i < |t.issued| ==> Carries(t.issued[i].token, (i + 1) % U32) && t.issued[i].token != "")
  }

  /** No two slots in use share a token. */
  predicate Apart(slots: seq<Slot>) {
    forall j, k :: 0 <= j < k < |slots| && slots[j].inUse && slots[k].inUse ==> slots[j].token != slots[k].token
  }

  function Handles(issued: seq<Issue>): seq<Handle> {
    if |issued| == 0 then [] else Handles(issued[..|issued| - 1]) + [issued[|issued| - 1].handle]
  }

  /** Every handle obtained is either held by a slot in use or has been closed, once for each time obtained. */
  ghost predicate Conserved(t: Table) {
    multiset(Handles(t.issued)) == multiset(t.closed) + multiset(Live(t.slots))
  }

  ghost predicate Inv(t: Table) {
    Numbered(t) && AllBacked(t) && Apart(t.slots) && Conserved(t)
  }

  lemma EmptyIsInv()
    ensures Inv(EMPTY)
  {
    NoneLive(EMPTY.slots);
  }

  lemma NoneLive(slots: seq<Slot>)
    requires forall k :: 0 <= k < |slots| ==> !slots[k].inUse
    ensures Live(slots) == []
  {}

  /** Issued tokens are pairwise distinct. */
  lemma IssuedOnce(t: Table, i: nat, j: nat)
    requires Numbered(t) && i < |t.issued| && j < |t.issued| && t.issued[i].token == t.issued[j].token
    ensures i == j
  {
    hide Carries;
    CarriesOnce(t.issued[i].token, (i + 1) % U32, (j + 1) % U32);
  }

  lemma {:induction false} LiveUpdated(slots: seq<Slot>, k: nat, s: Slot)
    requires k < |slots|
    ensures multiset(Live(slots[k := s])) + multiset(Held(slots[k])) == multiset(Live(slots)) + multiset(Held(s))
  {
    hide Held;
    var n := |slots| - 1;
    var now := slots[k := s];
    assert now == now[..n] + [now[n]] && slots == slots[..n] + [slots[n]];
    LiveSplits(now);
    LiveSplits(slots);
    hide Live;
    if k == n {
      assert now[..n] == slots[..n];
    } else {
      LiveUpdated(slots[..n], k, s);
      assert now[..n] == slots[..n][k := s] && slots[..n][k] == slots[k] && now[n] == slots[n];
      Regroup(multiset(Live(now[..n])), multiset(Held(slots[k])), multiset(Live(slots[..n])), multiset(Held(s)),
              multiset(Held(slots[n])));
    }
  }

  lemma Regroup(a: multiset<Handle>, b: multiset<Handle>, c: multiset<Handle>, d: multiset<Handle>, e: multiset<Handle>)
    requires a + b == c + d
    ensures a + e + b == c + e + d
  {
    assert a + e + b == a + b + e && c + e + d == c + d + e;
  }

  lemma LiveSplits(slots: seq<Slot>)
    requires |slots| > 0
    ensures multiset(Live(slots)) == multiset(Live(slots[..|slots| - 1])) + multiset(Held(slots[|slots| - 1]))
  {}

  lemma HandlesGrow(issued: seq<Issue>, x: Issue)
    ensures Handles(issued + [x]) == Handles(issued) + [x.handle]
  {
    assert (issued + [x])[..|issued|] == issued;
  }

  /** The table has issued at most 2^32 tokens: no serial number has been used twice. */
  predicate Fresh(t: Table) { |t.issued| <= U32 }

  /** Serial numbers are counted round: one more than x, where x has come round, is where x + 1 has. */
  lemma OneMore(x: nat)
    ensures NextSerial(x % U32) == (x + 1) % U32
  {
    var q, r := x / U32, x % U32;
    assert x == q * U32 + r;
    assert r + 1 == U32 ==> x + 1 == (q + 1) * U32;
  }

  lemma SpawnKeepsNumbers(t: Table, a: Attempt)
    requires Numbered(t) && Fresh(AfterSpawn(t, a))
    ensures Numbered(AfterSpawn(t, a))
  {
    hide Carries, TokenOf;
    if Refuses(t, a).None? {
      OneMore(|t.issued|);
      TokenCarries(NextSerial(t.serial), a.spawned.pid, a.tick);
    }
  }

  /** A token about to be issued has never been issued. */
  lemma NewToken(t: Table, a: Attempt, i: nat)
    requires Numbered(t) && |t.issued| < U32 && Refuses(t, a).None? && i < |t.issued|
    ensures TokenFor(t, a) != t.issued[i].token
  {
    hide Carries, TokenOf;
    OneMore(|t.issued|);
    TokenCarries(NextSerial(t.serial), a.spawned.pid, a.tick);
    if TokenFor(t, a) == t.issued[i].token { CarriesOnce(TokenFor(t, a), NextSerial(t.serial), (i + 1) % U32); }
  }

  lemma SpawnKeepsSlots(t: Table, a: Attempt)
    requires Inv(t) && Fresh(AfterSpawn(t, a))
    ensures Apart(AfterSpawn(t, a).slots)
  {
    hide Conserved, Carries, TokenOf;
    if Refuses(t, a).None? {
      forall i | 0 <= i < |t.issued| ensures TokenFor(t, a) != t.issued[i].token { NewToken(t, a, i); }
      hide Numbered, Refuses;
      var t' := AfterSpawn(t, a);
      var free := FirstFree(t.slots);
      forall k | 0 <= k < |t.slots| && t.slots[k].inUse ensures t.slots[k].token != TokenFor(t, a) {
        assert Backed(t, k);
      }
    }
  }

  lemma SpawnConserves(t: Table, a: Attempt)
    requires Conserved(t)
    ensures Conserved(AfterSpawn(t, a))
  {
    hide TokenOf, Live, Handles;
    if Refuses(t, a).None? {
      var free, h := FirstFree(t.slots), a.spawned.handle;
      var s := Slot(true, TokenFor(t, a), h, a.spawned.pid, Argv.Joined(a.argv));
      LiveUpdated(t.slots, free, s);
      assert multiset(Live(t.slots[free := s])) == multiset(Live(t.slots)) + multiset{h};
      HandlesGrow(t.issued, Issue(TokenFor(t, a), h));
    }
  }

  lemma DropConserves(t: Table, token: string)
    requires Conserved(t)
    ensures Conserved(AfterDrop(t, token))
  {
    hide Live, Handles;
    var k := Lookup(t.slots, token);
    if k >= 0 {
      var t' := AfterDrop(t, token);
      LiveUpdated(t.slots, k, Freed(t.slots[k]));
      assert multiset(Live(t'.slots)) + multiset{t.slots[k].handle} == multiset(Live(t.slots));
      assert multiset(t'.closed) == multiset(t.closed) + multiset{t.slots[k].handle};
    }
  }

  lemma DropKeepsAll(t: Table, token: string)
    requires Inv(t)
    ensures Inv(AfterDrop(t, token))
  {
    DropConserves(t, token);
    StepKeepsBacked(t, Release(token));
    hide Conserved, Carries, AllBacked;
  }

  /** What a slot holds was issued: after every step, however many spawns there have been. */
  lemma StepKeepsBacked(t: Table, op: Op)
    requires AllBacked(t)
    ensures AllBacked(Next(t, op))
  {
    hide TokenFor, Live;
    var t' := Next(t, op);
    if op.Spawn? && Refuses(t, op.attempt).None? {
      var x := Issue(TokenFor(t, op.attempt), op.attempt.spawned.handle);
      assert t'.issued == t.issued + [x] && x in t'.issued;
      assert t.issued <= t'.issued;
    }
    forall k: nat ensures Backed(t', k) { assert Backed(t, k); }
  }

  lemma SweepConserves(t: Table)
    requires Conserved(t)
    ensures Conserved(AfterSweep(t)) && Live(AfterSweep(t).slots) == []
  {
    hide Live, Handles;
    NoneLive(AllFreed(t.slots));
  }

  lemma SweepKeepsAll(t: Table)
    requires Inv(t)
    ensures Inv(AfterSweep(t))
  {
    SweepConserves(t);
    StepKeepsBacked(t, Sweep);
    hide Live, Handles, Carries, Conserved, AllBacked;
  }

  /** Handles are conserved over every run, however many spawns. */
  lemma {:induction false} RunConserves(t: Table, ops: seq<Op>)
    requires Conserved(t)
    ensures Conserved(Run(t, ops))
    decreases |ops|
  {
    hide Conserved, AfterSpawn, AfterDrop, AfterSweep;
    if |ops| > 0 {
      match ops[0] {
        case Spawn(a) => SpawnConserves(t, a);
        case Release(token) => DropConserves(t, token);
        case Sweep => SweepConserves(t);
      }
      RunConserves(Next(t, ops[0]), ops[1..]);
    }
  }

  lemma StepIssues(t: Table, op: Op)
    ensures |t.issued| <= |Next(t, op).issued|
  {
    hide Live, TokenFor;
  }

  lemma {:induction false} RunIssues(t: Table, ops: seq<Op>)
    ensures |t.issued| <= |Run(t, ops).issued|
    decreases |ops|
  {
    hide Next;
    if |ops| > 0 {
      StepIssues(t, ops[0]);
      RunIssues(Next(t, ops[0]), ops[1..]);
    }
  }

  lemma StepKeepsInv(t: Table, op: Op)
    requires Inv(t) && Fresh(Next(t, op))
    ensures Inv(Next(t, op))
  {
    hide Inv, AfterSpawn, AfterDrop, AfterSweep;
    match op
    case Spawn(a) => SpawnKeepsAll(t, a);
    case Release(token) => DropKeepsAll(t, token);
    case Sweep => SweepKeepsAll(t);
  }

  lemma SpawnKeepsAll(t: Table, a: Attempt)
    requires Inv(t) && Fresh(AfterSpawn(t, a))
    ensures Inv(AfterSpawn(t, a))
  {
    SpawnKeepsNumbers(t, a);
    SpawnKeepsSlots(t, a);
    SpawnConserves(t, a);
    StepKeepsBacked(t, Spawn(a));
    hide Numbered, Apart, Conserved, AllBacked, Refuses, AfterSpawn;
  }

  /** Every run in which at most 2^32 processes are spawned, however long it is. */
  lemma {:induction false} RunKeepsInv(t: Table, ops: seq<Op>)
    requires Inv(t) && Fresh(Run(t, ops))
    ensures Inv(Run(t, ops))
    decreases |ops|
  {
    hide Inv, Next;
    if |ops| > 0 {
      RunIssues(Next(t, ops[0]), ops[1..]);
      StepKeepsInv(t, ops[0]);
      RunKeepsInv(Next(t, ops[0]), ops[1..]);
    }
  }

  lemma StepLeavesDead(t: Table, op: Op, i: nat)
    requires Inv(t) && Fresh(Next(t, op)) && i < |t.issued| && Lookup(t.slots, t.issued[i].token) < 0
    ensures var t' := Next(t, op);
            i < |t'.issued| && t'.issued[i] == t.issued[i] && Lookup(t'.slots, t.issued[i].token) < 0
  {
    hide Conserved, Backed, Apart, Carries, TokenOf, Live;
    var token := t.issued[i].token;
    if op.Spawn? && Refuses(t, op.attempt).None? {
      NewToken(t, op.attempt, i);
      hide Refuses;
    }
    assert token != "";
    assert forall k :: 0 <= k < |t.slots| ==> !(t.slots[k].inUse && t.slots[k].token == token);
  }

  /** A token that names nothing any more, released, terminated or swept, never names anything again. */
  lemma {:induction false} DeadStaysDead(t: Table, ops: seq<Op>, i: nat)
    requires Inv(t) && Fresh(Run(t, ops)) && i < |t.issued| && Lookup(t.slots, t.issued[i].token) < 0
    ensures Lookup(Run(t, ops).slots, t.issued[i].token) < 0
    decreases |ops|
  {
    hide Inv, Next, Lookup;
    if |ops| > 0 {
      RunIssues(Next(t, ops[0]), ops[1..]);
      StepKeepsInv(t, ops[0]);
      StepLeavesDead(t, ops[0], i);
      DeadStaysDead(Next(t, ops[0]), ops[1..], i);
    }
  }

  /** A release takes its token out of use at once. */
  lemma DroppedIsDead(t: Table, token: string)
    requires Inv(t)
    ensures Lookup(AfterDrop(t, token).slots, token) < 0
  {
    hide Conserved, Backed, Numbered, Live;
    var t', k := AfterDrop(t, token), Lookup(t.slots, token);
    assert forall j :: 0 <= j < |t'.slots| && t'.slots[j].inUse ==> j != k && t.slots[j] == t'.slots[j];
  }

  /** A token names the process that it was issued for, and nothing else. */
  lemma ResolvesToItsOwn(t: Table, i: nat)
    requires Inv(t) && i < |t.issued| && Lookup(t.slots, t.issued[i].token) >= 0
    ensures t.slots[Lookup(t.slots, t.issued[i].token)].handle == t.issued[i].handle
  {
    hide Conserved, Apart, Live;
    var k := Lookup(t.slots, t.issued[i].token);
    assert Backed(t, k);
    var j :| 0 <= j < |t.issued| && t.issued[j] == Issue(t.slots[k].token, t.slots[k].handle);
    IssuedOnce(t, i, j);
  }

  /** After a sweep every handle ever obtained has been closed exactly as often as it was obtained: in every run. */
  lemma SweepClosesAll(ops: seq<Op>)
    ensures var t := AfterSweep(Run(EMPTY, ops)); multiset(t.closed) == multiset(Handles(t.issued))
  {
    EmptyIsInv();
    RunConserves(EMPTY, ops);
    SweepConserves(Run(EMPTY, ops));
    hide Run, Live, Handles;
  }

  // ------------------------------------------------------------------
  // One spawn too many
  // ------------------------------------------------------------------

  predicate NoneUsed(slots: seq<Slot>) { |slots| == SLOTS && forall k :: 0 <= k < |slots| ==> !slots[k].inUse }

  /** The i-th token of a table that starts the same program as the same process at the same tick again and again. */
  function NthIssue(a: Attempt, i: nat): Issue
    requires a.spawned.Running?
  {
    Issue(TokenOf((i + 1) % U32, a.spawned.pid, a.tick), a.spawned.handle)
  }

  /** The spawns from the i-th to the n-th, each released at once. */
  function Churn(a: Attempt, i: nat, n: nat): seq<Op>
    requires a.spawned.Running? && i <= n
    decreases n - i
  {
    if i == n then [] else [Spawn(a), Release(NthIssue(a, i).token)] + Churn(a, i + 1, n)
  }

  /** A program that an empty table can start, whatever it has issued. */
  lemma StartsAgain(t: Table, a: Attempt)
    requires NoneUsed(t.slots) && Refuses(EMPTY, a).None?
    ensures Refuses(t, a).None? && a.spawned.Running?
  {}

  /** One spawn and its release leave every slot free. */
  lemma ChurnOne(t: Table, a: Attempt, i: nat)
    requires NoneUsed(t.slots) && t.serial == i % U32 && Refuses(EMPTY, a).None?
    ensures a.spawned.Running?
    ensures var t1 := AfterSpawn(t, a);
            && t1.issued == t.issued + [NthIssue(a, i)] && Lookup(t1.slots, NthIssue(a, i).token) >= 0
            && var t2 := AfterDrop(t1, NthIssue(a, i).token);
               NoneUsed(t2.slots) && t2.serial == (i + 1) % U32 && t2.issued == t1.issued
  {
    StartsAgain(t, a);
    OneMore(i);
    TokenCarries((i + 1) % U32, a.spawned.pid, a.tick);
    hide Refuses, Carries, TokenOf;
    var t1, free := AfterSpawn(t, a), FirstFree(t.slots);
    assert t1.slots[free].inUse && t1.slots[free].token == NthIssue(a, i).token;
    assert forall k :: 0 <= k < SLOTS && k != free ==> !t1.slots[k].inUse;
  }

  lemma {:induction false} ChurnIssues(t: Table, a: Attempt, i: nat, n: nat)
    requires NoneUsed(t.slots) && t.serial == i % U32 && Refuses(EMPTY, a).None? && i <= n
    ensures a.spawned.Running?
    ensures var t' := Run(t, Churn(a, i, n));
            && NoneUsed(t'.slots) && t'.serial == n % U32 && t.issued <= t'.issued
            && |t'.issued| == |t.issued| + (n - i)
            && (i < n ==> t'.issued[|t.issued|] == NthIssue(a, i))
    decreases n - i
  {
    StartsAgain(t, a);
    if i < n {
      ChurnOne(t, a, i);
      var t2 := AfterDrop(AfterSpawn(t, a), NthIssue(a, i).token);
      ChurnIssues(t2, a, i + 1, n);
      hide *;
      TwoSteps(t, a, i, n);
    }
  }

  lemma TwoSteps(t: Table, a: Attempt, i: nat, n: nat)
    requires a.spawned.Running? && i < n
    ensures Run(t, Churn(a, i, n)) == Run(AfterDrop(AfterSpawn(t, a), NthIssue(a, i).token), Churn(a, i + 1, n))
  {
    hide AfterSpawn, AfterDrop, NthIssue;
    var x, y, rest := Spawn(a), Release(NthIssue(a, i).token), Churn(a, i + 1, n);
    assert ([x, y] + rest)[1..] == [y] + rest && ([y] + rest)[1..] == rest;
  }

  /**
    One spawn more than 2^32 is one too many. Whatever program the empty table can
    start: let it start and release it 2^32 times, always as the same process at the
    same tick. Its first token then names nothing; started once more, it is given
    that token again, and the token names something again.
   */
  lemma TokensRepeat(a: Attempt)
    requires Refuses(EMPTY, a).None?
    ensures a.spawned.Running?
    ensures var t := Run(EMPTY, Churn(a, 0, U32));
            && |t.issued| == U32 && Lookup(t.slots, t.issued[0].token) < 0
            && var t' := Next(t, Spawn(a));
               && |t'.issued| == U32 + 1 && t'.issued[0].token == t'.issued[U32].token
               && Lookup(t'.slots, t.issued[0].token) >= 0
  {
    StartsAgain(EMPTY, a);
    assert NoneUsed(EMPTY.slots) && EMPTY.serial == 0 && EMPTY.issued == [] && 0 % U32 == 0 && U32 > 0;
    ChurnIssues(EMPTY, a, 0, U32);
    var t := Run(EMPTY, Churn(a, 0, U32));
    ChurnOne(t, a, U32);
    assert NthIssue(a, U32) == NthIssue(a, 0) by { assert (U32 + 1) % U32 == 1 % U32; }
    hide Run, Churn, AfterSpawn, AfterDrop, NthIssue, Refuses;
  }
}
