/**
  bridge/src/server.rs, dispatch: many calls on the way at once. Limiter, breaker
  and device each sit behind a lock; between two locks of one call any steps of
  other calls may happen. A step of the state machine is one locked section of one
  call, and the audit record is a step of its own.
 */
module Dispatch {
  import opened Text
  import opened RateLimiter
  import opened Breaker

  datatype Setup = Setup(config: Config, policy: Policy)

  datatype Outcome = RateLimited | DeviceCircuitOpen | Relayed | DeviceError

  /** What the device makes of a call: an ok reply, an error reply, or no reply. */
  datatype Reply = Good | Faulty | Unreachable

  /** How far a call has come. */
  datatype Phase =
    | Arrived
    | Passed
    | Waiting
    | Holding
    | Answered(reply: Reply)
    | Settled(outcome: Outcome)
    | Done(outcome: Outcome)

  datatype Job = Job(tool: string, args: string, power: bool, phase: Phase)

  /** What has happened to a call, as the world outside it can see. */
  datatype What =
    | Metered(tool: string, ok: bool)
    | Gated(ok: bool)
    | Sent
    | Recorded(fine: bool)
    | Audited(tool: string, args: string, outcome: Outcome)

  datatype Mark = Mark(id: nat, at: nat, what: What)

  datatype World = World(
    jobs: seq<Job>, buckets: map<string, Bucket>, breaker: State, device: Option<nat>, trail: seq<Mark>)

  const START := World([], map[], FRESH, None, [])

  datatype Act = Limit | Ask | Lock | Hear(reply: Reply) | Record | Finish

  datatype Move = Arrive(tool: string, args: string, power: bool) | Do(id: nat, at: nat, act: Act)

  // ------------------------------------------------------------------
  // The steps
  // ------------------------------------------------------------------

  predicate Enabled(w: World, m: Move) {
    m.Arrive? ||
    (m.id < |w.jobs| &&
     var phase := w.jobs[m.id].phase;
     match m.act
     case Limit => phase == Arrived
     case Ask => phase == Passed
     case Lock => phase == Waiting && w.device.None?
     case Hear(_) => phase == Holding
     case Record => phase.Answered?
     case Finish => phase.Settled?)
  }

  /** What a step tells the world. */
  function Told(u: Setup, w: World, m: Move): seq<What>
    requires Enabled(w, m) && m.Do?
  {
    var job := w.jobs[m.id];
    match m.act
    case Limit => [Metered(job.tool, Spend(u.config, Look(w.buckets, job.tool), m.at).ok)]
    case Ask => [Gated(Admits(w.breaker, m.at))]
    case Lock => [Sent]
    case Hear(_) => []
    case Record => [Recorded(job.phase.reply == Good)]
    case Finish => if job.power then [Audited(job.tool, job.args, job.phase.outcome)] else []
  }

  function Onward(u: Setup, w: World, m: Move): Phase
    requires Enabled(w, m) && m.Do?
  {
    var job := w.jobs[m.id];
    match m.act
    case Limit => if Spend(u.config, Look(w.buckets, job.tool), m.at).ok then Passed else Settled(RateLimited)
    case Ask => if Admits(w.breaker, m.at) then Waiting else Settled(DeviceCircuitOpen)
    case Lock => Holding
    case Hear(r) => Answered(r)
    case Record => Settled(if job.phase.reply == Good then Relayed else DeviceError)
    case Finish => Done(job.phase.outcome)
  }

  function Stamped(id: nat, at: nat, ws: seq<What>): seq<Mark> {
    if |ws| == 0 then [] else [Mark(id, at, ws[0])] + Stamped(id, at, ws[1..])
  }

  /** The marks a step leaves; a step that is not enabled does not happen. */
  function Left(u: Setup, w: World, m: Move): seq<Mark> {
    if Enabled(w, m) && m.Do? then Stamped(m.id, m.at, Told(u, w, m)) else []
  }

  function Next(u: Setup, w: World, m: Move): World {
    if !Enabled(w, m) then w
    else if m.Arrive? then w.(jobs := w.jobs + [Job(m.tool, m.args, m.power, Arrived)])
    else
      var job := w.jobs[m.id];
      World(
        w.jobs[m.id := job.(phase := Onward(u, w, m))],
        if m.act == Limit then Acquired(u.config, w.buckets, job.tool, m.at) else w.buckets,
        if m.act == Ask then Step(u.policy, w.breaker, Admit(m.at))
        else if m.act == Record then
          Step(u.policy, w.breaker, if job.phase.reply == Good then Success(m.at) else Failure(m.at))
        else w.breaker,
        if m.act == Lock then Some(m.id) else if m.act.Hear? then None else w.device,
        w.trail + Left(u, w, m))
  }

  function Runs(u: Setup, w: World, ms: seq<Move>): World
    decreases |ms|
  {
    if |ms| == 0 then w else Runs(u, Next(u, w, ms[0]), ms[1..])
  }

  /** The marks that a run leaves. */
  function Made(u: Setup, w: World, ms: seq<Move>): seq<Mark>
    decreases |ms|
  {
    if |ms| == 0 then [] else Left(u, w, ms[0]) + Made(u, Next(u, w, ms[0]), ms[1..])
  }

  // ------------------------------------------------------------------
  // Reading a trail
  // ------------------------------------------------------------------

  function Gather<T>(ms: seq<Mark>, f: Mark -> seq<T>): seq<T> {
    if |ms| == 0 then [] else f(ms[0]) + Gather(ms[1..], f)
  }

  lemma {:induction false} GatherJoins<T>(a: seq<Mark>, b: seq<Mark>, f: Mark -> seq<T>)
    ensures Gather(a + b, f) == Gather(a, f) + Gather(b, f)
  {
    if |a| == 0 {
      assert a + b == b;
    } else {
      assert (a + b)[1..] == a[1..] + b;
      GatherJoins(a[1..], b, f);
    }
  }

  lemma GatherOne<T>(ms: seq<Mark>, f: Mark -> seq<T>)
    requires |ms| <= 1
    ensures Gather(ms, f) == if |ms| == 0 then [] else f(ms[0])
  {
    if |ms| == 1 { assert Gather(ms[1..], f) == []; }
  }

  /** What happened to one call. */
  function Own(id: nat): Mark -> seq<What> { (m: Mark) => if m.id == id then [m.what] else [] }

  function GateEvent(m: Mark): seq<Event> {
    match m.what
    case Gated(_) => [Admit(m.at)]
    case Recorded(fine) => [if fine then Success(m.at) else Failure(m.at)]
    case _ => []
  }

  function MeterCall(m: Mark): seq<Call> { if m.what.Metered? then [Call(m.what.tool, m.at)] else [] }

  function SentMark(m: Mark): seq<nat> { if m.what.Sent? then [m.id] else [] }

  /** All the buckets after a run of the limiter. */
  function Meters(c: Config, bs: map<string, Bucket>, calls: seq<Call>): map<string, Bucket>
    decreases |calls|
  {
    if |calls| == 0 then bs
    else Meters(c, Acquired(c, bs, calls[0].tool, calls[0].at), calls[1..])
  }

  // ------------------------------------------------------------------
  // Every reachable world
  // ------------------------------------------------------------------

  /**
    The whole story of a call at each point of its way: one device call and one
    recorded result if and only if limiter and breaker let it through, and one
    audit entry, with its outcome, at the end of a power call.
   */
  function Script(j: Job): seq<What> {
    match j.phase
    case Arrived => []
    case Passed => [Metered(j.tool, true)]
    case Waiting => [Metered(j.tool, true), Gated(true)]
    case Holding => [Metered(j.tool, true), Gated(true), Sent]
    case Answered(_) => [Metered(j.tool, true), Gated(true), Sent]
    case Settled(o) => Ending(j.tool, o)
    case Done(o) => Ending(j.tool, o) + if j.power then [Audited(j.tool, j.args, o)] else []
  }

  function Ending(tool: string, o: Outcome): seq<What> {
    match o
    case RateLimited => [Metered(tool, false)]
    case DeviceCircuitOpen => [Metered(tool, true), Gated(false)]
    case Relayed => [Metered(tool, true), Gated(true), Sent, Recorded(true)]
    case DeviceError => [Metered(tool, true), Gated(true), Sent, Recorded(false)]
  }

  /** Let through by the breaker, with no result recorded yet. */
  predicate InFlight(j: Job) { j.phase.Waiting? || j.phase.Holding? || j.phase.Answered? }

  predicate Told1(w: World, id: nat) {
    Gather(w.trail, Own(id)) == if id < |w.jobs| then Script(w.jobs[id]) else []
  }

  predicate DeviceHeld(w: World, id: nat) {
    w.device == Some(id) <==> id < |w.jobs| && w.jobs[id].phase == Holding
  }

  predicate Latched(w: World) {
    w.breaker.halfOpen ==> exists id :: 0 <= id < |w.jobs| && InFlight(w.jobs[id])
  }

  ghost predicate Inv(w: World) {
    && (forall id: nat :: Told1(w, id))
    && (forall id: nat :: DeviceHeld(w, id))
    && Latched(w)
  }

  /** A step of one call leaves marks of that call alone, and moves its story on by exactly those. */
  lemma StepTells(u: Setup, w: World, m: Move, id: nat)
    requires Enabled(w, m)
    ensures var w' := Next(u, w, m);
            m.Do? && id == m.id ==> Script(w'.jobs[id]) == Script(w.jobs[id]) + Told(u, w, m)
    ensures var w' := Next(u, w, m);
            !(m.Do? && id == m.id) ==> id < |w.jobs| ==> Script(w'.jobs[id]) == Script(w.jobs[id])
  {
    hide Spend, Admits, Step, Acquired;
  }

  lemma StampedIs(u: Setup, w: World, m: Move)
    requires Enabled(w, m)
    ensures Next(u, w, m).trail == w.trail + Left(u, w, m)
    ensures |Left(u, w, m)| <= 1
    ensures m.Do? ==> forall id: nat :: Gather(Left(u, w, m), Own(id)) == if id == m.id then Told(u, w, m) else []
    ensures m.Arrive? ==> Left(u, w, m) == []
  {
    hide Spend, Admits, Step, Acquired;
    if m.Do? {
      assert Left(u, w, m) == Stamped(m.id, m.at, Told(u, w, m));
      if |Told(u, w, m)| == 1 {
        assert Stamped(m.id, m.at, Told(u, w, m)) == [Mark(m.id, m.at, Told(u, w, m)[0])];
      }
      forall id: nat { GatherOne(Left(u, w, m), Own(id)); }
    }
  }

  lemma StepKeepsTold(u: Setup, w: World, m: Move, id: nat)
    requires Told1(w, id)
    ensures Told1(Next(u, w, m), id)
  {
    if Enabled(w, m) {
      StampedIs(u, w, m);
      StepTells(u, w, m, id);
      var w' := Next(u, w, m);
      assert |w'.jobs| == |w.jobs| + One(m.Arrive?);
      assert m.Arrive? ==> id == |w.jobs| ==> Script(w'.jobs[id]) == [];
      hide Next, Left, Told, Enabled, Script, Own;
      GatherJoins(w.trail, Left(u, w, m), Own(id));
    }
  }

  lemma StepKeepsLatch(u: Setup, w: World, m: Move)
    requires Latched(w)
    ensures Latched(Next(u, w, m))
  {
    hide Spend, Acquired, Left;
    var w' := Next(u, w, m);
    if w'.breaker.halfOpen {
      if w.breaker.halfOpen {
        var id :| 0 <= id < |w.jobs| && InFlight(w.jobs[id]);
        assert InFlight(w'.jobs[id]);
      } else {
        assert InFlight(w'.jobs[m.id]);
      }
    }
  }

  lemma StepKeepsDevice(u: Setup, w: World, m: Move, id: nat)
    requires forall i: nat :: DeviceHeld(w, i)
    ensures DeviceHeld(Next(u, w, m), id)
  {
    hide Spend, Acquired, Left, Step, Admits;
    assert DeviceHeld(w, id);
    if Enabled(w, m) && m.Do? { assert DeviceHeld(w, m.id); }
  }

  lemma StepKeepsAll(u: Setup, w: World, m: Move)
    requires Inv(w)
    ensures Inv(Next(u, w, m))
  {
    forall id: nat ensures Told1(Next(u, w, m), id) && DeviceHeld(Next(u, w, m), id) {
      StepKeepsTold(u, w, m, id);
      StepKeepsDevice(u, w, m, id);
    }
    StepKeepsLatch(u, w, m);
  }

  /** In whatever order the steps of any number of calls come, every call has lived exactly its script. */
  lemma {:induction false} EveryRunKeepsInv(u: Setup, w: World, ms: seq<Move>)
    requires Inv(w)
    ensures Inv(Runs(u, w, ms))
    decreases |ms|
  {
    hide Inv, Next;
    if |ms| > 0 {
      StepKeepsAll(u, w, ms[0]);
      EveryRunKeepsInv(u, Next(u, w, ms[0]), ms[1..]);
    }
  }

  lemma StartIsInv()
    ensures Inv(START)
  {}

  function Audits(ws: seq<What>): seq<What> { if |ws| == 0 then [] else (if ws[0].Audited? then [ws[0]] else []) + Audits(ws[1..]) }

  function Times(ws: seq<What>, w: What): nat { if |ws| == 0 then 0 else One(ws[0] == w) + Times(ws[1..], w) }

  /**
    From the start, through any interleaving: a finished call has one audit entry
    with its outcome if it is a power call and none if not; it reached the device
    once and recorded one result if the breaker let it through, and otherwise
    neither.
   */
  lemma FinishedCallIsAccounted(u: Setup, ms: seq<Move>, w: World, id: nat)
    requires w == Runs(u, START, ms) && id < |w.jobs| && w.jobs[id].phase.Done?
    ensures var (j, own) := (w.jobs[id], Gather(w.trail, Own(id)));
            && Audits(own) == (if j.power then [Audited(j.tool, j.args, j.phase.outcome)] else [])
            && Times(own, Sent) == Times(own, Gated(true)) == Times(own, Recorded(true)) + Times(own, Recorded(false))
            && Times(own, Sent) == One(j.phase.outcome in {Relayed, DeviceError})
            && (Times(own, Recorded(true)) == 1 <==> j.phase.outcome == Relayed)
  {
    hide Spend, Step, Admits, Next, Runs, Gather, Own;
    StartIsInv();
    EveryRunKeepsInv(u, START, ms);
    assert Told1(w, id);
    var j := w.jobs[id];
    ScriptIsAccounted(j);
  }

  lemma TimesJoin(a: seq<What>, b: seq<What>, w: What)
    requires |b| <= 1
    ensures Times(a + b, w) == Times(a, w) + One(|b| == 1 && b[0] == w)
    ensures Audits(a + b) == Audits(a) + if |b| == 1 && b[0].Audited? then b else []
  {
    if |a| == 0 {
      assert a + b == b;
      if |b| == 1 { assert b[1..] == []; }
    } else {
      assert (a + b)[1..] == a[1..] + b;
      TimesJoin(a[1..], b, w);
    }
  }

  lemma EndingIsAccounted(tool: string, o: Outcome)
    ensures var own := Ending(tool, o);
            && Audits(own) == []
            && Times(own, Sent) == Times(own, Gated(true)) == Times(own, Recorded(true)) + Times(own, Recorded(false))
            && Times(own, Sent) == One(o in {Relayed, DeviceError})
            && Times(own, Recorded(true)) == One(o == Relayed)
  {
    hide Times, Audits;
    var end := if o == DeviceCircuitOpen then Gated(false) else Recorded(o == Relayed);
    NothingTold();
    TimesHead(Metered(tool, false), []);
    TimesHead(end, []);
    TimesHead(Sent, [end]);
    TimesHead(Gated(true), [Sent] + [end]);
    TimesHead(Metered(tool, true), [end]);
    TimesHead(Metered(tool, true), [Gated(true)] + ([Sent] + [end]));
    assert Ending(tool, o) ==
      match o
      case RateLimited => [Metered(tool, false)] + []
      case DeviceCircuitOpen => [Metered(tool, true)] + ([end] + [])
      case _ => [Metered(tool, true)] + ([Gated(true)] + ([Sent] + [end]));
    assert [end] + [] == [end];
  }

  lemma NothingTold()
    ensures Audits([]) == [] && forall w :: Times([], w) == 0
  {}

  lemma TimesHead(x: What, ws: seq<What>)
    ensures Audits([x] + ws) == (if x.Audited? then [x] else []) + Audits(ws)
    ensures forall w :: Times([x] + ws, w) == One(x == w) + Times(ws, w)
  {
    assert ([x] + ws)[1..] == ws;
  }

  lemma ScriptIsAccounted(j: Job)
    requires j.phase.Done?
    ensures var own := Script(j);
            && Audits(own) == (if j.power then [Audited(j.tool, j.args, j.phase.outcome)] else [])
            && Times(own, Sent) == Times(own, Gated(true)) == Times(own, Recorded(true)) + Times(own, Recorded(false))
            && Times(own, Sent) == One(j.phase.outcome in {Relayed, DeviceError})
            && Times(own, Recorded(true)) == One(j.phase.outcome == Relayed)
  {
    hide Audits, Times, Ending;
    var a, b := Ending(j.tool, j.phase.outcome), if j.power then [Audited(j.tool, j.args, j.phase.outcome)] else [];
    EndingIsAccounted(j.tool, j.phase.outcome);
    TimesJoin(a, b, Sent);
    TimesJoin(a, b, Gated(true));
    TimesJoin(a, b, Recorded(true));
    TimesJoin(a, b, Recorded(false));
  }

  /** With no call in flight the breaker waits for nothing: it lets a trial through once its time has come. */
  lemma NeverWedged(u: Setup, ms: seq<Move>, w: World, now: nat)
    requires w == Runs(u, START, ms) && forall id :: 0 <= id < |w.jobs| ==> !InFlight(w.jobs[id])
    requires w.breaker.openUntil.Some? ==> w.breaker.openUntil.value <= now
    ensures Admits(w.breaker, now)
  {
    hide Next, Runs, Told1, DeviceHeld;
    StartIsInv();
    EveryRunKeepsInv(u, START, ms);
  }

  // ------------------------------------------------------------------
  // Progress
  // ------------------------------------------------------------------

  function Sum(js: seq<Job>, f: Job -> nat): nat {
    if |js| == 0 then 0 else f(js[|js| - 1]) + Sum(js[..|js| - 1], f)
  }

  lemma {:induction false} SumUpdates(js: seq<Job>, f: Job -> nat, id: nat, j: Job)
    requires id < |js|
    ensures Sum(js[id := j], f) + f(js[id]) == Sum(js, f) + f(j)
  {
    var k := |js| - 1;
    if id < k {
      assert js[id := j][..k] == js[..k][id := j];
      SumUpdates(js[..k], f, id, j);
    } else {
      assert js[id := j][..k] == js[..k];
    }
  }

  lemma SumGrows(js: seq<Job>, f: Job -> nat, j: Job)
    ensures Sum(js + [j], f) == Sum(js, f) + f(j)
  {
    assert (js + [j])[..|js|] == js;
  }

  /** The steps that a call has before it at most. */
  function ToGo(j: Job): nat {
    match j.phase
    case Arrived => 6
    case Passed => 5
    case Waiting => 4
    case Holding => 3
    case Answered(_) => 2
    case Settled(_) => 1
    case Done(_) => 0
  }

  /** Every step that happens brings its call closer to its end; a refused one does not happen. */
  lemma StepsRunOut(u: Setup, w: World, m: Move)
    ensures var w' := Next(u, w, m);
            if !Enabled(w, m) then w' == w
            else if m.Arrive? then Sum(w'.jobs, ToGo) == Sum(w.jobs, ToGo) + 6
            else Sum(w'.jobs, ToGo) < Sum(w.jobs, ToGo)
  {
    hide Spend, Admits, Step, Acquired, Left, Sum;
    if Enabled(w, m) {
      if m.Do? {
        SumUpdates(w.jobs, ToGo, m.id, w.jobs[m.id].(phase := Onward(u, w, m)));
      } else {
        SumGrows(w.jobs, ToGo, Job(m.tool, m.args, m.power, Arrived));
      }
    }
  }

  /** While a call is unfinished some call can move: the device lock is never held for nothing. */
  lemma NoDeadlock(u: Setup, ms: seq<Move>, w: World, id: nat, at: nat)
    requires w == Runs(u, START, ms) && id < |w.jobs| && !w.jobs[id].phase.Done?
    ensures exists k: nat, a :: Enabled(w, Do(k, at, a))
  {
    hide Next, Runs, Told1, Latched;
    StartIsInv();
    EveryRunKeepsInv(u, START, ms);
    match w.jobs[id].phase {
      case Arrived => assert Enabled(w, Do(id, at, Limit));
      case Passed => assert Enabled(w, Do(id, at, Ask));
      case Waiting =>
        if w.device.None? {
          assert Enabled(w, Do(id, at, Lock));
        } else {
          assert DeviceHeld(w, w.device.value);
          assert Enabled(w, Do(w.device.value, at, Hear(Good)));
        }
      case Holding => assert Enabled(w, Do(id, at, Hear(Good)));
      case Answered(_) => assert Enabled(w, Do(id, at, Record));
      case Settled(_) => assert Enabled(w, Do(id, at, Finish));
    }
  }

  // ------------------------------------------------------------------
  // The shared state replays the trail
  // ------------------------------------------------------------------

  function AtGate(j: Job): nat { One(j.phase == Waiting) }

  function LetThrough(m: Mark): seq<nat> { if m.what == Gated(true) then [m.id] else [] }

  function LetPast(tool: string): Mark -> seq<nat> { (m: Mark) => if m.what == Metered(tool, true) then [m.id] else [] }

  /** The breaker is where its own part of the new marks takes it, and what it let through is marked. */
  predicate BreakerReplays(u: Setup, w: World, w': World, made: seq<Mark>) {
    && w'.breaker == Run(u.policy, w.breaker, Gather(made, GateEvent))
    && |Trials(u.policy, w.breaker, Gather(made, GateEvent))| == |Gather(made, LetThrough)|
  }

  predicate LimiterReplays(u: Setup, w: World, w': World, made: seq<Mark>, tool: string) {
    && w'.buckets == Meters(u.config, w.buckets, Gather(made, MeterCall))
    && AdmittedOf(u.config, w.buckets, Gather(made, MeterCall), tool) == |Gather(made, LetPast(tool))|
  }

  /** Device calls made, and calls at the device's door, are the calls let through. */
  predicate CallsConserved(w: World, w': World, made: seq<Mark>) {
    |Gather(made, SentMark)| + Sum(w'.jobs, AtGate) == Sum(w.jobs, AtGate) + |Gather(made, LetThrough)|
  }

  lemma LeftIs(u: Setup, w: World, m: Move)
    ensures var made := Left(u, w, m);
            if Enabled(w, m) && m.Do? && |Told(u, w, m)| > 0 then made == [Mark(m.id, m.at, Told(u, w, m)[0])] else made == []
  {
    hide Spend, Admits;
    if Enabled(w, m) && m.Do? && |Told(u, w, m)| > 0 {
      var ws := Told(u, w, m);
      assert |ws| == 1;
      assert Stamped(m.id, m.at, ws) == [Mark(m.id, m.at, ws[0])] + Stamped(m.id, m.at, ws[1..]);
      assert Stamped(m.id, m.at, ws[1..]) == [];
    }
  }

  lemma NoBreakerEvents(p: Policy, s: State)
    ensures Run(p, s, []) == s && Trials(p, s, []) == []
  {}

  lemma OneBreakerEvent(p: Policy, s: State, e: Event)
    ensures Run(p, s, [e]) == Step(p, s, e)
    ensures Trials(p, s, [e]) == if e.Admit? && Admits(s, e.at) then [e.at] else []
  {
    hide Step, Admits;
    assert [e][1..] == [];
    NoBreakerEvents(p, Step(p, s, e));
  }

  lemma OneMeterCall(c: Config, bs: map<string, Bucket>, call: Call, tool: string)
    ensures Meters(c, bs, [call]) == Acquired(c, bs, call.tool, call.at)
    ensures AdmittedOf(c, bs, [call], tool) == One(Spend(c, Look(bs, call.tool), call.at).ok && call.tool == tool)
  {
    hide Acquired, Spend;
    assert [call][1..] == [];
    assert AdmittedOf(c, Acquired(c, bs, call.tool, call.at), [], tool) == 0;
  }

  lemma StepReplaysBreaker(u: Setup, w: World, m: Move)
    ensures BreakerReplays(u, w, Next(u, w, m), Left(u, w, m))
  {
    hide Spend, Admits, Step, Acquired, Left, Gather, Run, Trials;
    var made := Left(u, w, m);
    LeftIs(u, w, m);
    GatherOne(made, GateEvent);
    GatherOne(made, LetThrough);
    NoBreakerEvents(u.policy, w.breaker);
    if |made| > 0 && |GateEvent(made[0])| > 0 { OneBreakerEvent(u.policy, w.breaker, GateEvent(made[0])[0]); }
  }

  lemma StepReplaysLimiter(u: Setup, w: World, m: Move, tool: string)
    ensures LimiterReplays(u, w, Next(u, w, m), Left(u, w, m), tool)
  {
    var made := Left(u, w, m);
    LeftIs(u, w, m);
    GatherOne(made, MeterCall);
    GatherOne(made, LetPast(tool));
    if |made| > 0 && |MeterCall(made[0])| > 0 { OneMeterCall(u.config, w.buckets, MeterCall(made[0])[0], tool); }
    hide Spend, Admits, Step, Acquired, Left, Gather;
  }

  lemma StepConserves(u: Setup, w: World, m: Move)
    ensures CallsConserved(w, Next(u, w, m), Left(u, w, m))
  {
    hide Spend, Admits, Step, Acquired, Sum;
    var made := Left(u, w, m);
    LeftIs(u, w, m);
    GatherOne(made, SentMark);
    GatherOne(made, LetThrough);
    hide Left, Gather;
    if Enabled(w, m) {
      if m.Do? {
        SumUpdates(w.jobs, AtGate, m.id, w.jobs[m.id].(phase := Onward(u, w, m)));
      } else {
        SumGrows(w.jobs, AtGate, Job(m.tool, m.args, m.power, Arrived));
      }
    }
  }

  lemma {:induction false} RunReplaysBreaker(u: Setup, w: World, ms: seq<Move>)
    ensures BreakerReplays(u, w, Runs(u, w, ms), Made(u, w, ms))
    decreases |ms|
  {
    hide Next, Left, Run, Trials, Gather;
    if |ms| == 0 {
      GatherOne<Event>([], GateEvent);
      GatherOne<nat>([], LetThrough);
      NoBreakerEvents(u.policy, w.breaker);
    } else {
      var w1 := Next(u, w, ms[0]);
      var (a, b) := (Left(u, w, ms[0]), Made(u, w1, ms[1..]));
      StepReplaysBreaker(u, w, ms[0]);
      RunReplaysBreaker(u, w1, ms[1..]);
      GatherJoins(a, b, GateEvent);
      GatherJoins(a, b, LetThrough);
      RunsJoinEvents(u.policy, w.breaker, Gather(a, GateEvent), Gather(b, GateEvent));
    }
  }

  lemma {:induction false} MetersJoin(c: Config, bs: map<string, Bucket>, xs: seq<Call>, ys: seq<Call>, tool: string)
    ensures Meters(c, bs, xs + ys) == Meters(c, Meters(c, bs, xs), ys)
    ensures AdmittedOf(c, bs, xs + ys, tool) == AdmittedOf(c, bs, xs, tool) + AdmittedOf(c, Meters(c, bs, xs), ys, tool)
    decreases |xs|
  {
    hide Acquired, Spend;
    if |xs| == 0 {
      assert xs + ys == ys;
    } else {
      assert (xs + ys)[1..] == xs[1..] + ys;
      MetersJoin(c, Acquired(c, bs, xs[0].tool, xs[0].at), xs[1..], ys, tool);
    }
  }

  lemma {:induction false} RunReplaysLimiter(u: Setup, w: World, ms: seq<Move>, tool: string)
    ensures LimiterReplays(u, w, Runs(u, w, ms), Made(u, w, ms), tool)
    decreases |ms|
  {
    hide Next, Left, Gather;
    if |ms| == 0 {
      GatherOne<Call>([], MeterCall);
      GatherOne<nat>([], LetPast(tool));
    } else {
      var w1 := Next(u, w, ms[0]);
      var (a, b) := (Left(u, w, ms[0]), Made(u, w1, ms[1..]));
      StepReplaysLimiter(u, w, ms[0], tool);
      RunReplaysLimiter(u, w1, ms[1..], tool);
      GatherJoins(a, b, MeterCall);
      GatherJoins(a, b, LetPast(tool));
      hide Meters, AdmittedOf;
      MetersJoin(u.config, w.buckets, Gather(a, MeterCall), Gather(b, MeterCall), tool);
    }
  }

  lemma {:induction false} RunConserves(u: Setup, w: World, ms: seq<Move>)
    ensures CallsConserved(w, Runs(u, w, ms), Made(u, w, ms))
    decreases |ms|
  {
    hide Next, Left, Gather, Sum;
    if |ms| == 0 {
      GatherOne<nat>([], SentMark);
      GatherOne<nat>([], LetThrough);
    } else {
      var w1 := Next(u, w, ms[0]);
      var (a, b) := (Left(u, w, ms[0]), Made(u, w1, ms[1..]));
      StepConserves(u, w, ms[0]);
      RunConserves(u, w1, ms[1..]);
      GatherJoins(a, b, SentMark);
      GatherJoins(a, b, LetThrough);
    }
  }

  // ------------------------------------------------------------------
  // The load on the device
  // ------------------------------------------------------------------

  /** The steps' times never go back, from `first` to `last`. */
  predicate InTime(ms: seq<Move>, first: nat, last: nat)
    decreases |ms|
  {
    if |ms| == 0 then first <= last
    else if ms[0].Arrive? then InTime(ms[1..], first, last)
    else first <= ms[0].at && InTime(ms[1..], ms[0].at, last)
  }

  lemma TimedCons(e: Event, es: seq<Event>, first: nat, last: nat)
    requires first <= e.at && Timed(es, e.at, last)
    ensures Timed([e] + es, first, last)
  {}

  lemma TimedSooner(es: seq<Event>, first: nat, then_: nat, last: nat)
    requires first <= then_ && Timed(es, then_, last)
    ensures Timed(es, first, last)
  {}

  lemma {:induction false} MarksAreTimed(u: Setup, w: World, ms: seq<Move>, first: nat, last: nat)
    requires InTime(ms, first, last)
    ensures Timed(Gather(Made(u, w, ms), GateEvent), first, last)
    decreases |ms|
  {
    hide Next, Left, Gather, Timed;
    if |ms| == 0 {
      GatherOne<Event>([], GateEvent);
      assert Timed([], first, last) by { NothingTimed(first, last); }
    } else {
      var w1, m := Next(u, w, ms[0]), ms[0];
      var (a, b) := (Left(u, w, m), Made(u, w1, ms[1..]));
      LeftIs(u, w, m);
      GatherOne(a, GateEvent);
      GatherJoins(a, b, GateEvent);
      var es := Gather(b, GateEvent);
      if m.Arrive? {
        MarksAreTimed(u, w1, ms[1..], first, last);
        assert Gather(a, GateEvent) + es == es;
      } else {
        MarksAreTimed(u, w1, ms[1..], m.at, last);
        TimedSooner(es, first, m.at, last);
        if |a| > 0 && |GateEvent(a[0])| > 0 {
          TimedCons(GateEvent(a[0])[0], es, first, last);
        } else {
          assert Gather(a, GateEvent) + es == es;
        }
      }
    }
  }

  lemma NothingTimed(first: nat, last: nat)
    requires first <= last
    ensures Timed([], first, last)
  {}

  /** No success is recorded among the marks. */
  predicate NoneFine(made: seq<Mark>) { forall k :: 0 <= k < |made| ==> made[k].what != Recorded(true) }

  lemma {:induction false} NoneFineIsNoSuccess(made: seq<Mark>)
    requires NoneFine(made)
    ensures NoSuccess(Gather(made, GateEvent))
  {
    if |made| > 0 {
      NoneFineIsNoSuccess(made[1..]);
    }
  }

  lemma ReplayIs(u: Setup, w: World, w': World, made: seq<Mark>)
    requires BreakerReplays(u, w, w', made)
    ensures w'.breaker == Run(u.policy, w.breaker, Gather(made, GateEvent))
  {
    hide Run, Gather;
  }

  lemma FreshIsSane(p: Policy)
    requires ValidPolicy(p)
    ensures START.breaker == FRESH && Sane(p, FRESH, 0)
  {}

  /** The breaker of every reachable world keeps what a breaker keeps. */
  lemma ReachedBreakerIsSane(u: Setup, ms: seq<Move>, now: nat)
    requires ValidPolicy(u.policy) && InTime(ms, 0, now)
    ensures Sane(u.policy, Runs(u, START, ms).breaker, now)
  {
    hide *;
    MarksAreTimed(u, START, ms, 0, now);
    RunReplaysBreaker(u, START, ms);
    ReplayIs(u, START, Runs(u, START, ms), Made(u, START, ms));
    FreshIsSane(u.policy);
    RunKeepsSane(u.policy, FRESH, Gather(Made(u, START, ms), GateEvent), 0, now);
  }

  /**
    The device's load while it does not recover: after a failure recorded at T has
    opened the breaker, and while no success is recorded, the device is called at
    most by the calls already let through and once for each cooldown since.
   */
  lemma DeviceLoad(u: Setup, past: seq<Move>, before: World, id: nat, T: nat, w: World, ms: seq<Move>, last: nat)
    requires ValidPolicy(u.policy) && u.policy.cooldown > 0
    requires InTime(past, 0, T) && InTime(ms, T, last) && T <= last
    requires before == Runs(u, START, past) && Enabled(before, Do(id, T, Record)) && before.jobs[id].phase.reply != Good
    requires w == Next(u, before, Do(id, T, Record)) && w.breaker.openUntil.Some? && NoneFine(Made(u, w, ms))
    ensures |Gather(Made(u, w, ms), SentMark)| <= Sum(w.jobs, AtGate) + (last - T) / u.policy.cooldown
  {
    ReachedBreakerIsSane(u, past, T);
    assert w.breaker == Step(u.policy, before.breaker, Failure(T));
    hide Next, Runs, Made, Gather, Sum, Run, Trials, Enabled, NoSuccess, Timed, Step, Sane;
    var made := Made(u, w, ms);
    MarksAreTimed(u, w, ms, T, last);
    RunReplaysBreaker(u, w, ms);
    RunConserves(u, w, ms);
    NoneFineIsNoSuccess(made);
    LoadAfterTrip(u.policy, before.breaker, T, Gather(made, GateEvent), last);
  }

  // ------------------------------------------------------------------
  // The load of one tool
  // ------------------------------------------------------------------

  predicate Between(ts: seq<nat>, first: nat, last: nat) {
    Ordered(ts) && forall k :: 0 <= k < |ts| ==> first <= ts[k] <= last
  }

  lemma BetweenCons(t: nat, ts: seq<nat>, first: nat, last: nat)
    requires first <= t <= last && Between(ts, t, last)
    ensures Between([t] + ts, first, last)
  {}

  lemma BetweenSooner(ts: seq<nat>, first: nat, t: nat, last: nat)
    requires first <= t && Between(ts, t, last)
    ensures Between(ts, first, last)
  {}

  lemma {:induction false} TimesJoinOf(a: seq<Call>, b: seq<Call>, tool: string)
    ensures TimesOf(a + b, tool) == TimesOf(a, tool) + TimesOf(b, tool)
  {
    if |a| == 0 {
      assert a + b == b;
    } else {
      assert (a + b)[1..] == a[1..] + b && (a + b)[0] == a[0];
      TimesJoinOf(a[1..], b, tool);
      var h := if a[0].tool == tool then [a[0].at] else [];
      assert h + (TimesOf(a[1..], tool) + TimesOf(b, tool)) == (h + TimesOf(a[1..], tool)) + TimesOf(b, tool);
    }
  }

  lemma InTimeEnds(ms: seq<Move>, first: nat, last: nat)
    requires InTime(ms, first, last)
    ensures first <= last
    decreases |ms|
  {
    if |ms| > 0 { InTimeEnds(ms[1..], if ms[0].Arrive? then first else ms[0].at, last); }
  }

  lemma {:induction false} CallsAreTimed(u: Setup, w: World, ms: seq<Move>, tool: string, first: nat, last: nat)
    requires InTime(ms, first, last)
    ensures Between(TimesOf(Gather(Made(u, w, ms), MeterCall), tool), first, last)
    decreases |ms|
  {
    hide Next, Left, Gather, Between, TimesOf;
    if |ms| == 0 {
      GatherOne<Call>([], MeterCall);
      assert Between(TimesOf([], tool), first, last) by { NoTimes(tool, first, last); }
    } else {
      var w1, m := Next(u, w, ms[0]), ms[0];
      var (a, b) := (Left(u, w, m), Made(u, w1, ms[1..]));
      LeftIs(u, w, m);
      GatherOne(a, MeterCall);
      GatherJoins(a, b, MeterCall);
      var xs, ys := Gather(a, MeterCall), Gather(b, MeterCall);
      TimesJoinOf(xs, ys, tool);
      var from := if m.Arrive? then first else m.at;
      CallsAreTimed(u, w1, ms[1..], tool, from, last);
      InTimeEnds(ms[1..], from, last);
      BetweenSooner(TimesOf(ys, tool), first, from, last);
      OneTime(xs, tool);
      if |TimesOf(xs, tool)| > 0 {
        BetweenCons(m.at, TimesOf(ys, tool), first, last);
      } else {
        assert [] + TimesOf(ys, tool) == TimesOf(ys, tool);
      }
    }
  }

  lemma NoTimes(tool: string, first: nat, last: nat)
    ensures Between(TimesOf([], tool), first, last)
  {}

  lemma OneTime(calls: seq<Call>, tool: string)
    requires |calls| <= 1
    ensures TimesOf(calls, tool) == if |calls| == 1 && calls[0].tool == tool then [calls[0].at] else []
  {
    if |calls| == 1 { assert TimesOf(calls[1..], tool) == []; }
  }

  /** Between steps no bucket is full and none was refilled in the future. */
  ghost predicate BucketsSane(c: Config, bs: map<string, Bucket>, now: nat) {
    forall tool :: tool in bs ==> bs[tool].tokens < c.capacity && bs[tool].lastRefill <= now
  }

  lemma {:induction false} BucketsStaySane(u: Setup, w: World, ms: seq<Move>, first: nat, last: nat)
    requires ValidConfig(u.config) && BucketsSane(u.config, w.buckets, first) && InTime(ms, first, last)
    ensures BucketsSane(u.config, Runs(u, w, ms).buckets, last)
    decreases |ms|
  {
    InTimeEnds(ms, first, last);
    if |ms| > 0 {
      hide Spend, Step, Admits, Left, InTime;
      var m := ms[0];
      assert InTime(ms[1..], if m.Arrive? then first else m.at, last) by { InTimeRest(ms, first, last); }
      if Enabled(w, m) && m.Do? && m.act == Limit {
        InTimeRest(ms, first, last);
        SpentIsBelowCapacity(u.config, Look(w.buckets, w.jobs[m.id].tool), m.at);
      }
      BucketsStaySane(u, Next(u, w, m), ms[1..], if m.Arrive? then first else m.at, last);
    }
  }

  lemma InTimeRest(ms: seq<Move>, first: nat, last: nat)
    requires |ms| > 0 && InTime(ms, first, last)
    ensures ms[0].Do? ==> first <= ms[0].at
    ensures InTime(ms[1..], if ms[0].Arrive? then first else ms[0].at, last)
  {}

  /**
    Through any interleaving, the calls of one tool that the limiter lets past
    between `first` and `last` are at most the capacity and one for each interval
    begun, whatever other tools do; if the tool is new, one for each whole
    interval.
   */
  lemma ToolLoad(u: Setup, past: seq<Move>, w: World, ms: seq<Move>, tool: string, first: nat, last: nat)
    requires ValidConfig(u.config) && u.config.interval > 0
    requires InTime(past, 0, first) && InTime(ms, first, last) && first <= last
    requires w == Runs(u, START, past)
    requires InRange(u.config, Look(w.buckets, tool), TimesOf(Gather(Made(u, w, ms), MeterCall), tool))
    ensures var n, d := |Gather(Made(u, w, ms), LetPast(tool))|, last - first;
            n <= u.config.capacity + if tool in w.buckets then CeilDiv(d, u.config.interval) else d / u.config.interval
  {
    BucketsStaySane(u, START, past, 0, first);
    var c, calls := u.config, Gather(Made(u, w, ms), MeterCall);
    var b, ts := Look(w.buckets, tool), TimesOf(calls, tool);
    RunReplaysLimiter(u, w, ms, tool);
    ToolsAreIndependent(c, w.buckets, calls, tool);
    CallsAreTimed(u, w, ms, tool, first, last);
    hide Made, Gather, Runs, Meters, AdmittedOf, Admitted, Acquired, TimesOf, InRange, CeilDiv, Between, InTime;
    BucketLoad(c, b, ts, first, last);
  }

  lemma BucketLoad(c: Config, b: Option<Bucket>, ts: seq<nat>, first: nat, last: nat)
    requires ValidConfig(c) && c.interval > 0 && first <= last && Between(ts, first, last) && InRange(c, b, ts)
    requires b.Some? ==> b.value.tokens < c.capacity && b.value.lastRefill <= first
    ensures var d := last - first; Admitted(c, b, ts) <= c.capacity + if b.Some? then CeilDiv(d, c.interval) else d / c.interval
  {
    if |ts| > 0 {
      var d := ts[|ts| - 1] - ts[0];
      assert 0 <= d <= last - first;
      hide Spend, InRange, CeilDiv, Admitted;
      if b.Some? {
        AdmittedInWindow(c, b.value, ts, d);
        CeilGrows(d, last - first, c.interval);
      } else {
        AdmittedSinceCreation(c, ts);
        DivGrows(d, last - first, c.interval);
      }
    } else {
      DivGrows(0, last - first, c.interval);
      CeilGrows(0, last - first, c.interval);
    }
  }

  lemma {:induction false} MetersFollow(c: Config, bs: map<string, Bucket>, calls: seq<Call>, tool: string)
    ensures Look(Meters(c, bs, calls), tool) == After(c, Look(bs, tool), TimesOf(calls, tool))
    decreases |calls|
  {
    hide Spend;
    if |calls| > 0 {
      var call := calls[0];
      MetersFollow(c, Acquired(c, bs, call.tool, call.at), calls[1..], tool);
      var rest := TimesOf(calls[1..], tool);
      assert TimesOf(calls, tool) == if call.tool == tool then [call.at] + rest else rest;
      if call.tool == tool { assert ([call.at] + rest)[1..] == rest; }
    }
  }

  lemma BetweenJoins(xs: seq<nat>, ys: seq<nat>, first: nat, mid: nat, last: nat)
    requires Between(xs, first, mid) && Between(ys, mid, last) && first <= mid <= last
    ensures Between(xs + ys, first, last)
  {}

  lemma BetweenIsShort(c: Config, ts: seq<nat>, first: nat, last: nat)
    requires Between(ts, first, last) && last < first + Span(U32, c.interval) && ValidConfig(c) && c.interval > 0
    ensures InRange(c, None, ts)
  {
    hide Span, InRange;
    ShortRunIsInRange(c, None, ts, first);
  }

  /**
    The same on clock times alone: it holds of every run that is shorter than 2^32
    intervals from the bridge's start.
   */
  lemma ToolLoadInUptime(u: Setup, past: seq<Move>, w: World, ms: seq<Move>, tool: string, start: nat, first: nat, last: nat)
    requires ValidConfig(u.config) && u.config.interval > 0 && w == Runs(u, START, past)
    requires InTime(past, start, first) && InTime(ms, first, last) && last < start + Span(U32, u.config.interval)
    ensures var n, d := |Gather(Made(u, w, ms), LetPast(tool))|, last - first;
            first <= last
            && n <= u.config.capacity + if tool in w.buckets then CeilDiv(d, u.config.interval) else d / u.config.interval
  {
    var c := u.config;
    var before, calls := Gather(Made(u, START, past), MeterCall), Gather(Made(u, w, ms), MeterCall);
    InTimeEnds(past, start, first);
    InTimeEnds(ms, first, last);
    InTimeSooner(past, start, first);
    RunReplaysLimiter(u, START, past, tool);
    CallsAreTimed(u, START, past, tool, start, first);
    CallsAreTimed(u, w, ms, tool, first, last);
    assert START.buckets == map[];
    hide Made, Gather, Runs, Meters, AdmittedOf, Acquired, TimesOf, InRange, CeilDiv, Between, InTime, Span, After, Admitted;
    MetersFollow(c, map[], before, tool);
    var xs, ys := TimesOf(before, tool), TimesOf(calls, tool);
    BetweenJoins(xs, ys, start, first, last);
    BetweenIsShort(c, xs + ys, start, last);
    InRangeJoins(c, None, xs, ys);
    ToolLoad(u, past, w, ms, tool, first, last);
  }

  /**
    Nor is a tool refused that keeps to its rate: in every interleaving from the
    bridge's start, if the calls of one tool that reach the limiter are in no window
    more than the capacity and one for each whole interval, all are let past.
   */
  lemma ConformingToolIsLetPast(u: Setup, ms: seq<Move>, tool: string, start: nat, last: nat)
    requires ValidConfig(u.config) && u.config.interval > 0
    requires InTime(ms, start, last) && last < start + Span(U32, u.config.interval)
    requires Conforms(u.config, TimesOf(Gather(Made(u, START, ms), MeterCall), tool))
    ensures |Gather(Made(u, START, ms), LetPast(tool))| == |TimesOf(Gather(Made(u, START, ms), MeterCall), tool)|
  {
    var c, calls := u.config, Gather(Made(u, START, ms), MeterCall);
    var ts := TimesOf(calls, tool);
    RunReplaysLimiter(u, START, ms, tool);
    CallsAreTimed(u, START, ms, tool, start, last);
    ToolsAreIndependent(c, map[], calls, tool);
    assert START.buckets == map[];
    hide Made, Gather, Runs, Meters, AdmittedOf, Acquired, TimesOf, InRange, InTime, Span, Admitted, Conforms;
    ConformingIsAdmitted(c, ts);
  }

  /**
    And after any run, calls at one instant find every token that has come back: of k
    calls of a tool at time t as many would be let past as its bucket held, and the
    whole intervals since have brought, up to the capacity.
   */
  lemma ToolIsRefilled(u: Setup, ms: seq<Move>, w: World, tool: string, t: nat, k: nat)
    requires ValidConfig(u.config) && u.config.interval > 0 && InTime(ms, 0, t) && w == Runs(u, START, ms)
    requires tool in w.buckets && (t - w.buckets[tool].lastRefill) / u.config.interval < U32
    ensures w.buckets[tool].lastRefill <= t
    ensures Admitted(u.config, Look(w.buckets, tool), Burst(t, k))
            == Min(k, Min(u.config.capacity, w.buckets[tool].tokens + (t - w.buckets[tool].lastRefill) / u.config.interval))
  {
    assert BucketsSane(u.config, START.buckets, 0);
    BucketsStaySane(u, START, ms, 0, t);
    BurstIsFilled(u.config, w.buckets[tool], t, k);
  }

  lemma {:induction false} InTimeSooner(ms: seq<Move>, first: nat, last: nat)
    requires InTime(ms, first, last)
    ensures InTime(ms, 0, last)
    decreases |ms|
  {
    InTimeEnds(ms, first, last);
    if |ms| > 0 && ms[0].Arrive? { InTimeSooner(ms[1..], first, last); }
  }

  lemma DivGrows(x: nat, y: nat, i: nat)
    requires i > 0 && x <= y
    ensures x / i <= y / i
  {
    hide Span;
    Fits(x, i);
    DivBound(x / i, i, y);
  }

  lemma CeilGrows(x: nat, y: nat, i: nat)
    requires i > 0 && x <= y
    ensures CeilDiv(x, i) <= CeilDiv(y, i)
  {
    DivGrows(x + i - 1, y + i - 1, i);
  }

  // ------------------------------------------------------------------
  // The call itself
  // ------------------------------------------------------------------

  predicate Elsewhere(ms: seq<Move>, id: nat) { forall k :: 0 <= k < |ms| && ms[k].Do? ==> ms[k].id != id }

  /** Steps of other calls leave a call where it stands. */
  lemma {:induction false} OthersLeaveIt(u: Setup, w: World, ms: seq<Move>, id: nat)
    requires id < |w.jobs| && Elsewhere(ms, id)
    ensures var w' := Runs(u, w, ms); id < |w'.jobs| && w'.jobs[id] == w.jobs[id]
    decreases |ms|
  {
    hide Spend, Step, Admits, Left, Onward;
    if |ms| > 0 { OthersLeaveIt(u, Next(u, w, ms[0]), ms[1..], id); }
  }

  lemma {:induction false} RunsAppend(u: Setup, w: World, xs: seq<Move>, ys: seq<Move>)
    ensures Runs(u, w, xs + ys) == Runs(u, Runs(u, w, xs), ys)
    decreases |xs|
  {
    hide Next;
    if |xs| == 0 {
      assert xs + ys == ys;
    } else {
      assert (xs + ys)[1..] == xs[1..] + ys;
      RunsAppend(u, Next(u, w, xs[0]), xs[1..], ys);
    }
  }

  lemma RunsLonger(u: Setup, w: World, xs: seq<Move>, m: Move)
    ensures Runs(u, w, xs + [m]) == Next(u, Runs(u, w, xs), m)
  {
    hide Next;
    RunsAppend(u, w, xs, [m]);
    assert [m][1..] == [];
  }

  lemma RunsNothing(u: Setup, w: World)
    ensures Runs(u, w, []) == w
  {}

  /** A call's own sections, in order, when nothing refuses it. */
  function Sections(tool: string, args: string, power: bool, reply: Reply, id: nat, at: nat -> nat): (own: seq<Move>)
    ensures |own| == 6
  {
    [Arrive(tool, args, power), Do(id, at(0), Limit), Do(id, at(1), Ask), Do(id, at(2), Lock),
     Do(id, at(3), Hear(reply)), Do(id, at(4), Record)]
  }

  /** The first n of a call's sections, each with what other calls do after it. */
  function Course(own: seq<Move>, gaps: nat -> seq<Move>, n: nat): seq<Move>
    requires n <= |own|
  {
    if n == 0 then [] else Course(own, gaps, n - 1) + [own[n - 1]] + gaps(n - 1)
  }

  lemma CourseStart(own: seq<Move>, gaps: nat -> seq<Move>)
    ensures Course(own, gaps, 0) == []
  {}

  lemma CourseStep(own: seq<Move>, gaps: nat -> seq<Move>, n: nat)
    requires n < |own|
    ensures Course(own, gaps, n + 1) == Course(own, gaps, n) + [own[n]] + gaps(n)
  {}

  class Bridge {
    const limiter: RateLimiter
    const breaker: Breaker
    var jobs: seq<Job>
    var device: Option<nat>
    var trail: seq<Mark>

    ghost const setup: Setup := Setup(limiter.config, breaker.policy)

    ghost function View(): World
      reads this, limiter, breaker
    {
      World(jobs, limiter.buckets, breaker.Now(), device, trail)
    }

    constructor (limiter: RateLimiter, breaker: Breaker)
      requires limiter.buckets == map[] && breaker.Now() == FRESH
      ensures this.limiter == limiter && this.breaker == breaker && View() == START
    {
      this.limiter, this.breaker := limiter, breaker;
      jobs, device, trail := [], None, [];
    }

    /** One locked section of the call m.id, or nothing if it is not that call's turn. */
    method Perform(m: Move)
      modifies this, limiter, breaker
      ensures View() == Next(setup, old(View()), m)
    {
      match m {
        case Arrive(tool, args, power) =>
          jobs := jobs + [Job(tool, args, power, Arrived)];
        case Do(id, at, act) =>
          if id < |jobs| {
            var job := jobs[id];
            var phase, told: seq<What> := job.phase, [];
            match act {
              case Limit =>
                if phase == Arrived {
                  var ok := limiter.TryAcquire(job.tool, at);
                  phase, told := if ok then Passed else Settled(RateLimited), [Metered(job.tool, ok)];
                }
              case Ask =>
                if phase == Passed {
                  var ok := breaker.TryAdmit(at);
                  phase, told := if ok then Waiting else Settled(DeviceCircuitOpen), [Gated(ok)];
                }
              case Lock =>
                if phase == Waiting && device == None {
                  device, phase, told := Some(id), Holding, [Sent];
                }
              case Hear(reply) =>
                if phase == Holding {
                  device, phase := None, Answered(reply);
                }
              case Record =>
                if phase.Answered? {
                  var fine := phase.reply == Good;
                  if fine { breaker.RecordSuccess(at); } else { breaker.RecordFailure(at); }
                  phase, told := Settled(if fine then Relayed else DeviceError), [Recorded(fine)];
                }
              case Finish =>
                if phase.Settled? {
                  told := if job.power then [Audited(job.tool, job.args, phase.outcome)] else [];
                  phase := Done(phase.outcome);
                }
            }
            jobs := jobs[id := job.(phase := phase)];
            trail := trail + if |told| == 0 then [] else [Mark(id, at, told[0])];
            LeftIs(setup, old(View()), m);
            assert !Enabled(old(View()), m) ==> jobs == old(jobs);
            assert Enabled(old(View()), m) ==> told == Told(setup, old(View()), m);
          }
      }
    }

    method Others(ms: seq<Move>)
      modifies this, limiter, breaker
      ensures View() == Runs(setup, old(View()), ms)
    {
      for k := 0 to |ms|
        invariant View() == Runs(setup, old(View()), ms[..k])
      {
        RunsLonger(setup, old(View()), ms[..k], ms[k]);
        assert ms[..k + 1] == ms[..k] + [ms[k]];
        Perform(ms[k]);
      }
      assert ms[..|ms|] == ms;
    }

    /**
      A call to the device. `gaps(k)` is what other calls do before its k-th locked
      section, `at(k)` the time of that section. If the device is still held when
      its gap ends, the call is left waiting for it.
     */
    method Dispatch(tool: string, args: string, power: bool, reply: Reply, at: nat -> nat, gaps: nat -> seq<Move>)
      returns (outcome: Option<Outcome>, ghost path: seq<Move>)
      requires forall k :: Elsewhere(gaps(k), |jobs|)
      modifies this, limiter, breaker
      ensures View() == Runs(setup, old(View()), path)
      ensures old(|jobs|) < |jobs|
      ensures outcome.Some? ==> jobs[old(|jobs|)] == Job(tool, args, power, Done(outcome.value))
      ensures outcome.None? ==> jobs[old(|jobs|)] == Job(tool, args, power, Waiting) && device.Some?
      ensures outcome.Some? && outcome.value in {Relayed, DeviceError} ==> (outcome.value == Relayed <==> reply == Good)
      ensures var own := Sections(tool, args, power, reply, old(|jobs|), at);
              var end := [Do(old(|jobs|), at(5), Finish)];
              path == if outcome.None? then Course(own, gaps, 3)
                      else if outcome.value == RateLimited then Course(own, gaps, 2) + end
                      else if outcome.value == DeviceCircuitOpen then Course(own, gaps, 3) + end
                      else Course(own, gaps, 6) + end
      ensures var own := Sections(tool, args, power, reply, old(|jobs|), at);
              var asked, gated := Runs(setup, old(View()), Course(own, gaps, 1)), Runs(setup, old(View()), Course(own, gaps, 2));
              && (outcome == Some(RateLimited) <==> !Spend(setup.config, Look(asked.buckets, tool), at(0)).ok)
              && (outcome == Some(DeviceCircuitOpen) <==> outcome != Some(RateLimited) && !Admits(gated.breaker, at(1)))
    {
      hide Next, Runs, Left, Elsewhere, Spend, Admits, Told, Look, Course, Sections;
      ghost var start := View();
      RunsNothing(setup, start);
      var id := |jobs|;
      ghost var own := Sections(tool, args, power, reply, id, at);
      SectionsAre(tool, args, power, reply, id, at);
      CourseStart(own, gaps);
      var passed := Begin(start, own, gaps, tool, args, power, at);
      path := Course(own, gaps, 2);
      if passed {
        ghost var gated := View();
        var held := Relay(start, own, gaps, id, at, reply);
        path := Course(own, gaps, if held || !Admits(gated.breaker, at(1)) then 3 else 6);
        if held { return None, path; }
      }
      outcome := Some(jobs[id].phase.outcome);
      RunsLonger(setup, start, path, Do(id, at(5), Finish));
      Perform(Do(id, at(5), Finish));
      path := path + [Do(id, at(5), Finish)];
      Finished(setup, Runs(setup, start, path[..|path| - 1]), Do(id, at(5), Finish));
    }

    /** Arrival and rate limit of a call. */
    method Begin(ghost start: World, ghost own: seq<Move>, gaps: nat -> seq<Move>, tool: string, args: string, power: bool, at: nat -> nat)
      returns (passed: bool)
      requires (forall k :: Elsewhere(gaps(k), |jobs|)) && |own| == 6 && View() == Runs(setup, start, Course(own, gaps, 0))
      requires own[0] == Arrive(tool, args, power) && own[1] == Do(|jobs|, at(0), Limit)
      modifies this, limiter, breaker
      ensures old(|jobs|) < |jobs|
      ensures jobs[old(|jobs|)] == Job(tool, args, power, if passed then Passed else Settled(RateLimited))
      ensures View() == Runs(setup, start, Course(own, gaps, 2))
      ensures passed <==> Spend(setup.config, Look(Runs(setup, start, Course(own, gaps, 1)).buckets, tool), at(0)).ok
    {
      hide Next, Runs, Left, Elsewhere, Spend, Admits, Told, Look, Course;
      var id := |jobs|;
      Section(start, own, gaps, 0, Arrive(tool, args, power), id);
      Section(start, own, gaps, 1, Do(id, at(0), Limit), id);
      passed := jobs[id].phase == Passed;
    }

    /** Breaker, device and record of a call that the limiter let past; `held` if the device is not free for it. */
    method Relay(ghost start: World, ghost own: seq<Move>, gaps: nat -> seq<Move>, id: nat, at: nat -> nat, reply: Reply)
      returns (held: bool)
      requires id < |jobs| && jobs[id].phase == Passed && (forall k :: Elsewhere(gaps(k), id))
      requires |own| == 6 && View() == Runs(setup, start, Course(own, gaps, 2))
      requires own[2] == Do(id, at(1), Ask) && own[3] == Do(id, at(2), Lock)
      requires own[4] == Do(id, at(3), Hear(reply)) && own[5] == Do(id, at(4), Record)
      modifies this, limiter, breaker
      ensures id < |jobs| && jobs[id] == old(jobs)[id].(phase := jobs[id].phase)
      ensures var ok := Admits(old(View()).breaker, at(1));
              && (held ==> ok && jobs[id].phase == Waiting && device.Some?)
              && (!held ==> jobs[id].phase == Settled(if !ok then DeviceCircuitOpen else if reply == Good then Relayed else DeviceError))
              && View() == Runs(setup, start, Course(own, gaps, if held || !ok then 3 else 6))
    {
      hide Next, Runs, Left, Elsewhere, Spend, Admits, Told, Look, Course;
      Section(start, own, gaps, 2, Do(id, at(1), Ask), id);
      if jobs[id].phase != Waiting { return false; }
      if device.Some? { return true; }
      Section(start, own, gaps, 3, Do(id, at(2), Lock), id);
      Section(start, own, gaps, 4, Do(id, at(3), Hear(reply)), id);
      Section(start, own, gaps, 5, Do(id, at(4), Record), id);
      held := false;
    }

    /** The n-th section of the call `id`, then what others do before its next. */
    method Section(ghost start: World, ghost own: seq<Move>, gaps: nat -> seq<Move>, n: nat, m: Move, id: nat)
      requires n < |own| && m == own[n] && View() == Runs(setup, start, Course(own, gaps, n))
      requires Enabled(View(), m) && Elsewhere(gaps(n), id)
      requires if m.Arrive? then id == |jobs| else id == m.id
      modifies this, limiter, breaker
      ensures View() == Runs(setup, start, Course(own, gaps, n + 1))
      ensures id < |jobs|
      ensures m.Arrive? ==> jobs[id] == Job(m.tool, m.args, m.power, Arrived)
      ensures m.Do? ==> jobs[id] == old(jobs)[id].(phase := Onward(setup, old(View()), m))
    {
      ghost var path := Course(own, gaps, n);
      CourseStep(own, gaps, n);
      RunsLonger(setup, start, path, m);
      Perform(m);
      RunsAppend(setup, start, path + [m], gaps(n));
      OthersLeaveIt(setup, View(), gaps(n), id);
      Others(gaps(n));
    }
  }

  lemma SectionsAre(tool: string, args: string, power: bool, reply: Reply, id: nat, at: nat -> nat)
    ensures Sections(tool, args, power, reply, id, at)
            == [Arrive(tool, args, power), Do(id, at(0), Limit), Do(id, at(1), Ask), Do(id, at(2), Lock),
                Do(id, at(3), Hear(reply)), Do(id, at(4), Record)]
  {}

  lemma Finished(u: Setup, w: World, m: Move)
    requires Enabled(w, m) && m.Do?
    ensures |Next(u, w, m).jobs| == |w.jobs| && Next(u, w, m).jobs[m.id] == w.jobs[m.id].(phase := Onward(u, w, m))
  {
    hide Onward, Left, Step, Acquired;
  }
}
