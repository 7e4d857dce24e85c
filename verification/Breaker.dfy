/**
  bridge/src/breaker.rs: the circuit-breaker in front of the device. Times are
  whole units read from a clock that never goes back; results of calls in flight
  may come back in any order and long after the breaker has moved on.
 */
module Breaker {
  import opened Text
  import opened RateLimiter

  /** What a breaker is made with; `threshold` is at least one. */
  datatype Policy = Policy(threshold: nat, cooldown: nat)

  predicate ValidPolicy(p: Policy) { 0 < p.threshold < U32 }

  datatype State = State(failures: nat, openUntil: Option<nat>, halfOpen: bool)

  const FRESH := State(0, None, false)

  datatype Reading = Closed | Open | HalfOpen

  datatype Event = Admit(at: nat) | Success(at: nat) | Failure(at: nat)

  // ------------------------------------------------------------------
  // The transitions
  // ------------------------------------------------------------------

  function Read(s: State, now: nat): Reading {
    if s.openUntil.None? then Closed
    else if s.halfOpen || now >= s.openUntil.value then HalfOpen
    else Open
  }

  /** Whether a call is let through now. */
  predicate Admits(s: State, now: nat) {
    s.openUntil.None? || (!s.halfOpen && now >= s.openUntil.value)
  }

  function Tripped(p: Policy, s: State, now: nat): State {
    s.(openUntil := Some(now + p.cooldown), halfOpen := false)
  }

  function Failed(p: Policy, s: State, now: nat): State {
    if s.halfOpen then Tripped(p, s, now)
    else
      var s' := s.(failures := Min(s.failures + 1, U32 - 1));
      if s'.failures >= p.threshold then Tripped(p, s', now) else s'
  }

  function Step(p: Policy, s: State, e: Event): State {
    match e
    case Admit(t) => if Admits(s, t) && s.openUntil.Some? then s.(halfOpen := true) else s
    case Success(_) => FRESH
    case Failure(t) => Failed(p, s, t)
  }

  class Breaker {
    const policy: Policy
    var failures: nat
    var openUntil: Option<nat>
    var halfOpen: bool

    ghost function Now(): State
      reads this
    {
      State(failures, openUntil, halfOpen)
    }

    constructor (threshold: nat, cooldown: nat)
      requires threshold < U32
      ensures policy == Policy(if threshold < 1 then 1 else threshold, cooldown) && ValidPolicy(policy)
      ensures Now() == FRESH
    {
      policy := Policy(if threshold < 1 then 1 else threshold, cooldown);
      failures, openUntil, halfOpen := 0, None, false;
    }

    /** The reading says what admit would answer, except while a trial is out. */
    method Peek(now: nat) returns (r: Reading)
      ensures r == Read(Now(), now)
      ensures r != HalfOpen ==> (Admits(Now(), now) <==> r == Closed)
      ensures r == HalfOpen ==> (Admits(Now(), now) <==> !halfOpen)
    {
      match openUntil {
        case None => r := Closed;
        case Some(until) => r := if halfOpen || now >= until then HalfOpen else Open;
      }
    }

    method TryAdmit(now: nat) returns (ok: bool)
      modifies this
      ensures ok == Admits(old(Now()), now) && Now() == Step(policy, old(Now()), Admit(now))
    {
      match openUntil {
        case None => ok := true;
        case Some(until) =>
          ok := !halfOpen && now >= until;
          if ok { halfOpen := true; }
      }
    }

    method RecordSuccess(now: nat)
      modifies this
      ensures Now() == Step(policy, old(Now()), Success(now))
    {
      failures, openUntil, halfOpen := 0, None, false;
    }

    method RecordFailure(now: nat)
      modifies this
      ensures Now() == Step(policy, old(Now()), Failure(now))
    {
      if halfOpen {
        Trip(now);
        return;
      }
      failures := Min(failures + 1, U32 - 1);
      if failures >= policy.threshold { Trip(now); }
    }

    method Trip(now: nat)
      modifies this
      ensures Now() == Tripped(policy, old(Now()), now)
    {
      openUntil, halfOpen := Some(now + policy.cooldown), false;
    }
  }

  // ------------------------------------------------------------------
  // Runs
  // ------------------------------------------------------------------

  function Run(p: Policy, s: State, es: seq<Event>): State
    decreases |es|
  {
    if |es| == 0 then s else Run(p, Step(p, s, es[0]), es[1..])
  }

  /** The times of the admitted calls of a run. */
  function Trials(p: Policy, s: State, es: seq<Event>): seq<nat>
    decreases |es|
  {
    if |es| == 0 then []
    else (if es[0].Admit? && Admits(s, es[0].at) then [es[0].at] else []) + Trials(p, Step(p, s, es[0]), es[1..])
  }

  /** Times never go back, and none is before `first` or after `last`. */
  predicate Timed(es: seq<Event>, first: nat, last: nat) {
    && first <= last
    && (forall i, j :: 0 <= i < j < |es| ==> es[i].at <= es[j].at)
    && (forall i :: 0 <= i < |es| ==> first <= es[i].at <= last)
  }

  lemma TimedRest(es: seq<Event>, first: nat, last: nat)
    requires Timed(es, first, last) && |es| > 0
    ensures first <= es[0].at <= last && Timed(es[1..], es[0].at, last)
  {}

  /** What holds of the breaker at time `now`, whatever came before. */
  predicate Sane(p: Policy, s: State, now: nat) {
    && (s.openUntil.Some? <==> s.failures >= p.threshold)
    && (s.halfOpen ==> s.openUntil.Some? && s.openUntil.value <= now)
    && (s.openUntil.Some? ==> s.openUntil.value <= now + p.cooldown)
    && s.failures < U32
  }

  lemma StepKeepsSane(p: Policy, s: State, e: Event, now: nat)
    requires ValidPolicy(p) && Sane(p, s, now) && now <= e.at
    ensures Sane(p, Step(p, s, e), e.at)
  {}

  lemma {:induction false} RunKeepsSane(p: Policy, s: State, es: seq<Event>, first: nat, last: nat)
    requires ValidPolicy(p) && Sane(p, s, first) && Timed(es, first, last)
    ensures Sane(p, Run(p, s, es), last)
    decreases |es|
  {
    hide Step, Timed;
    if |es| == 0 {
      TimedEnds(es, first, last);
    } else {
      TimedRest(es, first, last);
      StepKeepsSane(p, s, es[0], first);
      RunKeepsSane(p, Step(p, s, es[0]), es[1..], es[0].at, last);
    }
  }

  lemma TimedEnds(es: seq<Event>, first: nat, last: nat)
    requires Timed(es, first, last)
    ensures first <= last
  {}

  /** The failures recorded since the last success, trials among them. */
  function Consecutive(es: seq<Event>): nat
    decreases |es|
  {
    if |es| == 0 || es[|es| - 1].Success? then 0
    else One(es[|es| - 1].Failure?) + Consecutive(es[..|es| - 1])
  }

  lemma {:induction false} RunsJoinEvents(p: Policy, s: State, xs: seq<Event>, ys: seq<Event>)
    ensures Run(p, s, xs + ys) == Run(p, Run(p, s, xs), ys)
    ensures Trials(p, s, xs + ys) == Trials(p, s, xs) + Trials(p, Run(p, s, xs), ys)
    decreases |xs|
  {
    hide Step, Admits;
    if |xs| == 0 {
      assert xs + ys == ys;
    } else {
      assert (xs + ys)[1..] == xs[1..] + ys;
      RunsJoinEvents(p, Step(p, s, xs[0]), xs[1..], ys);
    }
  }

  /** The breaker is closed exactly while fewer failures than the threshold have come in a row. */
  lemma {:induction false} OpenIffThresholdReached(p: Policy, es: seq<Event>)
    requires ValidPolicy(p)
    ensures var s := Run(p, FRESH, es);
            && (s.openUntil.Some? <==> Consecutive(es) >= p.threshold)
            && (s.openUntil.None? ==> s.failures == Consecutive(es) && !s.halfOpen)
            && (s.openUntil.Some? ==> s.failures >= p.threshold)
    decreases |es|
  {
    if |es| > 0 {
      var k := |es| - 1;
      assert es == es[..k] + [es[k]];
      RunsJoinEvents(p, FRESH, es[..k], [es[k]]);
      OpenIffThresholdReached(p, es[..k]);
    }
  }

  // ------------------------------------------------------------------
  // The load on a device that does not recover
  // ------------------------------------------------------------------

  predicate NoSuccess(es: seq<Event>) { forall i :: 0 <= i < |es| ==> !es[i].Success? }

  /** The earliest time of the next trial of an open breaker, as of `now`. */
  function Ready(p: Policy, s: State, now: nat): nat
    requires s.openUntil.Some?
  {
    if s.halfOpen then now + p.cooldown else s.openUntil.value
  }

  lemma OpenStep(p: Policy, s: State, e: Event, now: nat)
    requires ValidPolicy(p) && Sane(p, s, now) && s.openUntil.Some? && now <= e.at && !e.Success?
    ensures var s' := Step(p, s, e);
            && s'.openUntil.Some?
            && Ready(p, s', e.at) >= Ready(p, s, now)
            && (e.Admit? && Admits(s, e.at) ==> e.at >= Ready(p, s, now) && Ready(p, s', e.at) == e.at + p.cooldown)
  {}

  /**
    While no success is recorded, an open breaker lets its k-th trial through no
    earlier than k cooldowns after it was ready, whatever failures come back.
   */
  lemma {:induction false} TrialsWait(p: Policy, s: State, es: seq<Event>, first: nat, last: nat)
    requires ValidPolicy(p) && Sane(p, s, first) && s.openUntil.Some? && Timed(es, first, last) && NoSuccess(es)
    ensures var ts := Trials(p, s, es);
            forall k :: 0 <= k < |ts| ==> Ready(p, s, first) + Span(k, p.cooldown) <= ts[k] <= last
    decreases |es|
  {
    hide Step, Timed, Admits, Sane, Ready, Span;
    SpanAdds(0, 0, p.cooldown);
    if |es| > 0 {
      var e := es[0];
      TimedRest(es, first, last);
      StepKeepsSane(p, s, e, first);
      OpenStep(p, s, e, first);
      var s' := Step(p, s, e);
      TrialsWait(p, s', es[1..], e.at, last);
      var ts, rest := Trials(p, s, es), Trials(p, s', es[1..]);
      if e.Admit? && Admits(s, e.at) {
        assert ts == [e.at] + rest;
        forall k | 0 <= k < |ts| ensures Ready(p, s, first) + Span(k, p.cooldown) <= ts[k] <= last {
          if k > 0 {
            SpanAdds(k - 1, 1, p.cooldown);
            assert ts[k] == rest[k - 1];
          }
        }
      }
    }
  }

  /** Any two trials are a cooldown apart for each trial between them. */
  lemma {:induction false} TrialsAreSpaced(p: Policy, s: State, es: seq<Event>, first: nat, last: nat)
    requires ValidPolicy(p) && Sane(p, s, first) && s.openUntil.Some? && Timed(es, first, last) && NoSuccess(es)
    ensures var ts := Trials(p, s, es);
            forall i, j :: 0 <= i < j < |ts| ==> ts[i] + Span(j - i, p.cooldown) <= ts[j]
    decreases |es|
  {
    hide Step, Timed, Admits, Sane, Ready, Span;
    if |es| > 0 {
      var e := es[0];
      TimedRest(es, first, last);
      StepKeepsSane(p, s, e, first);
      OpenStep(p, s, e, first);
      var s' := Step(p, s, e);
      TrialsAreSpaced(p, s', es[1..], e.at, last);
      TrialsWait(p, s', es[1..], e.at, last);
      var ts, rest := Trials(p, s, es), Trials(p, s', es[1..]);
      if e.Admit? && Admits(s, e.at) {
        assert ts == [e.at] + rest;
        forall i, j | 0 <= i < j < |ts| ensures ts[i] + Span(j - i, p.cooldown) <= ts[j] {
          if i == 0 {
            SpanAdds(j - 1, 1, p.cooldown);
            assert ts[j] == rest[j - 1];
          }
        }
      }
    }
  }

  /**
    Once a failure at T has opened the breaker, and until a success is recorded,
    at most one call for each whole cooldown since T is let through.
   */
  lemma LoadAfterTrip(p: Policy, s: State, T: nat, es: seq<Event>, last: nat)
    requires ValidPolicy(p) && Sane(p, s, T) && Timed(es, T, last) && NoSuccess(es)
    requires Step(p, s, Failure(T)).openUntil.Some?
    ensures var n := |Trials(p, Step(p, s, Failure(T)), es)|;
            && Span(n, p.cooldown) <= last - T
            && (p.cooldown > 0 ==> n <= (last - T) / p.cooldown)
  {
    var s' := Step(p, s, Failure(T));
    StepKeepsSane(p, s, Failure(T), T);
    assert Ready(p, s', T) == T + p.cooldown;
    hide Step, Admits, Sane, Ready, Span;
    TrialsWait(p, s', es, T, last);
    var n := |Trials(p, s', es)|;
    SpanAdds(n - 1, 1, p.cooldown);
    if n > 0 { assert Trials(p, s', es)[n - 1] <= last; }
    if p.cooldown > 0 { DivBound(n, p.cooldown, last - T); }
  }

  /** n rounds of a trial at the end of the cooldown that fails at once. */
  function FailingTrials(p: Policy, T: nat, n: nat): (es: seq<Event>)
    ensures |es| == 2 * n
    decreases n
  {
    if n == 0 then []
    else [Admit(T + p.cooldown), Failure(T + p.cooldown)] + FailingTrials(p, T + p.cooldown, n - 1)
  }

  lemma RoundAhead(p: Policy, T: nat, n: nat)
    requires n > 0
    ensures var (t, es) := (T + p.cooldown, FailingTrials(p, T, n));
            var rest := FailingTrials(p, t, n - 1);
            && es == [Admit(t), Failure(t)] + rest
            && es[2 * n - 1] == (if n == 1 then Failure(t) else rest[2 * n - 3])
            && (NoSuccess(rest) ==> NoSuccess(es))
  {}

  lemma TrialFails(p: Policy, s: State, t: nat)
    requires ValidPolicy(p) && s.openUntil == Some(t) && !s.halfOpen
    ensures Admits(s, t)
    ensures var s' := Step(p, Step(p, s, Admit(t)), Failure(t)); s'.openUntil == Some(t + p.cooldown) && !s'.halfOpen
  {}

  /** The bound is attained by a device whose every trial fails. */
  lemma {:induction false} LoadIsAttained(p: Policy, s: State, T: nat, n: nat)
    requires ValidPolicy(p) && s.openUntil == Some(T + p.cooldown) && !s.halfOpen
    ensures |Trials(p, s, FailingTrials(p, T, n))| == n
    ensures n > 0 ==> FailingTrials(p, T, n)[2 * n - 1].at == T + Span(n, p.cooldown)
    ensures NoSuccess(FailingTrials(p, T, n))
    decreases n
  {
    if n > 0 {
      hide *;
      var t := T + p.cooldown;
      var s' := Step(p, Step(p, s, Admit(t)), Failure(t));
      TrialFails(p, s, t);
      RoundAhead(p, T, n);
      LoadIsAttained(p, s', t, n - 1);
      SpanAdds(n - 1, 1, p.cooldown);
      RunsJoinEvents(p, s, [Admit(t), Failure(t)], FailingTrials(p, t, n - 1));
      TwoEvents(p, s, Admit(t), Failure(t));
      assert n == 1 ==> Span(n - 1, p.cooldown) == 0 by { SpanAdds(0, 0, p.cooldown); }
    }
  }

  lemma TwoEvents(p: Policy, s: State, a: Event, b: Event)
    requires a.Admit? && Admits(s, a.at) && !b.Admit?
    ensures Run(p, s, [a, b]) == Step(p, Step(p, s, a), b) && Trials(p, s, [a, b]) == [a.at]
  {
    hide Step, Admits;
    var s1 := Step(p, s, a);
    assert [a, b][1..] == [b] && [b][1..] == [];
    assert Run(p, s1, [b]) == Step(p, s1, b) && Trials(p, s1, [b]) == [];
  }

  /** A trial whose result is never recorded latches the breaker: no call is let through again. */
  lemma {:induction false} LatchedUntilRecorded(p: Policy, s: State, es: seq<Event>)
    requires s.halfOpen && s.openUntil.Some? && (forall i :: 0 <= i < |es| ==> es[i].Admit?)
    ensures Trials(p, s, es) == [] && Run(p, s, es) == s
    decreases |es|
  {
    if |es| > 0 { LatchedUntilRecorded(p, s, es[1..]); }
  }
}
