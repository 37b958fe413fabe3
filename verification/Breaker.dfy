/** The circuit breaker: its three methods as steps, and what every history of
    admissions, successes and failures guarantees. */
module Breaker {

  datatype Phase = Closed | Open | HalfOpen

  /** Thresholds are plain ints; a value below one acts as one. */
  datatype Params = Params(failureThreshold: int, successThreshold: int, openTimeout: int) {
    function Failures(): (r: int) { if failureThreshold < 1 then 1 else failureThreshold }
    function Successes(): (r: int) { if successThreshold < 1 then 1 else successThreshold }
  }

  datatype State = State(phase: Phase, failures: int, successes: int, lastFailure: int)

  const INITIAL: State := State(Closed, 0, 0, 0)

  predicate Admits(p: Params, s: State, now: int) {
    s.phase != Open || now - s.lastFailure > p.openTimeout
  }

  function AfterAllow(p: Params, s: State, now: int): (r: State) {
    if s.phase == Open && now - s.lastFailure > p.openTimeout then s.(phase := HalfOpen, successes := 0) else s
  }

  function AfterSuccess(p: Params, s: State): (r: State) {
    var s := s.(failures := 0);
    if s.phase == HalfOpen then
      var s := s.(successes := s.successes + 1);
      if s.successes >= p.successThreshold then s.(phase := Closed) else s
    else s
  }

  function AfterFailure(p: Params, s: State, now: int): (r: State) {
    var s := s.(lastFailure := now, failures := s.failures + 1);
    if s.phase == HalfOpen || s.failures >= p.failureThreshold then s.(phase := Open, successes := 0) else s
  }

  datatype Event = Allow(now: int) | Success | Failure(now: int)

  function Step(p: Params, s: State, e: Event): (r: State) {
    match e
    case Allow(now) => AfterAllow(p, s, now)
    case Success => AfterSuccess(p, s)
    case Failure(now) => AfterFailure(p, s, now)
  }

  function Run(p: Params, h: seq<Event>): (r: State) {
    if h == [] then INITIAL else Step(p, Run(p, h[..|h| - 1]), h[|h| - 1])
  }

  // ---------- History functions ----------

  /** Failures since the last success. */
  function TrailingFailures(h: seq<Event>): (r: nat) {
    if h == [] then 0
    else
      var rest := TrailingFailures(h[..|h| - 1]);
      match h[|h| - 1]
      case Allow(_) => rest
      case Success => 0
      case Failure(_) => rest + 1
  }

  /** Time of the latest failure, 0 when there is none. */
  function LatestFailure(h: seq<Event>): (r: int) {
    if h == [] then 0
    else if h[|h| - 1].Failure? then h[|h| - 1].now
    else LatestFailure(h[..|h| - 1])
  }

  function CountSuccesses(h: seq<Event>, from: nat): (r: nat)
    requires from <= |h|
    decreases |h|
  {
    if from == |h| then 0
    else CountSuccesses(h[..|h| - 1], from) + (if h[|h| - 1].Success? then 1 else 0)
  }

  ghost predicate NoFailure(h: seq<Event>, from: nat) {
    forall i :: from <= i < |h| ==> !h[i].Failure?
  }

  // ---------- Invariants over histories ----------

  /** `failures` is the trailing failure run and `lastFailure` the latest failure's time;
      a closed breaker has a run below the threshold, and an open one has failed before. */
  lemma {:induction false} CountersExact(p: Params, h: seq<Event>)
    ensures var s := Run(p, h);
      && s.failures == TrailingFailures(h)
      && s.lastFailure == LatestFailure(h)
      && (s.phase == Closed ==> TrailingFailures(h) < p.Failures())
      && (s.phase != Closed ==> exists i :: 0 <= i < |h| && h[i].Failure?)
  {
    if h != [] {
      var before := h[..|h| - 1];
      CountersExact(p, before);
      if Run(p, before).phase != Closed {
        var i :| 0 <= i < |before| && before[i].Failure?;
        assert h[i] == before[i];
      }
      assert h[|h| - 1] in h;
    }
  }

  /** A closed or half-open breaker admits every request, an open one exactly when more than the timeout has passed
      since the latest failure. */
  lemma {:induction false} AdmitsIff(p: Params, h: seq<Event>, now: int)
    ensures Admits(p, Run(p, h), now) <==> Run(p, h).phase != Open || now > LatestFailure(h) + p.openTimeout
  {
    CountersExact(p, h);
  }

  /** What each event does to the phase: a failure opens a half-open breaker, and a closed one exactly when it completes
      the threshold of consecutive failures; no success opens or closes any but a half-open one. */
  lemma {:induction false} PhaseAfter(p: Params, h: seq<Event>, e: Event)
    ensures var was, phase := Run(p, h).phase, Run(p, h + [e]).phase;
      && (e.Failure? ==> phase == if was == Closed && TrailingFailures(h) + 1 < p.Failures() then Closed else Open)
      && (e.Success? && was != HalfOpen ==> phase == was)
      && (e.Allow? ==> phase == if was == Open && e.now > LatestFailure(h) + p.openTimeout then HalfOpen else was)
  {
    CountersExact(p, h);
    assert (h + [e])[..|h|] == h;
  }

  /** The latest of enough consecutive failures opens the breaker. */
  lemma {:induction false} FailuresOpen(p: Params, h: seq<Event>)
    requires h != [] && h[|h| - 1].Failure? && TrailingFailures(h) >= p.Failures()
    ensures Run(p, h).phase == Open
  {
    var n := |h| - 1;
    PhaseAfter(p, h[..n], h[n]);
    assert h[..n] + [h[n]] == h;
  }

  /** The breaker has been closed all along exactly when no run of consecutive failures has reached the threshold. */
  lemma {:induction false} ClosedAllAlongIff(p: Params, h: seq<Event>)
    ensures (forall n :: 0 <= n <= |h| ==> Run(p, h[..n]).phase == Closed) <==>
            (forall n :: 0 <= n <= |h| ==> TrailingFailures(h[..n]) < p.Failures())
  {
    hide Run, TrailingFailures;
    if forall n :: 0 <= n <= |h| ==> TrailingFailures(h[..n]) < p.Failures() {
      forall n | 0 <= n <= |h| ensures Run(p, h[..n]).phase == Closed { StaysClosed(p, h, n); }
    }
    if forall n :: 0 <= n <= |h| ==> Run(p, h[..n]).phase == Closed {
      forall n | 0 <= n <= |h| ensures TrailingFailures(h[..n]) < p.Failures() { CountersExact(p, h[..n]); }
    }
  }

  lemma {:induction false} StaysClosed(p: Params, h: seq<Event>, n: nat)
    requires n <= |h| && forall m :: 0 <= m <= n ==> TrailingFailures(h[..m]) < p.Failures()
    ensures Run(p, h[..n]).phase == Closed
    decreases n
  {
    if n > 0 {
      StaysClosed(p, h, n - 1);
      var before, e := h[..n - 1], h[n - 1];
      assert before + [e] == h[..n] && h[..n][..n - 1] == before;
      PhaseAfter(p, before, e);
    }
  }

  /** While open, a request is admitted only when more than the timeout has passed since the latest failure. */
  lemma OpenAdmitsAfterTimeout(p: Params, h: seq<Event>, now: int)
    requires Run(p, h).phase == Open
    ensures Admits(p, Run(p, h), now) <==> now - LatestFailure(h) > p.openTimeout
    ensures Run(p, h + [Allow(now)]).phase == if Admits(p, Run(p, h), now) then HalfOpen else Open
  {
    CountersExact(p, h);
    assert (h + [Allow(now)])[..|h|] == h;
  }

  /** Position m let the current half-open phase in: an admission after the timeout, with
      only successes, fewer than the threshold, recorded since. */
  ghost predicate HalfOpenSince(p: Params, h: seq<Event>, m: nat) {
    && m < |h| && h[m].Allow?
    && Run(p, h[..m]).phase == Open
    && h[m].now - LatestFailure(h[..m]) > p.openTimeout
    && NoFailure(h, m + 1)
    && CountSuccesses(h, m + 1) == Run(p, h).successes < p.Successes()
    && forall n :: m < n <= |h| ==> Run(p, h[..n]).phase == HalfOpen
  }

  lemma {:induction false} HalfOpenHasEntry(p: Params, h: seq<Event>) returns (m: nat)
    requires Run(p, h).phase == HalfOpen
    ensures HalfOpenSince(p, h, m)
  {
    var n := |h| - 1;
    var before := h[..n];
    assert h[..|h|] == h;
    if Run(p, before).phase == HalfOpen {
      m := HalfOpenHasEntry(p, before);
      assert h[..m] == before[..m];
      forall k | m < k <= |h|
        ensures Run(p, h[..k]).phase == HalfOpen
      {
        if k <= n { assert h[..k] == before[..k]; }
      }
      forall i | m + 1 <= i < |h|
        ensures !h[i].Failure?
      {
        if i < n { assert h[i] == before[i]; }
      }
    } else {
      m := n;
      CountersExact(p, before);
    }
  }

  /** The breaker closed at the end of h: a half-open phase that began at m collected the
      threshold of successes with no failure in between. */
  ghost predicate ClosedThrough(p: Params, h: seq<Event>, m: nat) {
    && m < |h| && h[m].Allow?
    && Run(p, h[..m]).phase == Open
    && h[m].now - LatestFailure(h[..m]) > p.openTimeout
    && NoFailure(h, m + 1)
    && CountSuccesses(h, m + 1) == p.Successes()
    && Run(p, h).phase == Closed
  }

  lemma {:induction false} ClosingStep(p: Params, h: seq<Event>) returns (m: nat)
    requires h != [] && Run(p, h).phase == Closed && Run(p, h[..|h| - 1]).phase != Closed
    ensures ClosedThrough(p, h, m)
    ensures forall n :: m < n < |h| ==> Run(p, h[..n]).phase == HalfOpen
  {
    var before := h[..|h| - 1];
    m := HalfOpenHasEntry(p, before);
    assert h[..m] == before[..m];
    forall n | m < n < |h|
      ensures Run(p, h[..n]).phase == HalfOpen
    {
      assert h[..n] == before[..n];
    }
    forall i | m + 1 <= i < |h|
      ensures !h[i].Failure?
    {
      if i < |before| { assert h[i] == before[i]; }
    }
  }

  /** Open returns to closed only through a half-open phase: if the breaker is open after i
      events and closed after all of h, then at some position m at or after i it was let
      half-open after the timeout, and from there exactly successThreshold successes and no
      failure brought it to closed, at some k events into h. */
  lemma {:induction false} RecoveryOnlyThroughHalfOpen(p: Params, h: seq<Event>, i: nat) returns (m: nat, k: nat)
    requires i <= |h| && Run(p, h[..i]).phase == Open && Run(p, h).phase == Closed
    ensures i <= m < k <= |h| && ClosedThrough(p, h[..k], m)
  {
    assert h[..|h|] == h;
    var before := h[..|h| - 1];
    if Run(p, before).phase == Closed {
      assert h[..i] == before[..i];
      m, k := RecoveryOnlyThroughHalfOpen(p, before, i);
      assert h[..k] == before[..k];
    } else {
      m := ClosingStep(p, h);
      k := |h|;
    }
  }

  /** And that is enough: after a half-open entry with no failure since, the breaker is closed
      exactly when the threshold of successes has been reached. */
  lemma {:induction false} RecoverySuffices(p: Params, h: seq<Event>, m: nat)
    requires m < |h| && h[m].Allow? && Run(p, h[..m]).phase == Open
    requires h[m].now - LatestFailure(h[..m]) > p.openTimeout && NoFailure(h, m + 1)
    ensures Run(p, h).phase == if CountSuccesses(h, m + 1) >= p.Successes() then Closed else HalfOpen
    ensures Run(p, h).phase == HalfOpen ==> Run(p, h).successes == CountSuccesses(h, m + 1)
  {
    var before := h[..|h| - 1];
    if m == |h| - 1 {
      CountersExact(p, before);
    } else {
      assert before[..m] == h[..m];
      RecoverySuffices(p, before, m);
    }
  }

  // ---------- The object ----------

  class CircuitBreaker {
    const p: Params
    var phase: Phase
    var failures: int
    var successes: int
    var lastFailure: int

    ghost function View(): (s: State)
      reads this
    {
      State(phase, failures, successes, lastFailure)
    }

    constructor (failureThreshold: int, successThreshold: int, openTimeout: int)
      ensures p == Params(failureThreshold, successThreshold, openTimeout) && View() == INITIAL
    {
      p := Params(failureThreshold, successThreshold, openTimeout);
      phase, failures, successes, lastFailure := Closed, 0, 0, 0;
    }

    method AllowRequest(now: int) returns (ok: bool)
      modifies this
      ensures ok == Admits(p, old(View()), now) && View() == Step(p, old(View()), Allow(now))
    {
      match phase
      case Closed => return true;
      case Open =>
        if now - lastFailure > p.openTimeout {
          phase := HalfOpen;
          successes := 0;
          return true;
        }
        return false;
      case HalfOpen => return true;
    }

    method RecordSuccess()
      modifies this
      ensures View() == Step(p, old(View()), Success)
    {
      failures := 0;
      if phase == HalfOpen {
        successes := successes + 1;
        if successes >= p.successThreshold { phase := Closed; }
      }
    }

    method RecordFailure(now: int)
      modifies this
      ensures View() == Step(p, old(View()), Failure(now))
    {
      lastFailure := now;
      failures := failures + 1;
      if phase == HalfOpen || failures >= p.failureThreshold {
        phase := Open;
        successes := 0;
      }
    }
  }
}
