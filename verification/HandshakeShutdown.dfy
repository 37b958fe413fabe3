/** What a shutdown of the handshake pool leaves behind. Closing does not drain the inbox, so a connection can be
    stranded there; this happens exactly for runs that accepted more connections than there are workers. */
module HandshakeShutdown {
  import opened Common
  import opened Handshake

  // ---------- A stranded connection needs more connections than workers ----------

  /** A worker that handshook a connection it has not handed over, or that left because of the shutdown. */
  predicate Spent(pc: WorkerPc) {
    pc.Sending? || pc == WorkerGone(false)
  }

  function CountSpent(ws: seq<WorkerPc>): (r: nat) {
    if ws == [] then 0 else CountSpent(ws[..|ws| - 1]) + B(Spent(ws[|ws| - 1]))
  }

  lemma {:induction false} SpentUpdate(ws: seq<WorkerPc>, w: nat, pc: WorkerPc)
    requires w < |ws|
    ensures CountSpent(ws[w := pc]) + B(Spent(ws[w])) == CountSpent(ws) + B(Spent(pc))
  {
    var n := |ws| - 1;
    if w == n {
      assert ws[w := pc][..n] == ws[..n];
    } else {
      assert ws[w := pc][..n] == ws[..n][w := pc];
      SpentUpdate(ws[..n], w, pc);
    }
  }

  lemma {:induction false} SpentWorkerStep(cap: nat, s: State, step: Step)
    requires Enabled(cap, s, step) && WorkerStep(step)
    ensures step.worker < |s.workers| && |Apply(cap, s, step).workers| == |s.workers|
    ensures CountSpent(Apply(cap, s, step).workers) + s.completed <=
            CountSpent(s.workers) + Apply(cap, s, step).completed
  {
    hide CountSpent;
    SpentUpdate(s.workers, step.worker, Apply(cap, s, step).workers[step.worker]);
  }

  lemma {:induction false} OtherStep(cap: nat, s: State, step: Step)
    requires Enabled(cap, s, step) && !WorkerStep(step)
    ensures Apply(cap, s, step).workers == s.workers && Apply(cap, s, step).completed == s.completed
  {
    hide Enabled;
    match step
    case CheckClosed =>
    case AcceptConn(_) =>
    case AcceptTransient =>
    case AcceptFatal =>
    case AcceptAfterClose =>
    case SendError =>
    case SkipError =>
    case Enqueue =>
    case DropAtShutdown =>
    case DropFull =>
    case CountQueued =>
    case CloseInbox =>
    case LoopExit =>
    case CallerReceive =>
    case CloseListener =>
    case CloseOutbox =>
    case DrainOne =>
    case DrainEnd =>
  }

  lemma {:induction false} IdleNotSpent(n: nat)
    ensures CountSpent(seq(n, _ => Idle)) == 0
  {
    if n > 0 {
      assert seq(n, _ => Idle)[..n - 1] == seq(n - 1, _ => Idle);
      IdleNotSpent(n - 1);
    }
  }

  /** In every run the workers that are sending or left by the shutdown number at most the completed handshakes. */
  lemma {:induction false} SpentAreCompleted(cap: nat, workers: nat, steps: seq<Step>)
    requires Run(cap, Initial(workers), steps).Some?
    ensures var s := Run(cap, Initial(workers), steps).value;
            |s.workers| == workers && CountSpent(s.workers) <= s.completed
  {
    if steps == [] {
      IdleNotSpent(workers);
    } else {
      var n := |steps| - 1;
      SpentAreCompleted(cap, workers, steps[..n]);
      hide CountSpent, Apply, Enabled;
      var t := Run(cap, Initial(workers), steps[..n]).value;
      if WorkerStep(steps[n]) { SpentWorkerStep(cap, t, steps[n]); } else { OtherStep(cap, t, steps[n]); }
    }
  }

  lemma {:induction false} AllSpent(ws: seq<WorkerPc>)
    requires forall i :: 0 <= i < |ws| ==> ws[i] == WorkerGone(false)
    ensures CountSpent(ws) == |ws|
  {
    if ws != [] { AllSpent(ws[..|ws| - 1]); }
  }

  lemma {:induction false} GoneHoldsNothing(ws: seq<WorkerPc>, c: nat)
    requires forall i :: 0 <= i < |ws| ==> ws[i].WorkerGone?
    ensures CountHeld(ws, c) == 0 && CountShaking(ws) == 0
  {
    if ws != [] { GoneHoldsNothing(ws[..|ws| - 1], c); }
  }

  /** A finished shutdown that leaves the inbox non-empty has accepted more connections than there are workers. */
  lemma {:induction false} StrandedNeedsMore(cap: nat, workers: nat, steps: seq<Step>)
    requires workers >= 1 && Run(cap, Initial(workers), steps).Some?
    ensures var s := Run(cap, Initial(workers), steps).value;
            s.drain.Finished? && s.inbox != [] ==> |s.accepted| > workers
  {
    RunSafe(cap, workers, steps);
    SpentAreCompleted(cap, workers, steps);
    var s := Run(cap, Initial(workers), steps).value;
    hide Run;
    if s.drain.Finished? && s.inbox != [] {
      assert forall i :: 0 <= i < |s.workers| ==> s.workers[i] == WorkerGone(false);
      AllSpent(s.workers);
      GoneHoldsNothing(s.workers, 0);
    }
  }

  /** Once the shutdown has finished, an accepted connection was delivered or closed exactly once, or it is in the
      inbox; and it is not in the inbox unless more connections than workers were accepted. */
  lemma {:induction false} AfterShutdown(cap: nat, workers: nat, steps: seq<Step>, c: nat)
    requires workers >= 1 && Run(cap, Initial(workers), steps).Some?
    requires var s := Run(cap, Initial(workers), steps).value; s.drain.Finished? && c in s.accepted
    ensures var s := Run(cap, Initial(workers), steps).value;
      && Count(s.inbox, c) + Count(s.delivered, c) + Count(s.shut, c) == 1
      && (|s.accepted| <= workers ==> Count(s.delivered, c) + Count(s.shut, c) == 1)
  {
    RunSafe(cap, workers, steps);
    StrandedNeedsMore(cap, workers, steps);
    var s := Run(cap, Initial(workers), steps).value;
    hide Run;
    GoneHoldsNothing(s.workers, c);
    assert Owners(s, c) == 1;
  }

  // ---------- More connections than workers can strand one ----------

  /** A running pool between two connections: nothing closed, nothing in the outbox. */
  datatype Pool = Pool(ws: seq<WorkerPc>, inbox: seq<nat>, acc: set<nat>, shut: seq<nat>, queued: int,
                       completed: nat, failed: nat)

  function Running(p: Pool): (s: State) {
    State(AtTop, p.ws, p.inbox, false, [], false, false, NotStarted, p.acc, [], p.shut, p.queued, p.completed, p.failed,
          0, false)
  }

  /** The same pool after Close. */
  function Closed(p: Pool): (s: State) {
    Running(p).(closed := true, drain := AwaitingExit)
  }

  lemma {:induction false} Extend(cap: nat, s: State, steps: seq<Step>, step: Step)
    requires Run(cap, s, steps).Some? && Enabled(cap, Run(cap, s, steps).value, step)
    ensures Run(cap, s, steps + [step]) == Some(Apply(cap, Run(cap, s, steps).value, step))
  {
    assert (steps + [step])[..|steps|] == steps;
  }

  /** The accept loop takes in one more connection. */
  lemma {:induction false} AcceptOne(cap: nat, init: State, pre: seq<Step>, p: Pool, c: nat) returns (steps: seq<Step>)
    requires Run(cap, init, pre) == Some(Running(p)) && |p.inbox| < cap && c !in p.acc
    ensures Run(cap, init, steps) ==
            Some(Running(p.(inbox := p.inbox + [c], acc := p.acc + {c}, queued := p.queued + 1)))
  {
    hide Run;
    Extend(cap, init, pre, CheckClosed);
    steps := pre + [CheckClosed];
    Extend(cap, init, steps, AcceptConn(c));
    steps := steps + [AcceptConn(c)];
    Extend(cap, init, steps, Enqueue);
    steps := steps + [Enqueue];
    Extend(cap, init, steps, CountQueued);
    steps := steps + [CountQueued];
  }

  /** An idle worker takes the only queued connection and begins its handshake. */
  lemma {:induction false} TakeOne(cap: nat, init: State, pre: seq<Step>, p: Pool, w: nat, c: nat)
    returns (steps: seq<Step>)
    requires Run(cap, init, pre) == Some(Running(p)) && p.inbox == [c] && w < |p.ws| && p.ws[w] == Idle
    ensures Run(cap, init, steps) == Some(Running(p.(ws := p.ws[w := Shaking(c)], inbox := [], queued := p.queued - 1)))
  {
    hide Run;
    Extend(cap, init, pre, Take(w));
    steps := pre + [Take(w)];
    Extend(cap, init, steps, Uncount(w));
    steps := steps + [Uncount(w)];
    assert p.ws[w := Taken(c)][w := Shaking(c)] == p.ws[w := Shaking(c)];
    assert p.inbox[1..] == [];
  }

  /** One connection is accepted and taken by worker w. */
  lemma {:induction false} HandleOne(cap: nat, init: State, pre: seq<Step>, p: Pool, w: nat, c: nat)
    returns (steps: seq<Step>)
    requires Run(cap, init, pre) == Some(Running(p)) && cap >= 1 && p.inbox == [] && c !in p.acc && w < |p.ws| &&
             p.ws[w] == Idle
    ensures Run(cap, init, steps) == Some(Running(p.(ws := p.ws[w := Shaking(c)], acc := p.acc + {c})))
  {
    hide Run, Apply, Enabled;
    steps := AcceptOne(cap, init, pre, p, c);
    var q := p.(inbox := p.inbox + [c], acc := p.acc + {c}, queued := p.queued + 1);
    assert q.inbox == [c];
    steps := TakeOne(cap, init, steps, q, w, c);
    assert p.inbox == [];
  }

  /** Connections whose handshake fails leave the pool as it was, until exactly k are left to accept. */
  lemma {:induction false} FailUntil(cap: nat, init: State, pre: seq<Step>, p: Pool, rest: set<nat>, k: nat)
      returns (steps: seq<Step>, q: Pool, left: set<nat>)
    requires Run(cap, init, pre) == Some(Running(p)) && cap >= 1 && |p.ws| >= 1 && p.ws[0] == Idle && p.inbox == []
    requires rest !! p.acc && |rest| >= k
    ensures Run(cap, init, steps) == Some(Running(q)) && q.ws == p.ws && q.inbox == []
    ensures q.acc + left == p.acc + rest && left !! q.acc && |left| == k
    decreases |rest|
  {
    hide Run, Apply, Enabled;
    if |rest| == k {
      steps, q, left := pre, p, rest;
    } else {
      var c :| c in rest;
      var u := p.(ws := p.ws[0 := Shaking(c)], acc := p.acc + {c});
      steps := HandleOne(cap, init, pre, p, 0, c);
      steps := FailOne(cap, init, steps, u, 0, c);
      q := u.(ws := u.ws[0 := Idle], shut := u.shut + [c], failed := u.failed + 1);
      assert q.ws == p.ws;
      steps, q, left := FailUntil(cap, init, steps, q, rest - {c}, k);
    }
  }

  lemma {:induction false} FailOne(cap: nat, init: State, pre: seq<Step>, p: Pool, w: nat, c: nat)
    returns (steps: seq<Step>)
    requires Run(cap, init, pre) == Some(Running(p)) && w < |p.ws| && p.ws[w] == Shaking(c)
    ensures Run(cap, init, steps) ==
            Some(Running(p.(ws := p.ws[w := Idle], shut := p.shut + [c], failed := p.failed + 1)))
  {
    hide Run;
    Extend(cap, init, pre, HandshakeFailed(w));
    steps := pre + [HandshakeFailed(w)];
  }

  lemma {:induction false} ShakeOne(cap: nat, init: State, pre: seq<Step>, p: Pool, w: nat, c: nat)
    returns (steps: seq<Step>)
    requires Run(cap, init, pre) == Some(Running(p)) && w < |p.ws| && p.ws[w] == Shaking(c)
    ensures Run(cap, init, steps) == Some(Running(p.(ws := p.ws[w := Sending(c)], completed := p.completed + 1)))
  {
    hide Run;
    Extend(cap, init, pre, HandshakeOk(w));
    steps := pre + [HandshakeOk(w)];
  }

  ghost predicate IdleFrom(ws: seq<WorkerPc>, w: nat) {
    forall i :: w <= i < |ws| ==> ws[i] == Idle
  }

  ghost predicate SendingUpTo(ws: seq<WorkerPc>, w: nat) {
    forall i :: 0 <= i < w && i < |ws| ==> ws[i].Sending?
  }

  /** Every worker from w on handshakes one connection; exactly one connection is left over. */
  lemma {:induction false} FillWorkers(cap: nat, init: State, pre: seq<Step>, p: Pool, rest: set<nat>, w: nat)
      returns (steps: seq<Step>, q: Pool, last: nat)
    requires Run(cap, init, pre) == Some(Running(p)) && cap >= 1 && p.inbox == [] && w <= |p.ws|
    requires IdleFrom(p.ws, w) && SendingUpTo(p.ws, w) && rest !! p.acc && |rest| == |p.ws| - w + 1
    ensures Run(cap, init, steps) == Some(Running(q)) && q.inbox == [] && |q.ws| == |p.ws| && SendingUpTo(q.ws, |q.ws|)
    ensures q.acc + {last} == p.acc + rest && last !in q.acc
    decreases |p.ws| - w
  {
    hide Run, Apply, Enabled;
    var c :| c in rest;
    if w == |p.ws| {
      assert |rest - {c}| == 0;
      steps, q, last := pre, p, c;
    } else {
      var u := p.(ws := p.ws[w := Shaking(c)], acc := p.acc + {c});
      steps := HandleOne(cap, init, pre, p, w, c);
      steps := ShakeOne(cap, init, steps, u, w, c);
      q := u.(ws := u.ws[w := Sending(c)], completed := u.completed + 1);
      steps, q, last := FillWorkers(cap, init, steps, q, rest - {c}, w + 1);
    }
  }

  lemma {:induction false} CloseNow(cap: nat, init: State, pre: seq<Step>, p: Pool) returns (steps: seq<Step>)
    requires Run(cap, init, pre) == Some(Running(p))
    ensures Run(cap, init, steps) == Some(Closed(p))
  {
    hide Run;
    Extend(cap, init, pre, CloseListener);
    steps := pre + [CloseListener];
  }

  lemma {:induction false} AbandonOne(cap: nat, init: State, pre: seq<Step>, p: Pool, w: nat) returns (steps: seq<Step>)
    requires Run(cap, init, pre) == Some(Closed(p)) && w < |p.ws| && p.ws[w].Sending?
    ensures Run(cap, init, steps) ==
            Some(Closed(p.(ws := p.ws[w := WorkerGone(false)], shut := p.shut + [p.ws[w].conn])))
  {
    hide Run;
    Extend(cap, init, pre, Abandon(w));
    steps := pre + [Abandon(w)];
  }

  /** Every worker closes the connection it could not hand over and leaves without looking at the inbox again. */
  lemma {:induction false} AbandonAll(cap: nat, init: State, pre: seq<Step>, p: Pool, w: nat)
    returns (steps: seq<Step>, q: Pool)
    requires Run(cap, init, pre) == Some(Closed(p)) && w <= |p.ws|
    requires forall i :: 0 <= i < |p.ws| ==> if i < w then p.ws[i].WorkerGone? else p.ws[i].Sending?
    ensures Run(cap, init, steps) == Some(Closed(q)) && q.inbox == p.inbox && q.acc == p.acc
    ensures forall i :: 0 <= i < |q.ws| ==> q.ws[i].WorkerGone?
    decreases |p.ws| - w
  {
    hide Run, Apply, Enabled;
    if w == |p.ws| {
      steps, q := pre, p;
    } else {
      steps := AbandonOne(cap, init, pre, p, w);
      q := p.(ws := p.ws[w := WorkerGone(false)], shut := p.shut + [p.ws[w].conn]);
      steps, q := AbandonAll(cap, init, steps, q, w + 1);
    }
  }

  /** With every worker gone, the accept loop leaves and the outbox is closed and drained. */
  lemma {:induction false} Finish(cap: nat, init: State, pre: seq<Step>, p: Pool) returns (steps: seq<Step>)
    requires Run(cap, init, pre) == Some(Closed(p)) && forall i :: 0 <= i < |p.ws| ==> p.ws[i].WorkerGone?
    ensures Run(cap, init, steps).Some?
    ensures var s := Run(cap, init, steps).value; s.drain.Finished? && s.inbox == p.inbox && s.accepted == p.acc
  {
    hide Run;
    Extend(cap, init, pre, CheckClosed);
    steps := pre + [CheckClosed];
    Extend(cap, init, steps, CloseInbox);
    steps := steps + [CloseInbox];
    Extend(cap, init, steps, LoopExit);
    steps := steps + [LoopExit];
    Extend(cap, init, steps, CloseOutbox);
    steps := steps + [CloseOutbox];
    Extend(cap, init, steps, DrainEnd);
    steps := steps + [DrainEnd];
  }

  /** For every pool and every set of more connections than workers, a run accepts exactly those, shuts down, and ends
      with one of them in the inbox for good. */
  lemma {:induction false} ShutdownCanStrand(cap: nat, workers: nat, conns: set<nat>) returns (steps: seq<Step>)
    requires workers >= 1 && cap >= 1 && |conns| > workers
    ensures Run(cap, Initial(workers), steps).Some?
    ensures var s := Run(cap, Initial(workers), steps).value;
            s.drain.Finished? && s.accepted == conns && s.inbox != []
  {
    var init := Initial(workers);
    var p := Pool(seq(workers, _ => Idle), [], {}, [], 0, 0, 0);
    assert Run(cap, init, []) == Some(Running(p));
    hide Run, Apply, Enabled;
    var left: set<nat>, last: nat;
    steps, p, left := FailUntil(cap, init, [], p, conns, workers + 1);
    steps, p, last := FillWorkers(cap, init, steps, p, left, 0);
    steps := AcceptOne(cap, init, steps, p, last);
    p := p.(inbox := p.inbox + [last], acc := p.acc + {last}, queued := p.queued + 1);
    steps := CloseNow(cap, init, steps, p);
    steps, p := AbandonAll(cap, init, steps, p, 0);
    steps := Finish(cap, init, steps, p);
  }

  /** A shutdown after accepting a given set of connections can strand one of them in the inbox exactly when they are
      more than the workers. */
  lemma {:induction false} StrandsIff(cap: nat, workers: nat, conns: set<nat>)
    requires workers >= 1 && cap >= 1
    ensures |conns| > workers <==>
            exists steps :: && Run(cap, Initial(workers), steps).Some?
                            && var s := Run(cap, Initial(workers), steps).value;
                               s.drain.Finished? && s.accepted == conns && s.inbox != []
  {
    hide Run;
    if |conns| > workers {
      var steps := ShutdownCanStrand(cap, workers, conns);
    }
    forall steps | Run(cap, Initial(workers), steps).Some?
      ensures var s := Run(cap, Initial(workers), steps).value;
              s.drain.Finished? && s.inbox != [] ==> |s.accepted| > workers
    {
      StrandedNeedsMore(cap, workers, steps);
    }
  }
}
