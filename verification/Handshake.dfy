/** The handshake pool: an accept loop, any number of workers, Accept callers and the
    shutdown goroutine around two bounded channels, under every interleaving. */
module Handshake {
  import opened Common

  /** What the outbox carries: a handshaken connection or a terminal accept error. */
  datatype Result = Ready(conn: nat) | AcceptError

  /** The accept loop: at the closed check, inside Accept, holding a connection, counting the one it queued,
      forwarding an error, about to close the inbox, about to leave, gone. */
  datatype LoopPc = AtTop | Accepting | Holding(conn: nat) | Counting | Forwarding | Closing | Leaving | LoopGone

  /** A worker: waiting, holding a raw connection before and after it is uncounted, holding a handshaken one, gone
      (after finding the inbox closed and empty, or because of the shutdown). */
  datatype WorkerPc = Idle | Taken(conn: nat) | Shaking(conn: nat) | Sending(conn: nat) | WorkerGone(drained: bool)

  datatype DrainPc = NotStarted | AwaitingExit | Draining | Finished

  datatype State = State(
    loop: LoopPc,
    workers: seq<WorkerPc>,
    inbox: seq<nat>,
    inboxClosed: bool,
    outbox: seq<Result>,
    outboxClosed: bool,
    closed: bool,
    drain: DrainPc,
    accepted: set<nat>,
    delivered: seq<nat>,
    shut: seq<nat>,
    queued: int,
    completed: nat,
    failed: nat,
    dropped: nat,
    panicked: bool)

  function Initial(workers: nat): (s: State) {
    State(AtTop, seq(workers, _ => Idle), [], false, [], false, false, NotStarted,
          {}, [], [], 0, 0, 0, 0, false)
  }

  datatype Step =
    | CheckClosed
    | AcceptConn(conn: nat)
    | AcceptTransient
    | AcceptFatal
    | AcceptAfterClose
    | SendError
    | SkipError
    | Enqueue
    | DropAtShutdown
    | DropFull
    | CountQueued
    | CloseInbox
    | LoopExit
    | Take(worker: nat)
    | FindEmpty(worker: nat)
    | Uncount(worker: nat)
    | HandshakeOk(worker: nat)
    | HandshakeFailed(worker: nat)
    | Deliver(worker: nat)
    | Abandon(worker: nat)
    | CallerReceive
    | CloseListener
    | CloseOutbox
    | DrainOne
    | DrainEnd

  predicate AllGone(s: State) {
    s.loop.LoopGone? && forall i :: 0 <= i < |s.workers| ==> s.workers[i].WorkerGone?
  }

  /** Which steps can happen; a send on a closed channel is possible, and panics. */
  predicate Enabled(cap: nat, s: State, step: Step) {
    match step
    case CheckClosed => s.loop.AtTop?
    case AcceptConn(c) => s.loop.Accepting? && c !in s.accepted
    case AcceptTransient => s.loop.Accepting? && !s.closed
    case AcceptFatal => s.loop.Accepting? && !s.closed
    case AcceptAfterClose => s.loop.Accepting? && s.closed
    case SendError => s.loop.Forwarding? && (s.outboxClosed || |s.outbox| < cap)
    case SkipError => s.loop.Forwarding? && s.closed
    case Enqueue => s.loop.Holding? && (s.inboxClosed || |s.inbox| < cap)
    case DropAtShutdown => s.loop.Holding? && s.closed
    case DropFull => s.loop.Holding? && !s.closed && !s.inboxClosed && |s.inbox| >= cap
    case CountQueued => s.loop.Counting?
    case CloseInbox => s.loop.Closing?
    case LoopExit => s.loop.Leaving?
    case Take(w) => w < |s.workers| && s.workers[w].Idle? && s.inbox != []
    case FindEmpty(w) => w < |s.workers| && s.workers[w].Idle? && s.inbox == [] && s.inboxClosed
    case Uncount(w) => w < |s.workers| && s.workers[w].Taken?
    case HandshakeOk(w) => w < |s.workers| && s.workers[w].Shaking?
    case HandshakeFailed(w) => w < |s.workers| && s.workers[w].Shaking?
    case Deliver(w) => w < |s.workers| && s.workers[w].Sending? && (s.outboxClosed || |s.outbox| < cap)
    case Abandon(w) => w < |s.workers| && s.workers[w].Sending? && s.closed
    case CallerReceive => s.outbox != []
    case CloseListener => true
    case CloseOutbox => s.drain.AwaitingExit? && AllGone(s)
    case DrainOne => s.drain.Draining? && s.outbox != []
    case DrainEnd => s.drain.Draining? && s.outbox == []
  }

  function Worker(s: State, w: nat, pc: WorkerPc): (r: State)
    requires w < |s.workers|
  {
    s.(workers := s.workers[w := pc])
  }

  function Conns(r: Result): (m: seq<nat>) {
    if r.Ready? then [r.conn] else []
  }

  function Apply(cap: nat, s: State, step: Step): (r: State)
    requires Enabled(cap, s, step)
  {
    match step
    case CheckClosed => s.(loop := if s.closed then Closing else Accepting)
    case AcceptConn(c) => s.(loop := Holding(c), accepted := s.accepted + {c})
    case AcceptTransient => s.(loop := AtTop)
    case AcceptFatal => s.(loop := Forwarding)
    case AcceptAfterClose => s.(loop := Closing)
    case SendError => s.(loop := Closing, outbox := s.outbox + [AcceptError], panicked := s.panicked || s.outboxClosed)
    case SkipError => s.(loop := Closing)
    case Enqueue => s.(loop := Counting, inbox := s.inbox + [s.loop.conn], panicked := s.panicked || s.inboxClosed)
    case DropAtShutdown => s.(loop := Closing, shut := s.shut + [s.loop.conn], dropped := s.dropped + 1)
    case DropFull => s.(loop := AtTop, shut := s.shut + [s.loop.conn], failed := s.failed + 1)
    case CountQueued => s.(loop := AtTop, queued := s.queued + 1)
    case CloseInbox => s.(loop := Leaving, inboxClosed := true, panicked := s.panicked || s.inboxClosed)
    case LoopExit => s.(loop := LoopGone)
    case Take(w) => Worker(s.(inbox := s.inbox[1..]), w, Taken(s.inbox[0]))
    case FindEmpty(w) => Worker(s, w, WorkerGone(true))
    case Uncount(w) => Worker(s.(queued := s.queued - 1), w, Shaking(s.workers[w].conn))
    case HandshakeOk(w) => Worker(s.(completed := s.completed + 1), w, Sending(s.workers[w].conn))
    case HandshakeFailed(w) =>
      Worker(s.(failed := s.failed + 1, shut := s.shut + [s.workers[w].conn]), w, Idle)
    case Deliver(w) =>
      Worker(s.(outbox := s.outbox + [Ready(s.workers[w].conn)], panicked := s.panicked || s.outboxClosed), w, Idle)
    case Abandon(w) => Worker(s.(shut := s.shut + [s.workers[w].conn]), w, WorkerGone(false))
    case CallerReceive => s.(outbox := s.outbox[1..], delivered := s.delivered + Conns(s.outbox[0]))
    case CloseListener => if s.closed then s else s.(closed := true, drain := AwaitingExit)
    case CloseOutbox => s.(drain := Draining, outboxClosed := true, panicked := s.panicked || s.outboxClosed)
    case DrainOne => s.(outbox := s.outbox[1..], shut := s.shut + Conns(s.outbox[0]))
    case DrainEnd => s.(drain := Finished)
  }

  function Run(cap: nat, s: State, steps: seq<Step>): (r: Option<State>) {
    if steps == [] then Some(s)
    else
      var n := |steps| - 1;
      var t := Run(cap, s, steps[..n]);
      if t.Some? && Enabled(cap, t.value, steps[n]) then Some(Apply(cap, t.value, steps[n])) else None
  }

  // ---------- Counting ----------

  function B(b: bool): (r: nat) {
    if b then 1 else 0
  }

  function Count(s: seq<nat>, c: nat): (r: nat) {
    if s == [] then 0 else Count(s[..|s| - 1], c) + B(s[|s| - 1] == c)
  }

  function CountReady(out: seq<Result>, c: nat): (r: nat) {
    if out == [] then 0 else CountReady(out[..|out| - 1], c) + B(out[|out| - 1] == Ready(c))
  }

  predicate HoldsConn(pc: WorkerPc, c: nat) {
    (pc.Taken? || pc.Shaking? || pc.Sending?) && pc.conn == c
  }

  function CountHeld(ws: seq<WorkerPc>, c: nat): (r: nat) {
    if ws == [] then 0 else CountHeld(ws[..|ws| - 1], c) + B(HoldsConn(ws[|ws| - 1], c))
  }

  /** A worker with a raw connection whose handshake has not been counted yet. */
  predicate IsShaking(pc: WorkerPc) {
    pc.Taken? || pc.Shaking?
  }

  function CountShaking(ws: seq<WorkerPc>): (r: nat) {
    if ws == [] then 0 else CountShaking(ws[..|ws| - 1]) + B(IsShaking(ws[|ws| - 1]))
  }

  function CountTaken(ws: seq<WorkerPc>): (r: nat) {
    if ws == [] then 0 else CountTaken(ws[..|ws| - 1]) + B(ws[|ws| - 1].Taken?)
  }

  lemma {:induction false} CountAppend(s: seq<nat>, x: nat, c: nat)
    ensures Count(s + [x], c) == Count(s, c) + B(x == c)
  {
    assert (s + [x])[..|s|] == s;
  }

  lemma {:induction false} CountTail(s: seq<nat>, c: nat)
    requires s != []
    ensures Count(s, c) == B(s[0] == c) + Count(s[1..], c)
  {
    if |s| > 1 {
      var n := |s| - 1;
      CountTail(s[..n], c);
      assert s[..n][1..] == s[1..][..n - 1];
    }
  }

  lemma {:induction false} ReadyAppend(out: seq<Result>, r: Result, c: nat)
    ensures CountReady(out + [r], c) == CountReady(out, c) + B(r == Ready(c))
  {
    assert (out + [r])[..|out|] == out;
  }

  lemma {:induction false} ReadyTail(out: seq<Result>, c: nat)
    requires out != []
    ensures CountReady(out, c) == B(out[0] == Ready(c)) + CountReady(out[1..], c)
  {
    if |out| > 1 {
      var n := |out| - 1;
      ReadyTail(out[..n], c);
      assert out[..n][1..] == out[1..][..n - 1];
    }
  }

  lemma {:induction false} HeldUpdate(ws: seq<WorkerPc>, w: nat, pc: WorkerPc, c: nat)
    requires w < |ws|
    ensures CountHeld(ws[w := pc], c) + B(HoldsConn(ws[w], c)) == CountHeld(ws, c) + B(HoldsConn(pc, c))
  {
    var n := |ws| - 1;
    if w == n {
      assert ws[w := pc][..n] == ws[..n];
    } else {
      assert ws[w := pc][..n] == ws[..n][w := pc];
      HeldUpdate(ws[..n], w, pc, c);
    }
  }

  lemma {:induction false} StageUpdate(ws: seq<WorkerPc>, w: nat, pc: WorkerPc)
    requires w < |ws|
    ensures CountShaking(ws[w := pc]) + B(IsShaking(ws[w])) == CountShaking(ws) + B(IsShaking(pc))
    ensures CountTaken(ws[w := pc]) + B(ws[w].Taken?) == CountTaken(ws) + B(pc.Taken?)
  {
    var n := |ws| - 1;
    if w == n {
      assert ws[w := pc][..n] == ws[..n];
    } else {
      assert ws[w := pc][..n] == ws[..n][w := pc];
      StageUpdate(ws[..n], w, pc);
    }
  }

  // ---------- Invariant ----------

  /** In how many places a connection is: with the accept loop, in the inbox, with a worker, in the outbox, with
      an Accept caller, or closed. */
  function Owners(s: State, c: nat): (r: nat) {
    B(s.loop == Holding(c)) + Count(s.inbox, c) + CountHeld(s.workers, c) + CountReady(s.outbox, c)
    + Count(s.delivered, c) + Count(s.shut, c)
  }

  /** Every accepted connection is in exactly one place, and no other is anywhere. */
  ghost predicate Owned(s: State) {
    forall c: nat :: Owners(s, c) == B(c in s.accepted)
  }

  /** accepted = held + inbox + handshaking + completed + failed + at most one dropped at shutdown; and the queue
      gauge is the inbox depth up to the two counts in flight. */
  ghost predicate Conserved(s: State) {
    && |s.accepted| == B(s.loop.Holding?) + |s.inbox| + CountShaking(s.workers) + s.completed + s.failed + s.dropped
    && s.queued == |s.inbox| + CountTaken(s.workers) - B(s.loop.Counting?)
    && s.dropped <= 1 && (s.dropped == 1 ==> s.loop.Closing? || s.loop.Leaving? || s.loop.LoopGone?)
  }

  /** Who may still use which channel. */
  ghost predicate Channels(cap: nat, s: State) {
    && !s.panicked
    && (s.inboxClosed <==> s.loop.Leaving? || s.loop.LoopGone?)
    && (s.outboxClosed <==> s.drain.Draining? || s.drain.Finished?)
    && (s.outboxClosed ==> AllGone(s))
    && (s.closed <==> !s.drain.NotStarted?)
    && |s.inbox| <= cap && |s.outbox| <= cap
    && (s.drain.Finished? ==> s.outbox == [])
    && forall w :: 0 <= w < |s.workers| && s.workers[w] == WorkerGone(true) ==> s.inboxClosed && s.inbox == []
  }

  predicate WorkerStep(step: Step) {
    step.Take? || step.FindEmpty? || step.Uncount? || step.HandshakeOk? || step.HandshakeFailed? || step.Deliver? ||
    step.Abandon?
  }

  lemma {:induction false} ChannelsStep(cap: nat, s: State, step: Step)
    requires Channels(cap, s) && Enabled(cap, s, step)
    ensures Channels(cap, Apply(cap, s, step))
  {
    if WorkerStep(step) { ChannelsWorker(cap, s, step); }
  }

  lemma {:induction false} ChannelsWorker(cap: nat, s: State, step: Step)
    requires Channels(cap, s) && Enabled(cap, s, step) && WorkerStep(step)
    ensures Channels(cap, Apply(cap, s, step))
  {
    match step
    case Take(_) =>
    case FindEmpty(_) =>
    case Uncount(_) =>
    case HandshakeOk(_) =>
    case HandshakeFailed(_) =>
    case Deliver(_) =>
    case Abandon(_) =>
  }

  lemma {:induction false} ConservedStep(cap: nat, s: State, step: Step)
    requires Channels(cap, s) && Conserved(s) && Enabled(cap, s, step)
    ensures Conserved(Apply(cap, s, step))
  {
    hide CountShaking, CountTaken;
    if WorkerStep(step) {
      ConservedWorker(cap, s, step);
    }
  }

  lemma {:induction false} ConservedWorker(cap: nat, s: State, step: Step)
    requires Conserved(s) && Enabled(cap, s, step) && WorkerStep(step)
    ensures Conserved(Apply(cap, s, step))
  {
    hide CountShaking, CountTaken;
    StageUpdate(s.workers, step.worker, Apply(cap, s, step).workers[step.worker]);
  }

  lemma {:induction false} WorkerOwners(cap: nat, s: State, step: Step, c: nat)
    requires Enabled(cap, s, step) && WorkerStep(step)
    ensures Owners(Apply(cap, s, step), c) == Owners(s, c)
  {
    hide Count, CountHeld, CountReady;
    var t := Apply(cap, s, step);
    HeldUpdate(s.workers, step.worker, t.workers[step.worker], c);
    if step.Take? {
      CountTail(s.inbox, c);
    } else if step.Deliver? {
      ReadyAppend(s.outbox, Ready(s.workers[step.worker].conn), c);
    } else if step.HandshakeFailed? || step.Abandon? {
      CountAppend(s.shut, s.workers[step.worker].conn, c);
    }
  }

  lemma {:induction false} LoopOwners(cap: nat, s: State, step: Step, c: nat)
    requires Enabled(cap, s, step) && !WorkerStep(step)
    ensures Owners(Apply(cap, s, step), c) == Owners(s, c) + B(step == AcceptConn(c))
  {
    if step.CallerReceive? || step.DrainOne? {
      HandOver(if step.DrainOne? then s.shut else s.delivered, s.outbox, c);
    } else if step.Enqueue? || step.DropAtShutdown? || step.DropFull? || step.SendError? {
      ReleaseOwners(cap, s, step, c);
    }
  }

  lemma {:induction false} ReleaseOwners(cap: nat, s: State, step: Step, c: nat)
    requires Enabled(cap, s, step) && (step.Enqueue? || step.DropAtShutdown? || step.DropFull? || step.SendError?)
    ensures Owners(Apply(cap, s, step), c) == Owners(s, c)
  {
    if step.SendError? {
      ReadyAppend(s.outbox, AcceptError, c);
    } else {
      CountAppend(if step.Enqueue? then s.inbox else s.shut, s.loop.conn, c);
    }
  }

  lemma {:induction false} HandOver(log: seq<nat>, out: seq<Result>, c: nat)
    requires out != []
    ensures Count(log + Conns(out[0]), c) + CountReady(out[1..], c) == Count(log, c) + CountReady(out, c)
  {
    ReadyTail(out, c);
    if out[0].Ready? {
      CountAppend(log, out[0].conn, c);
    } else {
      assert log + [] == log;
    }
  }

  lemma {:induction false} AcceptedStep(cap: nat, s: State, step: Step)
    requires Enabled(cap, s, step)
    ensures Apply(cap, s, step).accepted == if step.AcceptConn? then s.accepted + {step.conn} else s.accepted
    ensures step.AcceptConn? ==> step.conn !in s.accepted && !WorkerStep(step)
  {
  }

  lemma {:induction false} OwnedStep(cap: nat, s: State, step: Step)
    requires Owned(s) && Enabled(cap, s, step)
    ensures Owned(Apply(cap, s, step))
  {
    hide Apply, Enabled, Owners, WorkerStep;
    AcceptedStep(cap, s, step);
    forall c: nat
      ensures Owners(Apply(cap, s, step), c) == B(c in Apply(cap, s, step).accepted)
    {
      if WorkerStep(step) {
        WorkerOwners(cap, s, step, c);
      } else {
        LoopOwners(cap, s, step, c);
      }
    }
  }

  lemma {:induction false} InitialInv(cap: nat, workers: nat)
    ensures Channels(cap, Initial(workers)) && Conserved(Initial(workers)) && Owned(Initial(workers))
  {
    IdleCounts(workers);
    forall c: nat
      ensures Owners(Initial(workers), c) == 0
    {
      IdleHolds(workers, c);
    }
  }

  lemma {:induction false} IdleCounts(n: nat)
    ensures CountShaking(seq(n, _ => Idle)) == 0 && CountTaken(seq(n, _ => Idle)) == 0
  {
    if n > 0 {
      assert seq(n, _ => Idle)[..n - 1] == seq(n - 1, _ => Idle);
      IdleCounts(n - 1);
    }
  }

  lemma {:induction false} IdleHolds(n: nat, c: nat)
    ensures CountHeld(seq(n, _ => Idle), c) == 0
  {
    if n > 0 {
      assert seq(n, _ => Idle)[..n - 1] == seq(n - 1, _ => Idle);
      IdleHolds(n - 1, c);
    }
  }

  /** In every interleaving, of any number of workers over channels of any capacity: every accepted connection has
      exactly one owner, none is lost from the counters, and no run sends on a closed channel or closes one twice. */
  lemma {:induction false} RunSafe(cap: nat, workers: nat, steps: seq<Step>)
    requires Run(cap, Initial(workers), steps).Some?
    ensures var s := Run(cap, Initial(workers), steps).value; Channels(cap, s) && Conserved(s) && Owned(s)
  {
    if steps == [] {
      InitialInv(cap, workers);
    } else {
      var n := |steps| - 1;
      RunSafe(cap, workers, steps[..n]);
      var t := Run(cap, Initial(workers), steps[..n]).value;
      ChannelsStep(cap, t, steps[n]);
      ConservedStep(cap, t, steps[n]);
      OwnedStep(cap, t, steps[n]);
    }
  }

  /** The accept loop never waits for room: holding a connection it can queue or drop it, and it drops one for want of
      room only when the inbox is full. */
  lemma {:induction false} LoopNeverWaits(cap: nat, workers: nat, steps: seq<Step>)
    requires Run(cap, Initial(workers), steps).Some?
    ensures var s := Run(cap, Initial(workers), steps).value;
            && (s.loop.Holding? ==>
                  Enabled(cap, s, Enqueue) || Enabled(cap, s, DropAtShutdown) || Enabled(cap, s, DropFull))
            && (Enabled(cap, s, DropFull) ==> |s.inbox| == cap && !s.closed)
  {
    hide Run, Conserved, Owned;
    RunSafe(cap, workers, steps);
  }

  /** A worker that is not gone can step in every reachable state, unless it waits for a connection with the inbox empty
      and open, or for room in a full outbox before the shutdown. */
  lemma {:induction false} WorkerBlockedIff(cap: nat, workers: nat, steps: seq<Step>, w: nat)
    requires Run(cap, Initial(workers), steps).Some? && w < |Run(cap, Initial(workers), steps).value.workers|
    ensures var s := Run(cap, Initial(workers), steps).value;
            (forall step :: WorkerStep(step) && step.worker == w ==> !Enabled(cap, s, step)) <==>
            || s.workers[w].WorkerGone?
            || (s.workers[w].Idle? && s.inbox == [] && !s.inboxClosed)
            || (s.workers[w].Sending? && |s.outbox| == cap && !s.closed)
  {
    hide Run, Conserved, Owned, Channels, Enabled;
    RunSafe(cap, workers, steps);
    WorkerBlocked(cap, Run(cap, Initial(workers), steps).value, w);
  }

  lemma {:induction false} WorkerBlocked(cap: nat, s: State, w: nat)
    requires Channels(cap, s) && w < |s.workers|
    ensures (forall step :: WorkerStep(step) && step.worker == w ==> !Enabled(cap, s, step)) <==>
            || s.workers[w].WorkerGone?
            || (s.workers[w].Idle? && s.inbox == [] && !s.inboxClosed)
            || (s.workers[w].Sending? && |s.outbox| == cap && !s.closed)
  {
    match s.workers[w]
    case Idle => assert WorkerStep(Take(w)) && WorkerStep(FindEmpty(w));
    case Taken(_) => assert WorkerStep(Uncount(w));
    case Shaking(_) => assert WorkerStep(HandshakeOk(w));
    case Sending(_) => assert WorkerStep(Deliver(w)) && WorkerStep(Abandon(w));
    case WorkerGone(_) =>
  }

  /** The loop that forwards an accept error waits exactly while the outbox is full and the pool is not shut down. */
  lemma {:induction false} ForwardingBlockedIff(cap: nat, workers: nat, steps: seq<Step>)
    requires Run(cap, Initial(workers), steps).Some? && Run(cap, Initial(workers), steps).value.loop.Forwarding?
    ensures var s := Run(cap, Initial(workers), steps).value;
            !Enabled(cap, s, SendError) && !Enabled(cap, s, SkipError) <==> |s.outbox| == cap && !s.closed
  {
    hide Run, Conserved, Owned;
    RunSafe(cap, workers, steps);
  }

  // ---------- Order ----------

  /** What a step puts into the inbox, and what the worker holds that took from it. */
  function IntoInbox(s: State, step: Step): (r: seq<nat>) {
    if step.Enqueue? && s.loop.Holding? then [s.loop.conn] else []
  }

  function FromInbox(step: Step, t: State): (r: seq<nat>) {
    if step.Take? && step.worker < |t.workers| && t.workers[step.worker].Taken? then [t.workers[step.worker].conn]
    else []
  }

  /** What a step sends to the outbox, and what callers or the drain get out of it: what it adds to the delivered or
      closed connections. */
  function IntoOutbox(s: State, step: Step): (r: seq<nat>) {
    if step.Deliver? && step.worker < |s.workers| && s.workers[step.worker].Sending? then [s.workers[step.worker].conn]
    else []
  }

  function FromOutbox(s: State, step: Step, t: State): (r: seq<nat>) {
    if step.CallerReceive? && |s.delivered| <= |t.delivered| then t.delivered[|s.delivered|..]
    else if step.DrainOne? && |s.shut| <= |t.shut| then t.shut[|s.shut|..]
    else []
  }

  /** The connections that went into and came out of the two channels in a run, in order. */
  datatype Traffic = Traffic(inboxIn: seq<nat>, inboxOut: seq<nat>, outboxIn: seq<nat>, outboxOut: seq<nat>)

  function TrafficOf(cap: nat, s: State, steps: seq<Step>): (r: Traffic) {
    if steps == [] then Traffic([], [], [], [])
    else
      var n := |steps| - 1;
      var r, t, u := TrafficOf(cap, s, steps[..n]), Run(cap, s, steps[..n]), Run(cap, s, steps);
      if t.None? || u.None? then r
      else
        Traffic(r.inboxIn + IntoInbox(t.value, steps[n]), r.inboxOut + FromInbox(steps[n], u.value),
                r.outboxIn + IntoOutbox(t.value, steps[n]), r.outboxOut + FromOutbox(t.value, steps[n], u.value))
  }

  /** The handshaken connections among results. */
  function ReadyConns(out: seq<Result>): (r: seq<nat>) {
    if out == [] then [] else Conns(out[0]) + ReadyConns(out[1..])
  }

  lemma {:induction false} ReadyConnsConcat(a: seq<Result>, b: seq<Result>)
    ensures ReadyConns(a + b) == ReadyConns(a) + ReadyConns(b)
  {
    if a == [] {
      assert a + b == b;
    } else {
      assert (a + b)[1..] == a[1..] + b;
      ReadyConnsConcat(a[1..], b);
    }
  }

  /** Both channels are first in, first out: connections are taken up in the order in which they were queued, and
      come out in the order in which their handshakes were handed over; the channels hold the rest. */
  lemma {:induction false} ChannelsAreFifo(cap: nat, workers: nat, steps: seq<Step>)
    requires Run(cap, Initial(workers), steps).Some?
    ensures var r, s := TrafficOf(cap, Initial(workers), steps), Run(cap, Initial(workers), steps).value;
            r.inboxIn == r.inboxOut + s.inbox && r.outboxIn == r.outboxOut + ReadyConns(s.outbox)
  {
    if steps != [] {
      hide Apply, Enabled, Initial, ReadyConns, IntoInbox, FromInbox, IntoOutbox, FromOutbox;
      var n, init := |steps| - 1, Initial(workers);
      ChannelsAreFifo(cap, workers, steps[..n]);
      var r, s, t := TrafficOf(cap, init, steps[..n]), Run(cap, init, steps[..n]).value, Run(cap, init, steps).value;
      InboxStep(cap, s, steps[n]);
      OutboxStep(cap, s, steps[n]);
      Shift(r.inboxOut, s.inbox, IntoInbox(s, steps[n]), FromInbox(steps[n], t), t.inbox);
      Shift(r.outboxOut, ReadyConns(s.outbox), IntoOutbox(s, steps[n]), FromOutbox(s, steps[n], t),
            ReadyConns(t.outbox));
    }
  }

  lemma {:induction false} Shift(gone: seq<nat>, held: seq<nat>, more: seq<nat>, out: seq<nat>, rest: seq<nat>)
    requires held + more == out + rest
    ensures gone + held + more == gone + out + rest
  {
    assert gone + held + more == gone + (held + more);
    assert gone + out + rest == gone + (out + rest);
  }

  lemma {:induction false} InboxStep(cap: nat, s: State, step: Step)
    requires Enabled(cap, s, step)
    ensures var t := Apply(cap, s, step); s.inbox + IntoInbox(s, step) == FromInbox(step, t) + t.inbox
  {
    hide Apply, Enabled;
    if step.Enqueue? {
      EnqueueEffect(cap, s);
    } else if step.Take? {
      TakeEffect(cap, s, step.worker);
    } else {
      KeepsInbox(cap, s, step);
    }
  }

  lemma {:induction false} EnqueueEffect(cap: nat, s: State)
    requires Enabled(cap, s, Enqueue)
    ensures s.loop.Holding? && Apply(cap, s, Enqueue).inbox == s.inbox + [s.loop.conn]
  {
  }

  lemma {:induction false} TakeEffect(cap: nat, s: State, w: nat)
    requires Enabled(cap, s, Take(w))
    ensures var t := Apply(cap, s, Take(w));
            w < |t.workers| && t.workers[w].Taken? && s.inbox == [t.workers[w].conn] + t.inbox
  {
  }

  predicate LoopStep(step: Step) {
    || step.CheckClosed? || step.AcceptConn? || step.AcceptTransient? || step.AcceptFatal? || step.AcceptAfterClose?
    || step.SendError? || step.SkipError? || step.Enqueue? || step.DropAtShutdown? || step.DropFull?
    || step.CountQueued? || step.CloseInbox? || step.LoopExit?
  }

  lemma {:induction false} KeepsInbox(cap: nat, s: State, step: Step)
    requires Enabled(cap, s, step) && !step.Enqueue? && !step.Take?
    ensures Apply(cap, s, step).inbox == s.inbox
  {
    hide Apply, Enabled;
    if LoopStep(step) { LoopKeeps(cap, s, step); } else { OthersKeep(cap, s, step); }
  }

  lemma {:induction false} LoopKeeps(cap: nat, s: State, step: Step)
    requires Enabled(cap, s, step) && LoopStep(step)
    ensures !step.Enqueue? ==> Apply(cap, s, step).inbox == s.inbox
    ensures !step.SendError? ==> Apply(cap, s, step).outbox == s.outbox
  {
    hide Conns, Worker;
  }

  lemma {:induction false} OthersKeep(cap: nat, s: State, step: Step)
    requires Enabled(cap, s, step) && !LoopStep(step)
    ensures !step.Take? ==> Apply(cap, s, step).inbox == s.inbox
    ensures !step.Deliver? && !step.CallerReceive? && !step.DrainOne? ==> Apply(cap, s, step).outbox == s.outbox
  {
    hide Conns;
  }

  lemma {:induction false} OutboxStep(cap: nat, s: State, step: Step)
    requires Enabled(cap, s, step)
    ensures var t := Apply(cap, s, step);
            ReadyConns(s.outbox) + IntoOutbox(s, step) == FromOutbox(s, step, t) + ReadyConns(t.outbox)
  {
    if step.Deliver? {
      ReadyConnsConcat(s.outbox, [Ready(s.workers[step.worker].conn)]);
      ReadyOne(s.workers[step.worker].conn);
    } else if step.SendError? {
      ReadyConnsConcat(s.outbox, [AcceptError]);
      ReadyNone();
    } else if !step.CallerReceive? && !step.DrainOne? {
      KeepsOutbox(cap, s, step);
    }
  }

  lemma {:induction false} ReadyOne(c: nat)
    ensures ReadyConns([Ready(c)]) == [c]
  {
  }

  lemma {:induction false} ReadyNone()
    ensures ReadyConns([AcceptError]) == []
  {
  }

  lemma {:induction false} KeepsOutbox(cap: nat, s: State, step: Step)
    requires Enabled(cap, s, step) && !step.Deliver? && !step.SendError? && !step.CallerReceive? && !step.DrainOne?
    ensures Apply(cap, s, step).outbox == s.outbox
  {
    hide Apply, Enabled;
    if LoopStep(step) { LoopKeeps(cap, s, step); } else { OthersKeep(cap, s, step); }
  }
}
