/** Single-flight origin fetches under every interleaving. Each call of `Fetch` is a
    program counter; steps happen at the breaker check, the lock, the completion of the
    fetch, the breaker record, the close of `done` and the deletion of the flight. */
module SingleFlight {
  import opened Common
  import B = Breaker

  /** What the origin answered: a response with a status and body, or an error. */
  datatype Reply = Response(status: int, body: string) | FetchError(reason: string)

  /** What a call returns. */
  datatype Outcome = CircuitOpen | Got(reply: Reply) | Cancelled | TimedOut

  datatype Pc =
    | Start
    | AtLock
    | Waiting(flight: nat)
    | Fetching(flight: nat)
    | Fetched(flight: nat)
    | Recorded(flight: nat)
    | Signalled(flight: nat)
    | Returned(outcome: Outcome, joined: Option<nat>, led: Option<nat>)

  datatype Call = Call(key: string, pc: Pc)
  datatype Flight = Flight(key: string, leader: nat, reply: Option<Reply>, done: bool)

  /** `history` is the breaker's event history, `records` the flights recorded in it, in
      order, and `panicked` is set when a closed channel is closed again. */
  datatype State = State(
    calls: map<nat, Call>,
    flights: map<nat, Flight>,
    table: map<string, nat>,
    breaker: B.State,
    history: seq<B.Event>,
    records: seq<nat>,
    panicked: bool)

  const INITIAL: State := State(map[], map[], map[], B.INITIAL, [], [], false)

  datatype Step =
    | Arrive(call: nat, key: string)
    | CheckBreaker(call: nat, now: int)
    | Lookup(call: nat, id: nat)
    | Complete(call: nat, reply: Reply)
    | Record(call: nat, now: int)
    | Signal(call: nat)
    | Unregister(call: nat)
    | Receive(call: nat)
    | Cancel(call: nat)
    | Timeout(call: nat)

  function AsEvent(reply: Reply, now: int): (e: B.Event) {
    if reply.FetchError? || reply.status >= 500 then B.Failure(now) else B.Success
  }

  /** Whether a step can be taken. */
  predicate Enabled(s: State, step: Step) {
    match step
    case Arrive(c, key) => c !in s.calls
    case CheckBreaker(c, now) => c in s.calls && s.calls[c].pc.Start?
    case Lookup(c, f) => c in s.calls && s.calls[c].pc.AtLock? && f !in s.flights
    case Complete(c, reply) => c in s.calls && s.calls[c].pc.Fetching? && s.calls[c].pc.flight in s.flights
    case Record(c, now) =>
      && c in s.calls && s.calls[c].pc.Fetched?
      && s.calls[c].pc.flight in s.flights && s.flights[s.calls[c].pc.flight].reply.Some?
    case Signal(c) => c in s.calls && s.calls[c].pc.Recorded? && s.calls[c].pc.flight in s.flights
    case Unregister(c) =>
      && c in s.calls && s.calls[c].pc.Signalled?
      && s.calls[c].pc.flight in s.flights && s.flights[s.calls[c].pc.flight].reply.Some?
    case Receive(c) =>
      && c in s.calls && s.calls[c].pc.Waiting? && s.calls[c].pc.flight in s.flights
      && s.flights[s.calls[c].pc.flight].done && s.flights[s.calls[c].pc.flight].reply.Some?
    case Cancel(c) => c in s.calls && s.calls[c].pc.Waiting?
    case Timeout(c) => c in s.calls && s.calls[c].pc.Waiting?
  }

  function Goto(s: State, c: nat, pc: Pc): (r: State)
    requires c in s.calls
  {
    s.(calls := s.calls[c := s.calls[c].(pc := pc)])
  }

  function Apply(p: B.Params, s: State, step: Step): (r: State)
    requires Enabled(s, step)
  {
    match step
    case Arrive(c, key) => s.(calls := s.calls[c := Call(key, Start)])
    case CheckBreaker(c, now) =>
      var t := s.(breaker := B.AfterAllow(p, s.breaker, now), history := s.history + [B.Allow(now)]);
      Goto(t, c, if B.Admits(p, s.breaker, now) then AtLock else Returned(CircuitOpen, None, None))
    case Lookup(c, f) =>
      var key := s.calls[c].key;
      if key in s.table then Goto(s, c, Waiting(s.table[key]))
      else Goto(s.(flights := s.flights[f := Flight(key, c, None, false)], table := s.table[key := f]), c, Fetching(f))
    case Complete(c, reply) =>
      var f := s.calls[c].pc.flight;
      Goto(s.(flights := s.flights[f := s.flights[f].(reply := Some(reply))]), c, Fetched(f))
    case Record(c, now) =>
      var f := s.calls[c].pc.flight;
      var e := AsEvent(s.flights[f].reply.value, now);
      Goto(s.(breaker := B.Step(p, s.breaker, e), history := s.history + [e], records := s.records + [f]), c,
           Recorded(f))
    case Signal(c) =>
      var f := s.calls[c].pc.flight;
      Goto(s.(flights := s.flights[f := s.flights[f].(done := true)], panicked := s.panicked || s.flights[f].done), c,
           Signalled(f))
    case Unregister(c) =>
      var f := s.calls[c].pc.flight;
      Goto(s.(table := s.table - {s.calls[c].key}), c, Returned(Got(s.flights[f].reply.value), None, Some(f)))
    case Receive(c) =>
      var f := s.calls[c].pc.flight;
      Goto(s, c, Returned(Got(s.flights[f].reply.value), Some(f), None))
    case Cancel(c) => Goto(s, c, Returned(Cancelled, Some(s.calls[c].pc.flight), None))
    case Timeout(c) => Goto(s, c, Returned(TimedOut, Some(s.calls[c].pc.flight), None))
  }

  /** States reachable by any interleaving. */
  ghost predicate Reachable(p: B.Params, steps: seq<Step>, s: State) {
    if steps == [] then s == INITIAL
    else
      var n := |steps| - 1;
      exists t :: Reachable(p, steps[..n], t) && Enabled(t, steps[n]) && s == Apply(p, t, steps[n])
  }

  // ---------- Invariant ----------

  /** A leader that has not yet deleted its flight. */
  predicate Leads(pc: Pc, f: nat) {
    (pc.Fetching? || pc.Fetched? || pc.Recorded? || pc.Signalled?) && pc.flight == f
  }

  predicate HasLed(pc: Pc, f: nat) {
    pc.Returned? && pc.led == Some(f)
  }

  /** Every flight has one leader, whose position fixes what has happened to it. */
  ghost predicate FlightOk(s: State, f: nat)
    requires f in s.flights
  {
    var fl := s.flights[f];
    && fl.leader in s.calls && s.calls[fl.leader].key == fl.key
    && var pc := s.calls[fl.leader].pc;
       && (Leads(pc, f) || HasLed(pc, f))
       && (fl.reply.None? <==> pc.Fetching?)
       && (f in s.records <==> pc.Recorded? || pc.Signalled? || pc.Returned?)
       && (fl.done <==> pc.Signalled? || pc.Returned?)
       && (Leads(pc, f) <==> fl.key in s.table && s.table[fl.key] == f)
  }

  /** Calls refer to real flights, and outcomes come from the flight joined or led. */
  ghost predicate CallOk(s: State, c: nat)
    requires c in s.calls
  {
    var pc := s.calls[c].pc;
    && (forall f :: Leads(pc, f) ==> f in s.flights && s.flights[f].leader == c)
    && (pc.Waiting? ==> pc.flight in s.flights && s.flights[pc.flight].key == s.calls[c].key)
    && (pc.Returned? && pc.led.Some? ==>
          && pc.led.value in s.flights && s.flights[pc.led.value].leader == c
          && s.flights[pc.led.value].reply.Some? && pc.outcome == Got(s.flights[pc.led.value].reply.value))
    && (pc.Returned? && pc.joined.Some? ==>
          && pc.joined.value in s.flights && s.flights[pc.joined.value].key == s.calls[c].key
          && (pc.outcome.Got? ==> s.flights[pc.joined.value].reply == Some(pc.outcome.reply))
          && !pc.outcome.CircuitOpen?)
    && (pc.Returned? && pc.joined.None? && pc.led.None? ==> pc.outcome.CircuitOpen?)
  }

  ghost predicate TableOk(s: State) {
    forall key :: key in s.table ==> s.table[key] in s.flights && s.flights[s.table[key]].key == key
  }

  /** The recorded outcomes of a breaker history, admissions left out. */
  function Outcomes(h: seq<B.Event>): (r: seq<B.Event>) {
    if h == [] then []
    else Outcomes(h[..|h| - 1]) + (if h[|h| - 1].Allow? then [] else [h[|h| - 1]])
  }

  /** An error, or a status of 500 and above. */
  predicate Bad(reply: Reply) {
    match reply
    case FetchError(_) => true
    case Response(status, _) => status >= 500
  }

  /** A failure is recorded for a bad reply, a success otherwise. */
  predicate Records(e: B.Event, reply: Reply) {
    if Bad(reply) then e.Failure? else e.Success?
  }

  /** The breaker has heard each recorded flight exactly once, in order, and nothing else. */
  ghost predicate RecordsOk(s: State) {
    && |Outcomes(s.history)| == |s.records|
    && (forall i, j :: 0 <= i < j < |s.records| ==> s.records[i] != s.records[j])
    && forall i :: 0 <= i < |s.records| ==>
         && s.records[i] in s.flights && s.flights[s.records[i]].reply.Some?
         && Records(Outcomes(s.history)[i], s.flights[s.records[i]].reply.value)
  }

  ghost predicate Inv(p: B.Params, s: State) {
    && (forall c :: c in s.calls ==> CallOk(s, c))
    && (forall f :: f in s.flights ==> FlightOk(s, f))
    && TableOk(s)
    && RecordsOk(s)
    && s.breaker == B.Run(p, s.history)
    && !s.panicked
  }

  lemma {:induction false} HistoryExtends(p: B.Params, s: State, e: B.Event)
    requires s.breaker == B.Run(p, s.history)
    ensures B.Step(p, s.breaker, e) == B.Run(p, s.history + [e])
    ensures Outcomes(s.history + [e]) == Outcomes(s.history) + (if e.Allow? then [] else [e])
  {
    assert (s.history + [e])[..|s.history|] == s.history;
  }

  lemma {:induction false} StepKeepsInv(p: B.Params, s: State, step: Step)
    requires Inv(p, s) && Enabled(s, step)
    ensures Inv(p, Apply(p, s, step))
  {
    match step
    case Arrive(c, key) => ArriveKeeps(p, s, c, key);
    case CheckBreaker(c, now) => CheckKeeps(p, s, c, now);
    case Lookup(c, f) => LookupKeeps(p, s, c, f);
    case Complete(c, reply) => CompleteKeeps(p, s, c, reply);
    case Record(c, now) => RecordKeeps(p, s, c, now);
    case Signal(c) => SignalKeeps(p, s, c);
    case Unregister(c) => UnregisterKeeps(p, s, c);
    case Receive(c) => ReturnKeeps(p, s, c, Got(s.flights[s.calls[c].pc.flight].reply.value));
    case Cancel(c) => assert CallOk(s, c); ReturnKeeps(p, s, c, Cancelled);
    case Timeout(c) => assert CallOk(s, c); ReturnKeeps(p, s, c, TimedOut);
  }

  lemma {:induction false} ArriveKeeps(p: B.Params, s: State, c: nat, key: string)
    requires Inv(p, s) && Enabled(s, Arrive(c, key))
    ensures Inv(p, Apply(p, s, Arrive(c, key)))
  {
    var t := Apply(p, s, Arrive(c, key));
    forall d | d in t.calls ensures CallOk(t, d) { if d != c { assert CallOk(s, d); } }
    forall f | f in t.flights ensures FlightOk(t, f) { assert FlightOk(s, f); }
  }

  /** A call that moves without touching flights, table or records leaves the other calls in order. */
  lemma {:induction false} OtherCall(s: State, t: State, d: nat)
    requires d in s.calls && d in t.calls && t.calls[d] == s.calls[d] && t.flights == s.flights && CallOk(s, d)
    ensures CallOk(t, d)
  {
  }

  /** A call that leads no flight and has led none. */
  predicate Outsider(pc: Pc) {
    pc.Start? || pc.AtLock? || pc.Waiting?
  }

  lemma {:induction false} OtherFlight(s: State, t: State, c: nat, f: nat)
    requires c in s.calls && Outsider(s.calls[c].pc) && t.calls.Keys == s.calls.Keys
    requires forall d :: d in s.calls && d != c ==> t.calls[d] == s.calls[d]
    requires t.flights == s.flights && t.table == s.table && t.records == s.records && f in s.flights && FlightOk(s, f)
    ensures FlightOk(t, f)
  {
  }

  lemma {:induction false} SameRecords(s: State, t: State)
    requires RecordsOk(s) && t.records == s.records && t.flights == s.flights && t.history == s.history
    ensures RecordsOk(t)
  {
    hide Outcomes, Records;
  }

  /** An outsider moves and nothing else does. */
  lemma {:induction false} OutsiderFrame(p: B.Params, s: State, c: nat, pc: Pc)
    requires Inv(p, s) && c in s.calls && Outsider(s.calls[c].pc) && CallOk(Goto(s, c, pc), c)
    ensures Inv(p, Goto(s, c, pc))
  {
    hide CallOk, FlightOk, RecordsOk, B.Run;
    var t := Goto(s, c, pc);
    SameRecords(s, t);
    forall d | d in t.calls ensures CallOk(t, d) { if d != c { OtherCall(s, t, d); } }
    forall f | f in t.flights ensures FlightOk(t, f) { OtherFlight(s, t, c, f); }
  }

  lemma {:induction false} AdmissionUnrecorded(p: B.Params, s: State, t: State, e: B.Event)
    requires RecordsOk(s) && s.breaker == B.Run(p, s.history) && e.Allow?
    requires t.history == s.history + [e] && t.records == s.records && t.flights == s.flights &&
             t.breaker == B.Step(p, s.breaker, e)
    ensures RecordsOk(t) && t.breaker == B.Run(p, t.history)
  {
    hide B.Step;
    HistoryExtends(p, s, e);
    hide B.Run, Outcomes, Records;
    assert Outcomes(t.history) == Outcomes(s.history);
  }

  lemma {:induction false} CheckMoves(p: B.Params, s: State, c: nat, now: int)
    requires Enabled(s, CheckBreaker(c, now))
    ensures c in s.calls && Outsider(s.calls[c].pc)
    ensures var t := Apply(p, s, CheckBreaker(c, now));
            && t.calls.Keys == s.calls.Keys && (forall d :: d in s.calls && d != c ==> t.calls[d] == s.calls[d])
            && t.flights == s.flights && t.table == s.table && t.records == s.records && t.panicked == s.panicked
            && t.history == s.history + [B.Allow(now)] && t.breaker == B.Step(p, s.breaker, B.Allow(now))
            && CallOk(t, c)
  {
  }

  lemma {:induction false} CheckKeeps(p: B.Params, s: State, c: nat, now: int)
    requires Inv(p, s) && Enabled(s, CheckBreaker(c, now))
    ensures Inv(p, Apply(p, s, CheckBreaker(c, now)))
  {
    hide FlightOk, CallOk, RecordsOk, Apply, Enabled, B.Run, B.Step;
    var t := Apply(p, s, CheckBreaker(c, now));
    CheckMoves(p, s, c, now);
    AdmissionUnrecorded(p, s, t, B.Allow(now));
    forall d | d in t.calls ensures CallOk(t, d) { if d != c { OtherCall(s, t, d); } }
    forall f | f in t.flights ensures FlightOk(t, f) { OtherFlight(s, t, c, f); }
  }

  lemma {:induction false} LookupKeeps(p: B.Params, s: State, c: nat, id: nat)
    requires Inv(p, s) && Enabled(s, Lookup(c, id))
    ensures Inv(p, Apply(p, s, Lookup(c, id)))
  {
    var key := s.calls[c].key;
    if key in s.table {
      JoinKeeps(p, s, c, s.table[key]);
    } else {
      LeadKeeps(p, s, c, id);
    }
  }

  lemma {:induction false} JoinKeeps(p: B.Params, s: State, c: nat, f0: nat)
    requires Inv(p, s) && c in s.calls && s.calls[c].pc.AtLock?
    requires f0 in s.flights && s.flights[f0].key == s.calls[c].key
    ensures Inv(p, Goto(s, c, Waiting(f0)))
  {
    hide FlightOk, RecordsOk, TableOk, B.Run;
    assert CallOk(Goto(s, c, Waiting(f0)), c);
    hide CallOk;
    OutsiderFrame(p, s, c, Waiting(f0));
  }

  /** The state after call c opens flight id. */
  function Led(s: State, c: nat, id: nat): (t: State)
    requires c in s.calls
  {
    var key := s.calls[c].key;
    Goto(s.(flights := s.flights[id := Flight(key, c, None, false)], table := s.table[key := id]), c, Fetching(id))
  }

  lemma {:induction false} LedCall(s: State, c: nat, id: nat, d: nat)
    requires c in s.calls && s.calls[c].pc.AtLock? && id !in s.flights && d in s.calls && CallOk(s, d)
    ensures CallOk(Led(s, c, id), d)
  {
  }

  lemma {:induction false} LedFlight(s: State, c: nat, id: nat, f: nat)
    requires c in s.calls && s.calls[c].pc.AtLock? && id !in s.flights && f in s.flights && FlightOk(s, f)
    requires s.calls[c].key !in s.table
    ensures FlightOk(Led(s, c, id), f)
  {
    assert s.flights[f].leader != c;
  }

  lemma {:induction false} LedOwnFlight(s: State, c: nat, id: nat)
    requires c in s.calls && id !in s.flights && id !in s.records
    ensures FlightOk(Led(s, c, id), id)
  {
  }

  lemma {:induction false} LedTables(s: State, c: nat, id: nat)
    requires c in s.calls && id !in s.flights && TableOk(s) && RecordsOk(s)
    ensures TableOk(Led(s, c, id)) && RecordsOk(Led(s, c, id)) && id !in s.records
  {
  }

  lemma {:induction false} LeadKeeps(p: B.Params, s: State, c: nat, id: nat)
    requires Inv(p, s) && Enabled(s, Lookup(c, id)) && s.calls[c].key !in s.table
    ensures Inv(p, Apply(p, s, Lookup(c, id)))
  {
    hide CallOk, FlightOk, TableOk, RecordsOk;
    var t := Led(s, c, id);
    assert Apply(p, s, Lookup(c, id)) == t;
    LedTables(s, c, id);
    forall d | d in t.calls ensures CallOk(t, d) { LedCall(s, c, id, d); }
    forall f | f in t.flights ensures FlightOk(t, f) {
      if f == id { LedOwnFlight(s, c, id); } else { LedFlight(s, c, id, f); }
    }
  }

  /** A leader, its flight, and what the invariant says of both. */
  ghost predicate Own(s: State, c: nat, f0: nat) {
    && c in s.calls && f0 in s.flights && s.flights[f0].leader == c && Leads(s.calls[c].pc, f0)
    && CallOk(s, c) && FlightOk(s, f0)
  }

  lemma {:induction false} OwnsFlight(p: B.Params, s: State, c: nat, f0: nat)
    requires Inv(p, s) && c in s.calls && Leads(s.calls[c].pc, f0)
    ensures Own(s, c, f0)
  {
    hide FlightOk, RecordsOk, TableOk, B.Run;
    assert CallOk(s, c);
  }

  /** From s to t only call c, its flight f0, that flight's place in the table and in the records moved. */
  ghost predicate LeaderMoved(s: State, t: State, c: nat, f0: nat) {
    && c in s.calls && c in t.calls && f0 in s.flights && f0 in t.flights
    && t.calls == s.calls[c := t.calls[c]] && t.calls[c].key == s.calls[c].key
    && t.flights == s.flights[f0 := t.flights[f0]]
    && t.flights[f0].key == s.flights[f0].key && t.flights[f0].leader == s.flights[f0].leader == c
    && (s.flights[f0].reply.Some? ==> t.flights[f0].reply == s.flights[f0].reply)
    && Leads(s.calls[c].pc, f0) && s.flights[f0].key in s.table && s.table[s.flights[f0].key] == f0
    && (t.table == s.table || t.table == s.table - {s.flights[f0].key})
    && (t.records == s.records || t.records == s.records + [f0])
  }

  lemma {:induction false} MovedCall(s: State, t: State, c: nat, f0: nat, d: nat)
    requires LeaderMoved(s, t, c, f0) && d in s.calls && d != c && CallOk(s, d)
    ensures d in t.calls && CallOk(t, d)
  {
  }

  lemma {:induction false} MovedFlight(s: State, t: State, c: nat, f0: nat, f: nat)
    requires LeaderMoved(s, t, c, f0) && f in s.flights && f != f0 && FlightOk(s, f)
    ensures f in t.flights && FlightOk(t, f)
  {
    assert s.flights[f].leader != c;
  }

  lemma {:induction false} MovedTable(s: State, t: State, c: nat, f0: nat)
    requires LeaderMoved(s, t, c, f0) && TableOk(s)
    ensures TableOk(t)
  {
  }

  /** Recorded outcomes stand while replies do. */
  lemma {:induction false} MovedRecords(s: State, t: State, c: nat, f0: nat)
    requires LeaderMoved(s, t, c, f0) && RecordsOk(s) && t.records == s.records && t.history == s.history
    ensures RecordsOk(t)
  {
    hide Outcomes, Records;
  }

  lemma {:induction false} LeaderFrame(p: B.Params, s: State, t: State, c: nat, f0: nat)
    requires Inv(p, s) && LeaderMoved(s, t, c, f0) && CallOk(t, c) && FlightOk(t, f0)
    requires RecordsOk(t) && t.breaker == B.Run(p, t.history) && !t.panicked
    ensures Inv(p, t)
  {
    hide CallOk, FlightOk, RecordsOk, TableOk, B.Run;
    MovedTable(s, t, c, f0);
    forall d | d in t.calls ensures CallOk(t, d) { if d != c { MovedCall(s, t, c, f0, d); } }
    forall f | f in t.flights ensures FlightOk(t, f) { if f != f0 { MovedFlight(s, t, c, f0, f); } }
  }

  /** A leader's step in order. */
  ghost predicate LeaderStepOk(s: State, t: State, c: nat, f0: nat) {
    LeaderMoved(s, t, c, f0) && CallOk(t, c) && FlightOk(t, f0) && (!s.panicked ==> !t.panicked)
  }

  lemma {:induction false} CompleteOk(p: B.Params, s: State, c: nat, reply: Reply, f0: nat)
    requires Enabled(s, Complete(c, reply)) && Own(s, c, f0)
    ensures var t := Apply(p, s, Complete(c, reply));
            LeaderStepOk(s, t, c, f0) && t.records == s.records && t.history == s.history && t.breaker == s.breaker
  {
  }

  lemma {:induction false} CompleteKeeps(p: B.Params, s: State, c: nat, reply: Reply)
    requires Inv(p, s) && Enabled(s, Complete(c, reply))
    ensures Inv(p, Apply(p, s, Complete(c, reply)))
  {
    var f0 := s.calls[c].pc.flight;
    hide CallOk, FlightOk, RecordsOk, TableOk, B.Run, Apply, Enabled, Own, LeaderMoved;
    OwnsFlight(p, s, c, f0);
    CompleteOk(p, s, c, reply, f0);
    MovedRecords(s, Apply(p, s, Complete(c, reply)), c, f0);
    LeaderFrame(p, s, Apply(p, s, Complete(c, reply)), c, f0);
  }

  lemma {:induction false} RecordOk(p: B.Params, s: State, c: nat, now: int, f0: nat)
    requires Enabled(s, Record(c, now)) && Own(s, c, f0)
    ensures f0 !in s.records && s.flights[f0].reply.Some?
    ensures var t, e := Apply(p, s, Record(c, now)), AsEvent(s.flights[f0].reply.value, now);
            && LeaderStepOk(s, t, c, f0) && t.records == s.records + [f0] && t.history == s.history + [e] &&
               t.flights == s.flights
            && t.breaker == B.Step(p, s.breaker, e)
  {
    hide B.Step;
  }

  lemma {:induction false} RecordsExtend(p: B.Params, s: State, t: State, f: nat, e: B.Event, now: int)
    requires RecordsOk(s) && f in s.flights && s.flights[f].reply.Some? && f !in s.records
    requires e == AsEvent(s.flights[f].reply.value, now) && Outcomes(t.history) == Outcomes(s.history) + [e]
    requires t.records == s.records + [f] && t.flights == s.flights
    ensures RecordsOk(t)
  {
    assert Records(e, s.flights[f].reply.value);
  }

  lemma {:induction false} RecordKeeps(p: B.Params, s: State, c: nat, now: int)
    requires Inv(p, s) && Enabled(s, Record(c, now))
    ensures Inv(p, Apply(p, s, Record(c, now)))
  {
    var f0 := s.calls[c].pc.flight;
    hide CallOk, FlightOk, RecordsOk, TableOk, B.Run, B.Step, Apply, Enabled, Own, LeaderMoved, AsEvent, Outcomes;
    OwnsFlight(p, s, c, f0);
    RecordOk(p, s, c, now, f0);
    var t, e := Apply(p, s, Record(c, now)), AsEvent(s.flights[f0].reply.value, now);
    HistoryExtends(p, s, e);
    RecordsAreOutcomes(s.flights[f0].reply.value, now);
    RecordsExtend(p, s, t, f0, e, now);
    LeaderFrame(p, s, t, c, f0);
  }

  lemma {:induction false} RecordsAreOutcomes(reply: Reply, now: int)
    ensures !AsEvent(reply, now).Allow?
  {
  }

  lemma {:induction false} SignalOk(p: B.Params, s: State, c: nat, f0: nat)
    requires Enabled(s, Signal(c)) && Own(s, c, f0)
    ensures var t := Apply(p, s, Signal(c));
            LeaderStepOk(s, t, c, f0) && t.records == s.records && t.history == s.history && t.breaker == s.breaker
  {
  }

  lemma {:induction false} SignalKeeps(p: B.Params, s: State, c: nat)
    requires Inv(p, s) && Enabled(s, Signal(c))
    ensures Inv(p, Apply(p, s, Signal(c)))
  {
    var f0 := s.calls[c].pc.flight;
    hide CallOk, FlightOk, RecordsOk, TableOk, B.Run, Apply, Enabled, Own, LeaderMoved;
    OwnsFlight(p, s, c, f0);
    SignalOk(p, s, c, f0);
    MovedRecords(s, Apply(p, s, Signal(c)), c, f0);
    LeaderFrame(p, s, Apply(p, s, Signal(c)), c, f0);
  }

  lemma {:induction false} UnregisterOk(p: B.Params, s: State, c: nat, f0: nat)
    requires Enabled(s, Unregister(c)) && Own(s, c, f0)
    ensures var t := Apply(p, s, Unregister(c));
            LeaderStepOk(s, t, c, f0) && t.records == s.records && t.history == s.history && t.breaker == s.breaker
  {
  }

  lemma {:induction false} UnregisterKeeps(p: B.Params, s: State, c: nat)
    requires Inv(p, s) && Enabled(s, Unregister(c))
    ensures Inv(p, Apply(p, s, Unregister(c)))
  {
    var f0 := s.calls[c].pc.flight;
    hide CallOk, FlightOk, RecordsOk, TableOk, B.Run, Apply, Enabled, Own, LeaderMoved;
    OwnsFlight(p, s, c, f0);
    UnregisterOk(p, s, c, f0);
    MovedRecords(s, Apply(p, s, Unregister(c)), c, f0);
    LeaderFrame(p, s, Apply(p, s, Unregister(c)), c, f0);
  }

  lemma {:induction false} ReturnKeeps(p: B.Params, s: State, c: nat, outcome: Outcome)
    requires Inv(p, s) && c in s.calls && s.calls[c].pc.Waiting? && !outcome.CircuitOpen?
    requires s.calls[c].pc.flight in s.flights
    requires outcome.Got? ==> s.flights[s.calls[c].pc.flight].reply == Some(outcome.reply)
    ensures Inv(p, Goto(s, c, Returned(outcome, Some(s.calls[c].pc.flight), None)))
  {
    hide FlightOk, RecordsOk, TableOk, B.Run;
    var pc := Returned(outcome, Some(s.calls[c].pc.flight), None);
    assert CallOk(s, c);
    assert CallOk(Goto(s, c, pc), c);
    hide CallOk;
    OutsiderFrame(p, s, c, pc);
  }

  /** The invariant holds in every state of every interleaving. */
  lemma {:induction false} ReachableInv(p: B.Params, steps: seq<Step>, s: State)
    requires Reachable(p, steps, s)
    ensures Inv(p, s)
  {
    if steps != [] {
      var n := |steps| - 1;
      var t :| Reachable(p, steps[..n], t) && Enabled(t, steps[n]) && s == Apply(p, t, steps[n]);
      ReachableInv(p, steps[..n], t);
      StepKeepsInv(p, t, steps[n]);
    }
  }

  // ---------- What callers see ----------

  /** At most one origin fetch per key is in progress. */
  lemma {:induction false} OneFetchPerKey(p: B.Params, steps: seq<Step>, s: State, c: nat, d: nat)
    requires Reachable(p, steps, s) && c in s.calls && d in s.calls
    requires s.calls[c].pc.Fetching? && s.calls[d].pc.Fetching? && s.calls[c].key == s.calls[d].key
    ensures c == d
  {
    ReachableInv(p, steps, s);
    var f, g := s.calls[c].pc.flight, s.calls[d].pc.flight;
    assert CallOk(s, c) && CallOk(s, d) && Leads(s.calls[c].pc, f) && Leads(s.calls[d].pc, g);
    assert FlightOk(s, f) && FlightOk(s, g);
  }

  /** The flight table holds exactly the flights whose leader has not deleted them yet. */
  lemma {:induction false} TableIsLiveFlights(p: B.Params, steps: seq<Step>, s: State, f: nat)
    requires Reachable(p, steps, s) && f in s.flights
    ensures s.flights[f].leader in s.calls
    ensures Leads(s.calls[s.flights[f].leader].pc, f) <==> exists key :: key in s.table && s.table[key] == f
  {
    ReachableInv(p, steps, s);
    assert FlightOk(s, f);
  }

  /** Each completed fetch is recorded once, by its leader, with the outcome it had; the breaker hears of nothing
      else, so followers record nothing, and its state is that of its history; no channel is closed twice. */
  lemma {:induction false} RecordedExactlyOnce(p: B.Params, steps: seq<Step>, s: State)
    requires Reachable(p, steps, s)
    ensures RecordsOk(s) && s.breaker == B.Run(p, s.history) && !s.panicked
    ensures forall f :: f in s.flights ==>
      s.flights[f].leader in s.calls &&
      (f in s.records <==> var pc := s.calls[s.flights[f].leader].pc; pc.Recorded? || pc.Signalled? || pc.Returned?)
  {
    ReachableInv(p, steps, s);
    forall f | f in s.flights
      ensures FlightOk(s, f)
    {
    }
  }

  lemma {:induction false} TrailingOutcomes(h: seq<B.Event>, k: nat)
    requires k <= |Outcomes(h)| && forall i :: |Outcomes(h)| - k <= i < |Outcomes(h)| ==> Outcomes(h)[i].Failure?
    ensures B.TrailingFailures(h) >= k
  {
    if h != [] && k > 0 {
      var n := |h| - 1;
      var before := Outcomes(h[..n]);
      if h[n].Allow? {
        assert Outcomes(h) == before;
        TrailingOutcomes(h[..n], k);
      } else {
        assert Outcomes(h) == before + [h[n]];
        assert Outcomes(h)[|before|] == h[n];
        assert forall i :: 0 <= i < |before| ==> before[i] == Outcomes(h)[i];
        TrailingOutcomes(h[..n], k - 1);
      }
    }
  }

  /** After as many bad replies recorded in a row as the failure threshold says, the breaker is not closed; right after
      the last of them it is open. */
  lemma {:induction false} BadRepliesOpen(p: B.Params, steps: seq<Step>, s: State, k: nat)
    requires Reachable(p, steps, s) && p.Failures() <= k <= |s.records|
    requires forall i :: |s.records| - k <= i < |s.records| ==>
               s.records[i] in s.flights && s.flights[s.records[i]].reply.Some? &&
               Bad(s.flights[s.records[i]].reply.value)
    ensures s.breaker.phase != B.Closed
    ensures s.history != [] && !s.history[|s.history| - 1].Allow? ==> s.breaker.phase == B.Open
  {
    hide Reachable, Outcomes, B.Run, B.TrailingFailures, CallOk, FlightOk;
    ReachableInv(p, steps, s);
    TrailingOutcomes(s.history, k);
    B.CountersExact(p, s.history);
    if s.history != [] && !s.history[|s.history| - 1].Allow? {
      LastOutcome(s.history);
      B.FailuresOpen(p, s.history);
    }
  }

  lemma {:induction false} LastOutcome(h: seq<B.Event>)
    requires h != [] && !h[|h| - 1].Allow?
    ensures Outcomes(h) != [] && Outcomes(h)[|Outcomes(h)| - 1] == h[|h| - 1]
  {
  }

  /** The record of a bad reply is a failure at the time of the record, that of any other a success. */
  lemma {:induction false} RecordedNow(p: B.Params, s: State, c: nat, now: int)
    requires Enabled(s, Record(c, now))
    ensures var t, reply := Apply(p, s, Record(c, now)), s.flights[s.calls[c].pc.flight].reply.value;
            && (Bad(reply) ==> t.history == s.history + [B.Failure(now)] && B.LatestFailure(t.history) == now)
            && (!Bad(reply) ==> t.history == s.history + [B.Success] && B.TrailingFailures(t.history) == 0)
  {
    hide B.Step;
  }

  /** A call is turned away exactly when the breaker is open and the timeout has not passed since the latest failure. */
  lemma {:induction false} TurnedAwayIff(p: B.Params, steps: seq<Step>, s: State, c: nat, now: int)
    requires Reachable(p, steps, s) && Enabled(s, CheckBreaker(c, now))
    ensures var t := Apply(p, s, CheckBreaker(c, now));
            && c in t.calls
            && t.calls[c].pc ==
               if s.breaker.phase == B.Open && now <= B.LatestFailure(s.history) + p.openTimeout
               then Returned(CircuitOpen, None, None) else AtLock
  {
    hide Reachable, Outcomes, B.Run, B.TrailingFailures, CallOk, FlightOk, B.LatestFailure;
    ReachableInv(p, steps, s);
    B.AdmitsIff(p, s.history, now);
  }

  /** A follower returns the reply of the flight it joined, or its own cancellation or timeout. */
  lemma {:induction false} FollowerOutcome(p: B.Params, steps: seq<Step>, s: State, c: nat)
    requires Reachable(p, steps, s) && c in s.calls && s.calls[c].pc.Returned? && s.calls[c].pc.joined.Some?
    ensures var pc := s.calls[c].pc;
      && pc.joined.value in s.flights && s.flights[pc.joined.value].key == s.calls[c].key
      && (pc.outcome.Cancelled? || pc.outcome.TimedOut? ||
          (pc.outcome.Got? && s.flights[pc.joined.value].reply == Some(pc.outcome.reply)))
  {
    ReachableInv(p, steps, s);
    assert CallOk(s, c);
  }

  /** Every outcome has its cause in the run: the breaker turned the call away, it was cancelled, it timed out, or it
      led a flight or waited for one. */
  lemma {:induction false} OutcomeHasCause(p: B.Params, steps: seq<Step>, s: State, c: nat)
    requires Reachable(p, steps, s) && c in s.calls && s.calls[c].pc.Returned?
    ensures match s.calls[c].pc.outcome
            case CircuitOpen => exists now :: CheckBreaker(c, now) in steps
            case Cancelled => Cancel(c) in steps
            case TimedOut => Timeout(c) in steps
            case Got(_) => Unregister(c) in steps || Receive(c) in steps
  {
    var n := |steps| - 1;
    var t :| Reachable(p, steps[..n], t) && Enabled(t, steps[n]) && s == Apply(p, t, steps[n]);
    assert steps[n] in steps;
    hide Reachable;
    if c in t.calls && t.calls[c].pc.Returned? {
      OutcomeHasCause(p, steps[..n], t, c);
      ReturnedStays(p, t, steps[n], c);
      if t.calls[c].pc.outcome.CircuitOpen? {
        var now :| CheckBreaker(c, now) in steps[..n];
        assert CheckBreaker(c, now) in steps;
      }
    } else {
      ReturnsBy(p, t, steps[n], c);
    }
  }

  lemma {:induction false} ReturnedStays(p: B.Params, s: State, step: Step, c: nat)
    requires Enabled(s, step) && c in s.calls && s.calls[c].pc.Returned?
    ensures c in Apply(p, s, step).calls && Apply(p, s, step).calls[c] == s.calls[c]
  {
    hide B.Step;
  }

  lemma {:induction false} ReturnsBy(p: B.Params, s: State, step: Step, c: nat)
    requires Enabled(s, step) && (c in s.calls ==> !s.calls[c].pc.Returned?)
    requires c in Apply(p, s, step).calls && Apply(p, s, step).calls[c].pc.Returned?
    ensures match Apply(p, s, step).calls[c].pc.outcome
            case CircuitOpen => step.CheckBreaker? && step.call == c
            case Cancelled => step == Cancel(c)
            case TimedOut => step == Timeout(c)
            case Got(_) => step == Unregister(c) || step == Receive(c)
  {
    hide B.Step, B.Admits;
  }

  /** A follower never waits for a leader that has left: either its result is ready, or the
      leader still has a step to take towards closing `done`. */
  lemma {:induction false} FollowerIsServed(p: B.Params, steps: seq<Step>, s: State, c: nat)
    requires Reachable(p, steps, s) && c in s.calls && s.calls[c].pc.Waiting?
    ensures var f := s.calls[c].pc.flight;
      && f in s.flights && s.flights[f].leader in s.calls
      && var leader := s.flights[f].leader;
         || Enabled(s, Receive(c))
         || (s.calls[leader].pc == Fetching(f) && forall r :: Enabled(s, Complete(leader, r)))
         || (s.calls[leader].pc == Fetched(f) && forall now :: Enabled(s, Record(leader, now)))
         || (s.calls[leader].pc == Recorded(f) && Enabled(s, Signal(leader)))
  {
    hide Reachable, RecordsOk, TableOk, B.Run;
    ReachableInv(p, steps, s);
    assert CallOk(s, c) && FlightOk(s, s.calls[c].pc.flight);
  }

  lemma {:induction false} Extend(p: B.Params, steps: seq<Step>, s: State, step: Step)
    requires Reachable(p, steps, s) && Enabled(s, step)
    ensures Reachable(p, steps + [step], Apply(p, s, step))
  {
    assert (steps + [step])[..|steps|] == steps;
  }

  /** Steps left to a leader before it has closed `done`. */
  function Rank(pc: Pc): (n: nat) {
    if pc.Fetching? then 3 else if pc.Fetched? then 2 else if pc.Recorded? then 1 else 0
  }

  /** The step a leader takes next, the origin replying as given. */
  function LeaderStep(pc: Pc, c: nat, reply: Reply, now: int): (step: Step) {
    if pc.Fetching? then Complete(c, reply) else if pc.Fetched? then Record(c, now) else Signal(c)
  }

  /** A leader that has not closed `done` can step; the step leaves the other calls alone and keeps a reply once
      given. */
  lemma {:induction false} LeaderAdvances(p: B.Params, s: State, c: nat, f0: nat, reply: Reply, now: int)
    requires Own(s, c, f0) && Rank(s.calls[c].pc) > 0
    ensures var step := LeaderStep(s.calls[c].pc, c, reply, now);
            && Enabled(s, step)
            && var t := Apply(p, s, step);
               && LeaderMoved(s, t, c, f0) && Rank(t.calls[c].pc) < Rank(s.calls[c].pc) && Leads(t.calls[c].pc, f0)
               && t.flights[f0].reply == if s.calls[c].pc.Fetching? then Some(reply) else s.flights[f0].reply
  {
    hide B.Step;
  }

  /** From every reachable state a leader alone can run to closing `done`. */
  lemma {:induction false} LeaderCanSignal(p: B.Params, steps: seq<Step>, s: State, c: nat, f0: nat, reply: Reply,
                                           now: int)
      returns (more: seq<Step>, t: State)
    requires Reachable(p, steps, s) && c in s.calls && Leads(s.calls[c].pc, f0)
    ensures Reachable(p, steps + more, t) && f0 in s.flights && f0 in t.flights && t.flights[f0].leader == c
    ensures c in t.calls && Leads(t.calls[c].pc, f0) && Rank(t.calls[c].pc) == 0
    ensures forall d :: d in s.calls && d != c ==> d in t.calls && t.calls[d] == s.calls[d]
    ensures t.flights[f0].reply == if s.calls[c].pc.Fetching? then Some(reply) else s.flights[f0].reply
    decreases Rank(s.calls[c].pc)
  {
    hide Reachable, Inv, Own, Apply, Enabled;
    ReachableInv(p, steps, s);
    OwnsFlight(p, s, c, f0);
    OwnFacts(s, c, f0);
    if Rank(s.calls[c].pc) == 0 {
      more, t := [], s;
      assert steps + more == steps;
    } else {
      var step := LeaderStep(s.calls[c].pc, c, reply, now);
      LeaderAdvances(p, s, c, f0, reply, now);
      Extend(p, steps, s, step);
      var rest;
      rest, t := LeaderCanSignal(p, steps + [step], Apply(p, s, step), c, f0, reply, now);
      more := [step] + rest;
      assert steps + [step] + rest == steps + more;
    }
  }

  lemma {:induction false} OwnFacts(s: State, c: nat, f0: nat)
    requires Own(s, c, f0)
    ensures f0 in s.flights && s.flights[f0].leader == c && c in s.calls
    ensures Rank(s.calls[c].pc) == 0 ==> s.flights[f0].done && s.flights[f0].reply.Some?
    ensures s.flights[f0].reply.None? <==> s.calls[c].pc.Fetching?
  {
  }

  /** A follower's flight: one whose leader is another call that leads it still, or has led it and closed `done`. */
  lemma {:induction false} FollowersFlight(p: B.Params, s: State, c: nat) returns (leader: nat)
    requires Inv(p, s) && c in s.calls && s.calls[c].pc.Waiting?
    ensures var f := s.calls[c].pc.flight;
            && f in s.flights && leader == s.flights[f].leader && leader in s.calls && leader != c
            && (Leads(s.calls[leader].pc, f) || (s.flights[f].done && s.flights[f].reply.Some?))
            && (s.flights[f].reply.None? <==> s.calls[leader].pc.Fetching?)
  {
    hide RecordsOk, TableOk, B.Run;
    assert CallOk(s, c);
    leader := s.flights[s.calls[c].pc.flight].leader;
    assert FlightOk(s, s.calls[c].pc.flight);
  }

  /** Every reachable state extends to one in which a given follower has returned the reply of the flight it joined:
      the one that flight has, or whatever the origin answers. */
  lemma {:induction false} FollowerCanReturn(p: B.Params, steps: seq<Step>, s: State, c: nat, reply: Reply, now: int)
      returns (more: seq<Step>, t: State)
    requires Reachable(p, steps, s) && c in s.calls && s.calls[c].pc.Waiting?
    ensures Reachable(p, steps + more, t) && c in t.calls && s.calls[c].pc.flight in s.flights
    ensures var f := s.calls[c].pc.flight;
            && var r := if s.flights[f].reply.Some? then s.flights[f].reply.value else reply;
               t.calls[c].pc == Returned(Got(r), Some(f), None)
  {
    hide Reachable, Inv, Own;
    ReachableInv(p, steps, s);
    var f := s.calls[c].pc.flight;
    var leader := FollowersFlight(p, s, c);
    more, t := [], s;
    assert steps + more == steps;
    if Leads(s.calls[leader].pc, f) {
      more, t := LeaderCanSignal(p, steps, s, leader, f, reply, now);
      ReachableInv(p, steps + more, t);
      OwnsFlight(p, t, leader, f);
      OwnFacts(t, leader, f);
    }
    assert Enabled(t, Receive(c));
    Extend(p, steps + more, t, Receive(c));
    t := Apply(p, t, Receive(c));
    assert steps + more + [Receive(c)] == steps + (more + [Receive(c)]);
    more := more + [Receive(c)];
  }
}
