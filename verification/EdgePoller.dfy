/** An edge that polls the control plane: a fetch takes a snapshot, other store calls may run before it
    is delivered, and the edge applies it only if its version is newer. */
module EdgePoller {
  import opened Common
  import opened ControlPlane

  /** A response on its way, with the store it was built from. */
  datatype Response = Response(cfg: Config, from: Data)

  /** `held` is the store the edge's configuration was built from. */
  datatype World = World(store: Data, edge: Option<Config>, last: int, held: Data, flight: Option<Response>)

  const INITIAL: World := World(EMPTY, None, 0, EMPTY, None)

  datatype Event = Call(op: Op) | Fetch(cfg: Config) | Deliver | Lose

  ghost predicate Enabled(w: World, event: Event) {
    match event
    case Call(_) => true
    case Fetch(cfg) => w.flight.None? && IsSnapshot(w.store, cfg)
    case Deliver => w.flight.Some?
    case Lose => w.flight.Some?
  }

  /** What a poll does to the edge's configuration and version: a newer response replaces both. */
  function AfterPoll(edge: Option<Config>, last: int, response: Option<Config>): (r: (Option<Config>, int)) {
    if response.Some? && response.value.version > last then (response, response.value.version) else (edge, last)
  }

  ghost function Apply(w: World, event: Event): (t: World)
    requires Enabled(w, event)
  {
    match event
    case Call(op) => w.(store := After(w.store, op))
    case Fetch(cfg) => w.(flight := Some(Response(cfg, w.store)))
    case Deliver =>
      var got := w.flight.value;
      var (edge, last) := AfterPoll(w.edge, w.last, Some(got.cfg));
      w.(edge := edge, last := last, held := if last > w.last then got.from else w.held, flight := None)
    case Lose => w.(flight := None)
  }

  ghost function Run(events: seq<Event>): (w: Option<World>) {
    if events == [] then Some(INITIAL)
    else
      var n := |events| - 1;
      var w := Run(events[..n]);
      if w.Some? && Enabled(w.value, events[n]) then Some(Apply(w.value, events[n])) else None
  }

  // ---------- What the edge answers ----------

  function LookupDomain(edge: Option<Config>, host: string): (r: Option<Domain>) {
    if edge.Some? && host in edge.value.domains then Some(edge.value.domains[host]) else None
  }

  function LookupRules(edge: Option<Config>, domain: string): (r: seq<Rule>) {
    if edge.Some? && domain in edge.value.rules then edge.value.rules[domain] else []
  }

  /** Same answer for every hostname, and the same rules for every domain. */
  ghost predicate Agree(a: Option<Config>, b: Option<Config>) {
    && (forall host :: LookupDomain(a, host) == LookupDomain(b, host))
    && (forall domain :: multiset(LookupRules(a, domain)) == multiset(LookupRules(b, domain)))
  }

  // ---------- Invariant ----------

  /** b is at least as recent as a, and the same store if its version is the same. */
  predicate Newer(a: Data, b: Data) {
    a.version <= b.version && (a.version == b.version ==> a == b)
  }

  ghost predicate Inv(w: World) {
    && Keyed(w.store) && Newer(w.held, w.store) && w.last == w.held.version
    && (if w.edge.Some? then IsSnapshot(w.held, w.edge.value) else w.held == EMPTY)
    && (w.flight.Some? ==>
          && IsSnapshot(w.flight.value.from, w.flight.value.cfg)
          && Newer(w.held, w.flight.value.from) && Newer(w.flight.value.from, w.store))
  }

  lemma {:induction false} StepKeepsInv(w: World, event: Event)
    requires Inv(w) && Enabled(w, event)
    ensures Inv(Apply(w, event)) && w.last <= Apply(w, event).last
  {
    hide HostsListed, RulesListed, After;
    if event.Call? {
      VersionStep(w.store, event.op);
      AfterKeyed(w.store, event.op);
    }
  }

  lemma {:induction false} ReachableInv(events: seq<Event>)
    requires Run(events).Some?
    ensures Inv(Run(events).value)
  {
    hide Enabled, Apply;
    if events != [] {
      var n := |events| - 1;
      ReachableInv(events[..n]);
      StepKeepsInv(Run(events[..n]).value, events[n]);
    }
  }

  // ---------- Theorems ----------

  /** In a poll-only run the edge's version never decreases. */
  lemma {:induction false} EdgeVersionMonotone(before: seq<Event>, after: seq<Event>)
    requires Run(before + after).Some?
    ensures Run(before).Some? && Run(before).value.last <= Run(before + after).value.last
  {
    hide Enabled, Apply;
    if after == [] {
      assert before + after == before;
    } else {
      var n := |after| - 1;
      var all := before + after;
      assert all[..|all| - 1] == before + after[..n];
      EdgeVersionMonotone(before, after[..n]);
      ReachableInv(before + after[..n]);
      StepKeepsInv(Run(before + after[..n]).value, all[|all| - 1]);
    }
  }

  /** The edge always answers from a snapshot of some store the control plane has held, or from nothing. */
  lemma {:induction false} EdgeHoldsSnapshot(events: seq<Event>)
    requires Run(events).Some?
    ensures var w := Run(events).value;
            && w.held.version == w.last <= w.store.version
            && (w.last == w.store.version ==> w.held == w.store)
            && (if w.edge.Some? then IsSnapshot(w.held, w.edge.value) else w.held == EMPTY)
  {
    ReachableInv(events);
  }

  /** What the edge answers, in terms of the store it holds: a domain for exactly the names of publishable domains,
      one of that name as it is stored, and for every domain its stored rules, each once. */
  lemma {:induction false} EdgeAnswers(events: seq<Event>, host: string, domain: string)
    requires Run(events).Some?
    ensures var w := Run(events).value;
            && var found := LookupDomain(w.edge, host);
               && (found.Some? <==> exists id :: Publishable(w.held, id) && w.held.domains[id].hostname == host)
               && (found.Some? ==> found.value.hostname == host && Publishable(w.held, found.value.id)
                                   && w.held.domains[found.value.id] == found.value)
               && Lists(w.held.rules, domain, LookupRules(w.edge, domain))
  {
    ReachableInv(events);
    var w := Run(events).value;
    hide Run;
    if id :| Publishable(w.held, id) && w.held.domains[id].hostname == host { assert host in Hosts(w.held); }
    if domain !in RuleDomains(w.held.rules) {
      forall r: Rule | r.id in w.held.rules && w.held.rules[r.id] == r ensures r.domainId != domain {}
    }
  }

  /** A poll that no store call overtakes leaves the edge with the current store. */
  lemma {:induction false} PollCatchesUp(events: seq<Event>, cfg: Config)
    requires Run(events).Some? && Enabled(Run(events).value, Fetch(cfg))
    ensures var w := Run(events).value;
            && var t := Apply(Apply(w, Fetch(cfg)), Deliver);
               t.held == w.store == t.store && t.last == w.store.version && t.flight.None?
  {
    hide Run;
    ReachableInv(events);
  }

  lemma {:induction false} SameConfigAgrees(a: Config, b: Config)
    requires SameConfig(a, b)
    ensures Agree(Some(a), Some(b))
  {
  }

  lemma {:induction false} EmptySnapshotAgrees(cfg: Config)
    requires IsSnapshot(EMPTY, cfg)
    ensures Agree(None, Some(cfg))
  {
    assert cfg.domains.Keys == {} && cfg.rules.Keys == {};
  }

  /** After a delivered poll the edge answers as the fetched snapshot, if that was newer or its store is unambiguous. */
  lemma {:induction false} DeliveryAgrees(w: World)
    requires Inv(w) && w.flight.Some?
    requires w.flight.value.cfg.version > w.last || Unambiguous(w.flight.value.from)
    ensures Agree(Apply(w, Deliver).edge, Some(w.flight.value.cfg))
  {
    var got := w.flight.value;
    if got.cfg.version <= w.last {
      if w.edge.Some? {
        UnambiguousSnapshots(w.held, w.edge.value, got.cfg);
        SameConfigAgrees(w.edge.value, got.cfg);
      } else {
        EmptySnapshotAgrees(got.cfg);
      }
    }
  }

  /** Whatever snapshot a poll fetches, the edge ends up answering from it, exactly when the store
      is newer than the edge or no two of its publishable domains share a hostname. */
  lemma {:induction false} PollAgreesIff(events: seq<Event>)
    requires Run(events).Some? && Run(events).value.flight.None?
    ensures var w := Run(events).value;
            (w.store.version > w.last || Unambiguous(w.store)) <==>
            (forall cfg :: IsSnapshot(w.store, cfg) ==> Agree(Apply(Apply(w, Fetch(cfg)), Deliver).edge, Some(cfg)))
  {
    ReachableInv(events);
    var w := Run(events).value;
    hide Run;
    if w.store.version > w.last || Unambiguous(w.store) {
      forall cfg | IsSnapshot(w.store, cfg) ensures Agree(Apply(Apply(w, Fetch(cfg)), Deliver).edge, Some(cfg)) {
        StepKeepsInv(w, Fetch(cfg));
        DeliveryAgrees(Apply(w, Fetch(cfg)));
      }
    } else {
      AmbiguousStale(w);
    }
  }

  lemma {:induction false} AmbiguousStale(w: World)
    requires Inv(w) && w.flight.None? && w.store.version <= w.last && !Unambiguous(w.store)
    ensures exists cfg :: IsSnapshot(w.store, cfg) && !Agree(Apply(Apply(w, Fetch(cfg)), Deliver).edge, Some(cfg))
  {
    var d := w.store;
    var x, y :| Publishable(d, x) && Publishable(d, y) && d.domains[x].hostname == d.domains[y].hostname && x != y;
    var host := d.domains[x].hostname;
    var a, b := SnapshotWith(d, x), SnapshotWith(d, y);
    hide IsSnapshot;
    assert LookupDomain(Some(a), host) != LookupDomain(Some(b), host);
    if LookupDomain(w.edge, host) == LookupDomain(Some(a), host) {
      assert !Agree(Apply(Apply(w, Fetch(b)), Deliver).edge, Some(b));
    } else {
      assert !Agree(Apply(Apply(w, Fetch(a)), Deliver).edge, Some(a));
    }
  }

  ghost predicate AllCareful(events: seq<Event>)
    requires Run(events).Some?
  {
    forall i :: 0 <= i < |events| && events[i].Call? && Run(events[..i]).Some? ==>
      Careful(Run(events[..i]).value.store, events[i].op)
  }

  ghost predicate StoresSound(w: World) {
    && Keyed(w.store) && DomainsOwned(w.store) && HostsUnique(w.store)
    && (w.flight.Some? ==> HostsUnique(w.flight.value.from))
  }

  lemma {:induction false} CarefulRunsSound(events: seq<Event>)
    requires Run(events).Some? && AllCareful(events)
    ensures StoresSound(Run(events).value)
  {
    if events != [] {
      var n := |events| - 1;
      forall i | 0 <= i < n ensures events[..n][..i] == events[..i] {}
      CarefulRunsSound(events[..n]);
      hide After;
      if events[n].Call? {
        assert Careful(Run(events[..n]).value.store, events[n].op);
        CarefulKeeps(Run(events[..n]).value.store, events[n].op);
        AfterKeyed(Run(events[..n]).value.store, events[n].op);
      }
    }
  }

  /** While updates keep hostnames and tenants, every delivered poll leaves the edge answering as the snapshot it
      fetched. */
  lemma {:induction false} CarefulPollsReplicate(events: seq<Event>)
    requires Run(events).Some? && AllCareful(events) && Run(events).value.flight.Some?
    ensures Agree(Apply(Run(events).value, Deliver).edge, Some(Run(events).value.flight.value.cfg))
  {
    ReachableInv(events);
    CarefulRunsSound(events);
    hide Run, Apply;
    DeliveryAgrees(Run(events).value);
  }

  // ---------- The edge object ----------

  class Edge {
    var config: Option<Config>
    var lastVersion: int

    constructor ()
      ensures config == None && lastVersion == 0
    {
      config, lastVersion := None, 0;
    }

    /** One poll; None stands for a request that failed at any stage. */
    method Poll(response: Option<Config>)
      modifies this
      ensures (config, lastVersion) == AfterPoll(old(config), old(lastVersion), response)
    {
      if response.None? { return; }
      if response.value.version > lastVersion {
        config := response;
        lastVersion := response.value.version;
      }
    }
  }
}
