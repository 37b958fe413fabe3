/** The control plane's versioned store with its cascading deletes, and the configuration
    snapshot it builds for edges. */
module ControlPlane {

  datatype Tenant = Tenant(id: string, name: string, apiKey: string, active: bool)

  /** `settings` stands for the origin, CORS, certificate and rate-limit fields, which the store only carries. */
  datatype Domain = Domain(
    id: string, tenantId: string, hostname: string,
    defaultTtlSec: int, tlsMode: string, active: bool, settings: string)

  datatype Rule = Rule(id: string, domainId: string, pathGlob: string, ttlSec: int, bypass: bool)

  datatype Node = Node(id: string, name: string, addr: string, region: string, lastSeen: int, active: bool)

  datatype Data = Data(
    version: int,
    tenants: map<string, Tenant>,
    domains: map<string, Domain>,
    rules: map<string, Rule>,
    nodes: map<string, Node>)

  const EMPTY: Data := Data(0, map[], map[], map[], map[])

  /** Store calls; generated identifiers and clock readings are arguments. */
  datatype Op =
    | CreateTenant(id: string, name: string, apiKey: string)
    | DeleteTenant(id: string)
    | CreateDomain(id: string, domain: Domain)
    | UpdateDomain(domain: Domain)
    | DeleteDomain(id: string)
    | CreateRule(id: string, rule: Rule)
    | DeleteRule(id: string)
    | RegisterEdge(id: string, name: string, addr: string, region: string, now: int)
    | HeartbeatEdge(id: string, now: int)
    | DeleteEdge(id: string)

  // ---------- Store operations on values ----------

  function TenantDomains(domains: map<string, Domain>, tenant: string): (ids: set<string>) {
    set id | id in domains && domains[id].tenantId == tenant
  }

  /** The rules that name none of the given domains. */
  function KeepRules(rules: map<string, Rule>, gone: set<string>): (kept: map<string, Rule>) {
    map id | id in rules && rules[id].domainId !in gone :: rules[id]
  }

  predicate HostTaken(domains: map<string, Domain>, hostname: string) {
    exists id :: id in domains && domains[id].hostname == hostname
  }

  function WithDefaults(id: string, d: Domain): (r: Domain) {
    d.(id := id,
       defaultTtlSec := if d.defaultTtlSec == 0 then 300 else d.defaultTtlSec,
       tlsMode := if d.tlsMode == "" then "managed" else d.tlsMode,
       active := true)
  }

  /** The calls that succeed; the others return an error and do not save. */
  predicate Accepted(d: Data, op: Op) {
    match op
    case CreateTenant(_, _, _) => true
    case DeleteTenant(id) => id in d.tenants
    case CreateDomain(_, domain) => domain.tenantId in d.tenants && !HostTaken(d.domains, domain.hostname)
    case UpdateDomain(domain) => domain.id in d.domains
    case DeleteDomain(id) => id in d.domains
    case CreateRule(_, rule) => rule.domainId in d.domains
    case DeleteRule(id) => id in d.rules
    case RegisterEdge(_, _, _, _, _) => true
    case HeartbeatEdge(id, _) => id in d.nodes
    case DeleteEdge(_) => true
  }

  /** The store after a call. Every call that succeeds saves, and every save takes the next version. */
  function After(d: Data, op: Op): (r: Data) {
    if !Accepted(d, op) then d
    else
      var saved := d.(version := d.version + 1);
      match op
      case CreateTenant(id, name, key) => saved.(tenants := d.tenants[id := Tenant(id, name, key, true)])
      case DeleteTenant(id) =>
        var gone := TenantDomains(d.domains, id);
        saved.(tenants := d.tenants - {id}, domains := d.domains - gone, rules := KeepRules(d.rules, gone))
      case CreateDomain(id, domain) => saved.(domains := d.domains[id := WithDefaults(id, domain)])
      case UpdateDomain(domain) => saved.(domains := d.domains[domain.id := domain])
      case DeleteDomain(id) => saved.(domains := d.domains - {id}, rules := KeepRules(d.rules, {id}))
      case CreateRule(id, rule) => saved.(rules := d.rules[id := rule.(id := id)])
      case DeleteRule(id) => saved.(rules := d.rules - {id})
      case RegisterEdge(id, name, addr, region, now) =>
        saved.(nodes := d.nodes[id := Node(id, name, addr, region, now, true)])
      case HeartbeatEdge(id, now) => saved.(nodes := d.nodes[id := d.nodes[id].(lastSeen := now)])
      case DeleteEdge(id) => saved.(nodes := d.nodes - {id})
  }

  // ---------- Store invariants ----------

  /** Records are stored under their own identifiers. */
  predicate Keyed(d: Data) {
    && (forall id :: id in d.domains ==> d.domains[id].id == id)
    && (forall id :: id in d.rules ==> d.rules[id].id == id)
  }

  predicate RulesNamed(d: Data) {
    forall id :: id in d.rules ==> d.rules[id].domainId in d.domains
  }

  predicate DomainsOwned(d: Data) {
    forall id :: id in d.domains ==> d.domains[id].tenantId in d.tenants
  }

  predicate HostsUnique(d: Data) {
    forall a, b :: a in d.domains && b in d.domains && d.domains[a].hostname == d.domains[b].hostname ==> a == b
  }

  /** An update that leaves hostname and tenant alone; the store itself checks neither. */
  predicate Careful(d: Data, op: Op) {
    (op.UpdateDomain? && op.domain.id in d.domains) ==>
      && op.domain.hostname == d.domains[op.domain.id].hostname
      && op.domain.tenantId == d.domains[op.domain.id].tenantId
  }

  lemma {:induction false} AfterKeeps(d: Data, op: Op)
    requires Keyed(d) && RulesNamed(d)
    ensures Keyed(After(d, op)) && RulesNamed(After(d, op))
  {
    match op
    case CreateTenant(_, _, _) =>
    case DeleteTenant(_) =>
    case CreateDomain(_, _) =>
    case UpdateDomain(_) =>
    case DeleteDomain(_) =>
    case CreateRule(_, _) =>
    case DeleteRule(_) =>
    case RegisterEdge(_, _, _, _, _) =>
    case HeartbeatEdge(_, _) =>
    case DeleteEdge(_) =>
  }

  lemma {:induction false} CarefulKeeps(d: Data, op: Op)
    requires Keyed(d) && DomainsOwned(d) && HostsUnique(d) && Careful(d, op)
    ensures DomainsOwned(After(d, op)) && HostsUnique(After(d, op))
  {
    match op
    case CreateTenant(_, _, _) =>
    case DeleteTenant(_) =>
    case CreateDomain(_, _) =>
    case UpdateDomain(_) =>
    case DeleteDomain(_) =>
    case CreateRule(_, _) =>
    case DeleteRule(_) =>
    case RegisterEdge(_, _, _, _, _) =>
    case HeartbeatEdge(_, _) =>
    case DeleteEdge(_) =>
  }

  /** The store after a sequence of calls on a new store. */
  function Run(ops: seq<Op>): (d: Data) {
    if ops == [] then EMPTY else After(Run(ops[..|ops| - 1]), ops[|ops| - 1])
  }

  ghost predicate AllCareful(ops: seq<Op>) {
    forall i :: 0 <= i < |ops| ==> Careful(Run(ops[..i]), ops[i])
  }

  /** In every reachable store, every rule names an existing domain. */
  lemma {:induction false} RulesNameDomains(ops: seq<Op>)
    ensures Keyed(Run(ops)) && RulesNamed(Run(ops))
  {
    hide After;
    if ops != [] {
      RulesNameDomains(ops[..|ops| - 1]);
      AfterKeeps(Run(ops[..|ops| - 1]), ops[|ops| - 1]);
    }
  }

  /** While updates are careful, every domain has an existing tenant and hostnames are unique. */
  lemma {:induction false} CarefulRuns(ops: seq<Op>)
    requires AllCareful(ops)
    ensures DomainsOwned(Run(ops)) && HostsUnique(Run(ops))
  {
    hide After;
    if ops != [] {
      var n := |ops| - 1;
      forall i | 0 <= i < n ensures Careful(Run(ops[..n][..i]), ops[..n][i]) {
        assert ops[..n][..i] == ops[..i];
      }
      CarefulRuns(ops[..n]);
      RulesNameDomains(ops[..n]);
      assert Careful(Run(ops[..n]), ops[n]);
      CarefulKeeps(Run(ops[..n]), ops[n]);
    }
  }

  /** Deleting a tenant removes exactly its domains and, in a reachable store, exactly the rules of those domains. */
  lemma {:induction false} TenantCascade(ops: seq<Op>, tenant: string)
    requires tenant in Run(ops).tenants
    ensures var d, t := Run(ops), After(Run(ops), DeleteTenant(tenant));
            && t.tenants.Keys == d.tenants.Keys - {tenant}
            && (forall id :: id in d.domains ==> (id in t.domains <==> d.domains[id].tenantId != tenant))
            && (forall id ::
                  id in d.rules ==>
                    d.rules[id].domainId in d.domains &&
                    (id in t.rules <==> d.domains[d.rules[id].domainId].tenantId != tenant))
            && (forall id :: id in t.rules ==> id in d.rules && t.rules[id] == d.rules[id])
            && (forall id :: id in t.domains ==> id in d.domains && t.domains[id] == d.domains[id])
            && (forall id :: id in t.tenants ==> t.tenants[id] == d.tenants[id]) && t.nodes == d.nodes
  {
    RulesNameDomains(ops);
    hide Run;
  }

  /** Versions never decrease, and while the version stands still so does the store. */
  lemma {:induction false} EqualVersionsEqualStores(ops: seq<Op>, n: nat)
    requires n <= |ops|
    ensures Run(ops[..n]).version <= Run(ops).version
    ensures Run(ops[..n]).version == Run(ops).version ==> Run(ops[..n]) == Run(ops)
  {
    if n == |ops| {
      assert ops[..n] == ops;
    } else {
      var m := |ops| - 1;
      assert ops[..m][..n] == ops[..n];
      EqualVersionsEqualStores(ops[..m], n);
      VersionStep(Run(ops[..m]), ops[m]);
    }
  }

  lemma {:induction false} VersionStep(d: Data, op: Op)
    ensures After(d, op) == d || After(d, op).version == d.version + 1
  {
  }

  // ---------- Snapshots ----------

  /** `rules` is keyed by domain, in no particular order within a domain. */
  datatype Config = Config(version: int, domains: map<string, Domain>, rules: map<string, seq<Rule>>)

  predicate Publishable(d: Data, id: string) {
    && id in d.domains && d.domains[id].active
    && d.domains[id].tenantId in d.tenants && d.tenants[d.domains[id].tenantId].active
  }

  function Hosts(d: Data): (hosts: set<string>) {
    set id | id in d.domains && Publishable(d, id) :: d.domains[id].hostname
  }

  predicate NoDuplicates<T(==)>(s: seq<T>) {
    forall i, j :: 0 <= i < j < |s| ==> s[i] != s[j]
  }

  ghost predicate Lists(rules: map<string, Rule>, domain: string, list: seq<Rule>) {
    && NoDuplicates(list)
    && (forall r :: r in list <==> r.id in rules && rules[r.id] == r && r.domainId == domain)
  }

  function RuleDomains(rules: map<string, Rule>): (ids: set<string>) {
    set id | id in rules :: rules[id].domainId
  }

  ghost predicate RulesListed(rules: map<string, Rule>, lists: map<string, seq<Rule>>) {
    && lists.Keys == RuleDomains(rules)
    && (forall domain :: domain in lists ==> Lists(rules, domain, lists[domain]))
  }

  /** Every published name is that of a publishable domain, and every publishable domain's name is published. */
  ghost predicate HostsListed(d: Data, domains: map<string, Domain>) {
    && domains.Keys == Hosts(d)
    && (forall host :: host in domains ==>
          domains[host].hostname == host && Publishable(d, domains[host].id) &&
          d.domains[domains[host].id] == domains[host])
  }

  /** What BuildEdgeConfig may return; map iteration order decides the rest. */
  ghost predicate IsSnapshot(d: Data, cfg: Config) {
    cfg.version == d.version && HostsListed(d, cfg.domains) && RulesListed(d.rules, cfg.rules)
  }

  /** Equal up to the order of rules within a domain. */
  ghost predicate SameConfig(a: Config, b: Config) {
    && a.version == b.version && a.domains == b.domains && a.rules.Keys == b.rules.Keys
    && (forall domain :: domain in a.rules ==> multiset(a.rules[domain]) == multiset(b.rules[domain]))
  }

  /** No two publishable domains share a hostname. */
  ghost predicate Unambiguous(d: Data) {
    forall a, b :: Publishable(d, a) && Publishable(d, b) && d.domains[a].hostname == d.domains[b].hostname ==> a == b
  }

  lemma {:induction false} NoDuplicatesCounts<T>(s: seq<T>, x: T)
    requires NoDuplicates(s)
    ensures multiset(s)[x] == if x in s then 1 else 0
  {
    if s != [] {
      var n := |s| - 1;
      assert s == s[..n] + [s[n]];
      NoDuplicatesCounts(s[..n], x);
    }
  }

  lemma {:induction false} ListsAgree(rules: map<string, Rule>, domain: string, a: seq<Rule>, b: seq<Rule>)
    requires Lists(rules, domain, a) && Lists(rules, domain, b)
    ensures multiset(a) == multiset(b)
  {
    forall r: Rule ensures multiset(a)[r] == multiset(b)[r] {
      NoDuplicatesCounts(a, r);
      NoDuplicatesCounts(b, r);
    }
  }

  lemma {:induction false} UnambiguousSnapshots(d: Data, a: Config, b: Config)
    requires IsSnapshot(d, a) && IsSnapshot(d, b) && Unambiguous(d)
    ensures SameConfig(a, b)
  {
    forall host | host in a.domains ensures a.domains[host] == b.domains[host] {
      assert host in b.domains;
    }
    forall domain | domain in a.rules ensures multiset(a.rules[domain]) == multiset(b.rules[domain]) {
      ListsAgree(d.rules, domain, a.rules[domain], b.rules[domain]);
    }
  }

  ghost function Enumerate(rules: set<Rule>): (list: seq<Rule>)
    ensures NoDuplicates(list) && forall r :: r in list <==> r in rules
  {
    if rules == {} then []
    else
      var r :| r in rules;
      Enumerate(rules - {r}) + [r]
  }

  ghost function AnyDomain(d: Data, host: string): (id: string)
    requires host in Hosts(d)
    ensures Publishable(d, id) && d.domains[id].hostname == host
  {
    var id :| id in d.domains && Publishable(d, id) && d.domains[id].hostname == host;
    id
  }

  /** A snapshot that publishes the given domain. */
  ghost function SnapshotWith(d: Data, id: string): (cfg: Config)
    requires Keyed(d) && Publishable(d, id)
    ensures IsSnapshot(d, cfg) && d.domains[id].hostname in cfg.domains &&
            cfg.domains[d.domains[id].hostname] == d.domains[id]
  {
    var name := d.domains[id].hostname;
    var domains := map host | host in Hosts(d) :: if host == name then d.domains[id] else d.domains[AnyDomain(d, host)];
    var rules := map domain | domain in RuleDomains(d.rules) ::
      Enumerate(set r | r in d.rules && d.rules[r].domainId == domain :: d.rules[r]);
    Config(d.version, domains, rules)
  }

  /** A store determines its snapshot up to rule order exactly when no two publishable domains share a hostname. */
  lemma {:induction false} SnapshotDeterminedIff(d: Data)
    requires Keyed(d)
    ensures Unambiguous(d) <==> (forall a, b :: IsSnapshot(d, a) && IsSnapshot(d, b) ==> SameConfig(a, b))
  {
    if Unambiguous(d) {
      forall a, b | IsSnapshot(d, a) && IsSnapshot(d, b) ensures SameConfig(a, b) {
        UnambiguousSnapshots(d, a, b);
      }
    } else {
      var x, y :| Publishable(d, x) && Publishable(d, y) && d.domains[x].hostname == d.domains[y].hostname && x != y;
      var a, b := SnapshotWith(d, x), SnapshotWith(d, y);
      assert !SameConfig(a, b);
    }
  }

  /** In every reachable store, a snapshot publishes only active domains of existing active tenants, publishes the name
      of each of them, and lists every rule under an existing domain. */
  lemma {:induction false} PublishedIsSound(ops: seq<Op>, cfg: Config)
    requires IsSnapshot(Run(ops), cfg)
    ensures var d := Run(ops);
            && (forall host :: host in cfg.domains ==>
                  && var domain := cfg.domains[host];
                     domain.hostname == host && domain.active && domain in d.domains.Values
                     && domain.tenantId in d.tenants && d.tenants[domain.tenantId].active)
            && (forall id :: Publishable(d, id) ==> d.domains[id].hostname in cfg.domains)
            && (forall id :: id in cfg.rules ==> id in d.domains)
            && (forall id ::
                  id in d.rules ==> d.rules[id].domainId in cfg.rules && d.rules[id] in cfg.rules[d.rules[id].domainId])
  {
    RulesNameDomains(ops);
    var d := Run(ops);
    hide Run;
    forall id | id in d.domains && Publishable(d, id) ensures d.domains[id].hostname in cfg.domains {
      assert d.domains[id].hostname in Hosts(d);
    }
    forall id | id in d.rules
      ensures d.rules[id].domainId in cfg.rules && d.rules[id] in cfg.rules[d.rules[id].domainId]
    {
      assert d.rules[id].domainId in RuleDomains(d.rules);
    }
  }

  /** In any store, a domain that CreateDomain accepts for an active tenant is what every snapshot publishes
      under its hostname. */
  lemma {:induction false} CreatedIsPublished(d: Data, id: string, domain: Domain, cfg: Config)
    requires domain.tenantId in d.tenants && d.tenants[domain.tenantId].active
    requires forall k :: k in d.domains ==> d.domains[k].hostname != domain.hostname
    requires IsSnapshot(After(d, CreateDomain(id, domain)), cfg)
    ensures domain.hostname in cfg.domains
    ensures cfg.domains[domain.hostname].id == id && cfg.domains[domain.hostname].active
    ensures cfg.domains[domain.hostname].settings == domain.settings &&
            cfg.domains[domain.hostname].tenantId == domain.tenantId
    ensures cfg.domains[domain.hostname].defaultTtlSec ==
            if domain.defaultTtlSec == 0 then 300 else domain.defaultTtlSec
    ensures cfg.domains[domain.hostname].tlsMode == if domain.tlsMode == "" then "managed" else domain.tlsMode
  {
    var t := After(d, CreateDomain(id, domain));
    assert Publishable(t, id) && t.domains[id].hostname in Hosts(t);
    var shown := cfg.domains[domain.hostname];
    assert Publishable(t, shown.id) && t.domains[shown.id] == shown;
  }

  /** While hostnames are unique, no snapshot after a deletion publishes the deleted domain's hostname or lists its
      rules. */
  lemma {:induction false} DeletedIsUnpublished(d: Data, id: string, cfg: Config)
    requires Keyed(d) && HostsUnique(d) && id in d.domains && IsSnapshot(After(d, DeleteDomain(id)), cfg)
    ensures d.domains[id].hostname !in cfg.domains && id !in cfg.rules
  {
    var t := After(d, DeleteDomain(id));
    forall k | k in t.domains && Publishable(t, k) ensures t.domains[k].hostname != d.domains[id].hostname {
      assert k != id && t.domains[k] == d.domains[k];
    }
    assert d.domains[id].hostname !in Hosts(t);
  }

  lemma {:induction false} RunExtends(ops: seq<Op>, op: Op)
    ensures Run(ops + [op]) == After(Run(ops), op)
  {
    assert (ops + [op])[..|ops|] == ops;
  }

  /** An update may take the hostname of another publishable domain, and then the snapshot depends on iteration
      order. */
  lemma {:induction false} UpdateCanClash(d: Data, x: string, y: string)
    requires Keyed(d) && Publishable(d, x) && Publishable(d, y) && x != y
    ensures var op := UpdateDomain(d.domains[y].(hostname := d.domains[x].hostname));
            && Accepted(d, op) && !Unambiguous(After(d, op))
            && (Careful(d, op) <==> d.domains[x].hostname == d.domains[y].hostname)
  {
    var t := After(d, UpdateDomain(d.domains[y].(hostname := d.domains[x].hostname)));
    assert Publishable(t, x) && Publishable(t, y);
  }

  /** A new store reaches two publishable domains in three calls. */
  lemma {:induction false} ThreeCallsToTwoDomains(one: Domain, two: Domain)
    requires one.tenantId == "t" == two.tenantId && one.hostname != two.hostname
    ensures var d := Run([CreateTenant("t", "", "")] + [CreateDomain("a", one)] + [CreateDomain("b", two)]);
            Publishable(d, "a") && Publishable(d, "b")
  {
    var t: seq<Op> := [CreateTenant("t", "", "")];
    assert t == [] + t;
    RunExtends([], t[0]);
    RunExtends(t, CreateDomain("a", one));
    RunExtends(t + [CreateDomain("a", one)], CreateDomain("b", two));
    hide Run;
  }

  // ---------- What single calls do, and for how long ----------

  /** The same tenants, domains and edges. */
  predicate SameButRules(d: Data, t: Data) {
    t.tenants == d.tenants && t.domains == d.domains && t.nodes == d.nodes
  }

  /** No snapshot list holds a rule with this identifier. */
  ghost predicate Unlisted(cfg: Config, id: string) {
    forall domain, r :: domain in cfg.rules && r in cfg.rules[domain] ==> r.id != id
  }

  /** The rule is listed under its domain, and it alone has its identifier. */
  ghost predicate Listed(cfg: Config, r: Rule) {
    && r.domainId in cfg.rules && r in cfg.rules[r.domainId]
    && (forall domain, other :: domain in cfg.rules && other in cfg.rules[domain] && other.id == r.id ==> other == r)
  }

  /** Every snapshot lists the stored rules and no others. */
  lemma {:induction false} RuleShown(d: Data, id: string, cfg: Config)
    requires Keyed(d) && IsSnapshot(d, cfg)
    ensures if id in d.rules then Listed(cfg, d.rules[id]) else Unlisted(cfg, id)
  {
    if id in d.rules { assert d.rules[id].domainId in RuleDomains(d.rules); }
  }

  /** Deleting a rule removes it and nothing else, from the store and from every snapshot. */
  lemma {:induction false} RuleDeleted(d: Data, id: string, cfg: Config)
    requires Keyed(d) && id in d.rules
    ensures var t := After(d, DeleteRule(id));
            && t.rules.Keys == d.rules.Keys - {id} && (forall k :: k in t.rules ==> t.rules[k] == d.rules[k])
            && SameButRules(d, t)
            && (IsSnapshot(t, cfg) ==> Unlisted(cfg, id))
  {
    var t := After(d, DeleteRule(id));
    AfterKeyed(d, DeleteRule(id));
    if IsSnapshot(t, cfg) { RuleShown(t, id, cfg); }
  }

  /** Creating a rule adds it with the given content and changes nothing else, in the store and in every snapshot. */
  lemma {:induction false} RuleCreated(d: Data, id: string, rule: Rule, cfg: Config)
    requires Keyed(d) && rule.domainId in d.domains
    ensures var t, r := After(d, CreateRule(id, rule)),
            Rule(id, rule.domainId, rule.pathGlob, rule.ttlSec, rule.bypass);
            && t.rules.Keys == d.rules.Keys + {id} && t.rules[id] == r
            && (forall k :: k in d.rules && k != id ==> t.rules[k] == d.rules[k])
            && SameButRules(d, t)
            && (IsSnapshot(t, cfg) ==> Listed(cfg, r))
  {
    var t := After(d, CreateRule(id, rule));
    AfterKeyed(d, CreateRule(id, rule));
    if IsSnapshot(t, cfg) { RuleShown(t, id, cfg); }
  }

  /** A call fails, and changes nothing, exactly when what it names does not exist, or a new domain's name is taken. */
  lemma {:induction false} RefusedIff(d: Data, op: Op)
    ensures !Accepted(d, op) <==>
            match op
            case DeleteTenant(id) => id !in d.tenants
            case CreateDomain(_, domain) =>
              domain.tenantId !in d.tenants || exists k :: k in d.domains && d.domains[k].hostname == domain.hostname
            case UpdateDomain(domain) => domain.id !in d.domains
            case DeleteDomain(id) => id !in d.domains
            case CreateRule(_, rule) => rule.domainId !in d.domains
            case DeleteRule(id) => id !in d.rules
            case HeartbeatEdge(id, _) => id !in d.nodes
            case _ => false
    ensures !Accepted(d, op) ==> After(d, op) == d
    ensures Accepted(d, op) ==> After(d, op).version == d.version + 1
  {
  }

  lemma {:induction false} AfterKeyed(d: Data, op: Op)
    requires Keyed(d)
    ensures Keyed(After(d, op))
  {
  }

  /** Deleting a domain removes it and exactly its rules. */
  lemma {:induction false} DomainCascade(d: Data, id: string)
    requires id in d.domains
    ensures var t := After(d, DeleteDomain(id));
            && t.domains.Keys == d.domains.Keys - {id} && (forall k :: k in t.domains ==> t.domains[k] == d.domains[k])
            && (forall k :: k in d.rules ==> (k in t.rules <==> d.rules[k].domainId != id))
            && (forall k :: k in t.rules ==> k in d.rules && t.rules[k] == d.rules[k])
            && t.tenants == d.tenants && t.nodes == d.nodes
  {
  }

  /** An updated domain is shown with its new content and under its new name only; exactly if it is active and its
      tenant is, and no other publishable domain has taken the name. Other domains, rules and tenants are as before. */
  lemma {:induction false} UpdateShown(d: Data, domain: Domain, cfg: Config)
    requires Keyed(d) && domain.id in d.domains && IsSnapshot(After(d, UpdateDomain(domain)), cfg)
    ensures var t := After(d, UpdateDomain(domain));
            && t.domains.Keys == d.domains.Keys && t.tenants == d.tenants && t.rules == d.rules && t.nodes == d.nodes
            && (forall k :: k in d.domains && k != domain.id ==> t.domains[k] == d.domains[k])
            && (forall host :: host in cfg.domains && cfg.domains[host].id == domain.id ==>
                  host == domain.hostname && cfg.domains[host] == domain)
            && var shown := domain.active && domain.tenantId in d.tenants && d.tenants[domain.tenantId].active;
               && (shown ==> domain.hostname in cfg.domains)
               && (!shown ==> forall host :: host in cfg.domains ==> cfg.domains[host].id != domain.id)
               && (shown && Unambiguous(t) ==> cfg.domains[domain.hostname] == domain)
  {
    var t := After(d, UpdateDomain(domain));
    AfterKeyed(d, UpdateDomain(domain));
    if Publishable(t, domain.id) {
      assert t.domains[domain.id].hostname in Hosts(t);
      assert Publishable(t, cfg.domains[domain.hostname].id);
    }
  }

  /** What is stored under an identifier. */
  function RuleAt(d: Data, id: string): (r: seq<Rule>) {
    if id in d.rules then [d.rules[id]] else []
  }

  function DomainAt(d: Data, id: string): (r: seq<Domain>) {
    if id in d.domains then [d.domains[id]] else []
  }

  /** A call that names the rule, its domain or its tenant in a creation or deletion. */
  predicate TouchesRule(d: Data, op: Op, id: string) {
    match op
    case CreateRule(k, _) => k == id
    case DeleteRule(k) => k == id
    case DeleteDomain(domain) => id in d.rules && d.rules[id].domainId == domain
    case DeleteTenant(tenant) =>
      id in d.rules && d.rules[id].domainId in d.domains && d.domains[d.rules[id].domainId].tenantId == tenant
    case _ => false
  }

  predicate TouchesDomain(d: Data, op: Op, id: string) {
    match op
    case CreateDomain(k, _) => k == id
    case UpdateDomain(domain) => domain.id == id
    case DeleteDomain(k) => k == id
    case DeleteTenant(tenant) => id in d.domains && d.domains[id].tenantId == tenant
    case _ => false
  }

  lemma {:induction false} Untouched(d: Data, op: Op, id: string)
    ensures !TouchesRule(d, op, id) ==> RuleAt(After(d, op), id) == RuleAt(d, id)
    ensures !TouchesDomain(d, op, id) ==> DomainAt(After(d, op), id) == DomainAt(d, id)
  {
  }

  /** Whatever else is called, a rule or domain stays as it is until a call touches it; so what `RuleDeleted`,
      `RuleCreated` and `UpdateShown` say holds of every later snapshot until then. */
  lemma {:induction false} StaysUntouched(ops: seq<Op>, more: seq<Op>, id: string)
    ensures (forall i :: 0 <= i < |more| ==> !TouchesRule(Run(ops + more[..i]), more[i], id)) ==>
              RuleAt(Run(ops + more), id) == RuleAt(Run(ops), id)
    ensures (forall i :: 0 <= i < |more| ==> !TouchesDomain(Run(ops + more[..i]), more[i], id)) ==>
              DomainAt(Run(ops + more), id) == DomainAt(Run(ops), id)
    decreases |more|
  {
    hide After, TouchesRule, TouchesDomain, Run;
    if more == [] {
      assert ops + more == ops;
    } else {
      var n := |more| - 1;
      assert forall i :: 0 <= i < n ==> more[..n][..i] == more[..i] && more[..n][i] == more[i];
      StaysUntouched(ops, more[..n], id);
      assert ops + more == ops + more[..n] + [more[n]];
      RunExtends(ops + more[..n], more[n]);
      Untouched(Run(ops + more[..n]), more[n], id);
    }
  }

  /** A tenant is created active, with its name and key, beside the others. */
  lemma {:induction false} TenantCreated(d: Data, id: string, name: string, key: string)
    ensures var t := After(d, CreateTenant(id, name, key));
            && t.tenants.Keys == d.tenants.Keys + {id} && t.tenants[id] == Tenant(id, name, key, true)
            && (forall k :: k in d.tenants && k != id ==> t.tenants[k] == d.tenants[k])
            && t.domains == d.domains && t.rules == d.rules && t.nodes == d.nodes
  {
  }

  /** Registering an edge stores it active with its clock reading, and changes nothing a snapshot shows but the
      version. */
  lemma {:induction false} EdgeRegistered(d: Data, id: string, name: string, addr: string, region: string, now: int)
    ensures var t := After(d, RegisterEdge(id, name, addr, region, now));
            && SameButEdges(d, t) && t.nodes.Keys == d.nodes.Keys + {id}
            && t.nodes[id] == Node(id, name, addr, region, now, true)
            && (forall k :: k in d.nodes && k != id ==> t.nodes[k] == d.nodes[k])
  {
  }

  /** A heartbeat moves the time one edge was last seen. */
  lemma {:induction false} HeartbeatMoves(d: Data, id: string, now: int)
    ensures var t := After(d, HeartbeatEdge(id, now));
            && SameButEdges(d, t) && t.nodes.Keys == d.nodes.Keys
            && (id in d.nodes ==>
                  t.nodes[id].lastSeen == now && t.nodes[id].(lastSeen := 0) == d.nodes[id].(lastSeen := 0))
            && (forall k :: k in d.nodes && k != id ==> t.nodes[k] == d.nodes[k])
  {
  }

  lemma {:induction false} EdgeDeleted(d: Data, id: string)
    ensures var t := After(d, DeleteEdge(id));
            && SameButEdges(d, t) && t.nodes.Keys == d.nodes.Keys - {id}
            && (forall k :: k in t.nodes ==> t.nodes[k] == d.nodes[k])
  {
  }

  predicate SameButEdges(d: Data, t: Data) {
    t.tenants == d.tenants && t.domains == d.domains && t.rules == d.rules
  }

  // ---------- Building the snapshot ----------

  /** Appending a rule to its domain's list keeps the lists complete and free of duplicates. */
  lemma {:induction false} ListOneMore(rules: map<string, Rule>, r: Rule, lists: map<string, seq<Rule>>)
    requires r.id !in rules && (forall k :: k in rules ==> rules[k].id == k)
    requires RulesListed(rules, lists)
    ensures RulesListed(rules[r.id := r],
                        lists[r.domainId := (if r.domainId in lists then lists[r.domainId] else []) + [r]])
  {
    var before := if r.domainId in lists then lists[r.domainId] else [];
    assert Lists(rules, r.domainId, before);
    var t := lists[r.domainId := before + [r]];
    var more := rules[r.id := r];
    forall domain | domain in t ensures Lists(more, domain, t[domain]) {
      if domain != r.domainId { assert Lists(rules, domain, lists[domain]); }
    }
    assert more[r.id].domainId in RuleDomains(more);
    forall k | k in rules ensures rules[k].domainId in RuleDomains(more) {
      assert more[k] == rules[k];
    }
  }

  lemma {:induction false} KeepTwice(rules: map<string, Rule>, gone: set<string>, id: string)
    ensures KeepRules(KeepRules(rules, gone), {id}) == KeepRules(rules, gone + {id})
    ensures KeepRules(rules, {}) == rules
  {
  }

  // ---------- The store object ----------

  class Store {
    var version: int
    var tenants: map<string, Tenant>
    var domains: map<string, Domain>
    var rules: map<string, Rule>
    var nodes: map<string, Node>

    ghost function View(): (d: Data)
      reads this
    {
      Data(version, tenants, domains, rules, nodes)
    }

    constructor ()
      ensures View() == EMPTY
    {
      version, tenants, domains, rules, nodes := 0, map[], map[], map[], map[];
    }

    method Save()
      modifies this`version
      ensures version == old(version) + 1
    {
      version := version + 1;
    }

    method AddTenant(id: string, name: string, apiKey: string)
      modifies this
      ensures View() == After(old(View()), CreateTenant(id, name, apiKey))
    {
      tenants := tenants[id := Tenant(id, name, apiKey, true)];
      Save();
    }

    /** The inner loop of both cascading deletes. */
    method DropRules(domain: string)
      modifies this`rules
      ensures rules == KeepRules(old(rules), {domain})
    {
      var todo := rules.Keys;
      while todo != {}
        invariant todo <= old(rules).Keys
        invariant rules == map id | id in old(rules) && (id in todo || old(rules)[id].domainId != domain) ::
                    old(rules)[id]
      {
        var id :| id in todo;
        if rules[id].domainId == domain { rules := rules - {id}; }
        todo := todo - {id};
      }
    }

    method RemoveTenant(id: string) returns (ok: bool)
      modifies this
      ensures View() == After(old(View()), DeleteTenant(id))
      ensures ok == Accepted(old(View()), DeleteTenant(id))
    {
      if id !in tenants { return false; }
      hide KeepRules;
      ghost var gone := TenantDomains(domains, id);
      KeepTwice(rules, {}, id);
      assert gone - domains.Keys == {};
      var todo := domains.Keys;
      while todo != {}
        invariant version == old(version) && tenants == old(tenants) && nodes == old(nodes)
        invariant todo <= old(domains).Keys
        invariant domains == old(domains) - (gone - todo)
        invariant rules == KeepRules(old(rules), gone - todo)
      {
        var did :| did in todo;
        if domains[did].tenantId == id {
          KeepTwice(old(rules), gone - todo, did);
          DropRules(did);
          domains := domains - {did};
          assert gone - (todo - {did}) == (gone - todo) + {did};
        } else {
          assert gone - (todo - {did}) == gone - todo;
        }
        todo := todo - {did};
      }
      tenants := tenants - {id};
      Save();
      return true;
    }

    method AddDomain(id: string, domain: Domain) returns (ok: bool)
      modifies this
      ensures View() == After(old(View()), CreateDomain(id, domain))
      ensures ok == Accepted(old(View()), CreateDomain(id, domain))
    {
      if domain.tenantId !in tenants { return false; }
      var todo := domains.Keys;
      while todo != {}
        invariant todo <= domains.Keys
        invariant forall k :: k in domains && k !in todo ==> domains[k].hostname != domain.hostname
      {
        var k :| k in todo;
        if domains[k].hostname == domain.hostname { return false; }
        todo := todo - {k};
      }
      var d := domain.(id := id);
      if d.defaultTtlSec == 0 { d := d.(defaultTtlSec := 300); }
      if d.tlsMode == "" { d := d.(tlsMode := "managed"); }
      d := d.(active := true);
      domains := domains[id := d];
      Save();
      return true;
    }

    method ReplaceDomain(domain: Domain) returns (ok: bool)
      modifies this
      ensures View() == After(old(View()), UpdateDomain(domain))
      ensures ok == Accepted(old(View()), UpdateDomain(domain))
    {
      if domain.id !in domains { return false; }
      domains := domains[domain.id := domain];
      Save();
      return true;
    }

    method RemoveDomain(id: string) returns (ok: bool)
      modifies this
      ensures View() == After(old(View()), DeleteDomain(id))
      ensures ok == Accepted(old(View()), DeleteDomain(id))
    {
      if id !in domains { return false; }
      DropRules(id);
      domains := domains - {id};
      Save();
      return true;
    }

    method AddRule(id: string, rule: Rule) returns (ok: bool)
      modifies this
      ensures View() == After(old(View()), CreateRule(id, rule))
      ensures ok == Accepted(old(View()), CreateRule(id, rule))
    {
      if rule.domainId !in domains { return false; }
      rules := rules[id := rule.(id := id)];
      Save();
      return true;
    }

    method RemoveRule(id: string) returns (ok: bool)
      modifies this
      ensures View() == After(old(View()), DeleteRule(id))
      ensures ok == Accepted(old(View()), DeleteRule(id))
    {
      if id !in rules { return false; }
      rules := rules - {id};
      Save();
      return true;
    }

    method AddNode(id: string, name: string, addr: string, region: string, now: int)
      modifies this
      ensures View() == After(old(View()), RegisterEdge(id, name, addr, region, now))
    {
      nodes := nodes[id := Node(id, name, addr, region, now, true)];
      Save();
    }

    method TouchNode(id: string, now: int) returns (ok: bool)
      modifies this
      ensures View() == After(old(View()), HeartbeatEdge(id, now))
      ensures ok == Accepted(old(View()), HeartbeatEdge(id, now))
    {
      if id !in nodes { return false; }
      nodes := nodes[id := nodes[id].(lastSeen := now)];
      Save();
      return true;
    }

    method RemoveNode(id: string)
      modifies this
      ensures View() == After(old(View()), DeleteEdge(id))
    {
      nodes := nodes - {id};
      Save();
    }

    method PublishedDomains() returns (published: map<string, Domain>)
      requires Keyed(View())
      ensures HostsListed(View(), published)
    {
      published := map[];
      var todo := domains.Keys;
      while todo != {}
        invariant todo <= domains.Keys
        invariant published.Keys == set k | k in domains && k !in todo && Publishable(View(), k) :: domains[k].hostname
        invariant forall host :: host in published ==>
                    published[host].hostname == host && Publishable(View(), published[host].id) &&
                    domains[published[host].id] == published[host]
      {
        var k :| k in todo;
        var d := domains[k];
        if d.active && d.tenantId in tenants && tenants[d.tenantId].active {
          published := published[d.hostname := d];
        }
        todo := todo - {k};
      }
    }

    method RulesByDomain() returns (lists: map<string, seq<Rule>>)
      requires Keyed(View())
      ensures RulesListed(rules, lists)
    {
      lists := map[];
      var todo := rules.Keys;
      ghost var done: map<string, Rule> := map[];
      while todo != {}
        invariant todo <= rules.Keys
        invariant done.Keys == rules.Keys - todo
        invariant forall k :: k in done ==> done[k] == rules[k]
        invariant RulesListed(done, lists)
      {
        var k :| k in todo;
        var r := rules[k];
        ListOneMore(done, r, lists);
        lists := lists[r.domainId := (if r.domainId in lists then lists[r.domainId] else []) + [r]];
        done := done[k := r];
        todo := todo - {k};
      }
      assert done == rules;
    }

    method BuildEdgeConfig() returns (cfg: Config)
      requires Keyed(View())
      ensures IsSnapshot(View(), cfg)
    {
      var published := PublishedDomains();
      var lists := RulesByDomain();
      cfg := Config(version, published, lists);
    }
  }
}
