/** Concurrent lookups, puts and deletes on a cache with a disk tier. A shard operation is one step, and so is each
    access to the disk: a lookup reads the file of its key after it has released the shard, and promotes what it read
    in a later step; a delete clears memory first and the disk afterwards. */
module CacheRace {
  import opened Common
  import opened LruShard
  import opened CacheModel
  import opened CacheRuns
  import Lfu = TinyLfu

  /** Where a lookup or a delete is, or what a lookup returned. */
  datatype Pc =
    | Looking
    | Missed
    | Loaded(entry: Entry)
    | Dropping
    | Got(result: Option<Entry>)
    | Deleting
    | Erasing
    | Deleted

  datatype Call = Call(key: string, pc: Pc)

  datatype World = World(cache: State, calls: map<nat, Call>)

  datatype Step =
    | BeginGet(call: nat, key: string)
    | Look(call: nat, now: int)
    | Load(call: nat, now: int)
    | Promote(call: nat, now: int)
    | Drop(call: nat)
    | BeginDelete(call: nat, key: string)
    | Forget(call: nat)
    | Erase(call: nat)
    | PutEntry(key: string, entry: Entry, now: int)

  predicate Enabled(w: World, step: Step) {
    match step
    case BeginGet(c, _) => c !in w.calls
    case Look(c, _) => c in w.calls && w.calls[c].pc.Looking?
    case Load(c, _) => c in w.calls && w.calls[c].pc.Missed?
    case Promote(c, _) => c in w.calls && w.calls[c].pc.Loaded?
    case Drop(c) => c in w.calls && w.calls[c].pc.Dropping?
    case BeginDelete(c, _) => c !in w.calls
    case Forget(c) => c in w.calls && w.calls[c].pc.Deleting?
    case Erase(c) => c in w.calls && w.calls[c].pc.Erasing?
    case PutEntry(_, _, _) => true
  }

  // ---------- What one step does to the cache ----------

  ghost function WithHome(cfg: Config, s: State, key: string, sh: Shard): (t: State)
    requires cfg.Valid() && ValidState(cfg, s)
  {
    s.(shards := s.shards[cfg.ShardOf(key) := sh])
  }

  /** The lookup in memory, under the shard's lock. */
  ghost function AfterLook(cfg: Config, s: State, key: string, now: int): (r: (State, Pc))
    requires cfg.Valid() && ValidState(cfg, s)
  {
    var sh := Home(cfg, s, key);
    if key !in sh.items then (s, if cfg.diskOn then Missed else Got(None))
    else
      var h := sh.items[key];
      var e := sh.elems[h].entry;
      if Servable(e, now) then (WithHome(cfg, s, key, MoveToFront(sh, h)), Got(Some(e)))
      else (WithHome(cfg, s, key, Remove(sh, h)), if cfg.diskOn then Dropping else Got(None))
  }

  /** The read of the key's file. */
  function AfterLoad(s: State, key: string, now: int): (pc: Pc) {
    if key !in s.disk.files then Got(None)
    else if Servable(s.disk.files[key].entry, now) then Loaded(s.disk.files[key].entry)
    else Dropping
  }

  /** The put into the shard that promotes what was read. */
  ghost function AfterPromote(cfg: Config, s: State, key: string, e: Entry, now: int): (t: State)
    requires cfg.Valid() && ValidState(cfg, s)
  {
    var (sh, disk) := PutInShard(cfg, Home(cfg, s, key), s.lfu, s.disk, key, e, now);
    WithHome(cfg, s, key, sh).(disk := disk)
  }

  ghost function AfterForget(cfg: Config, s: State, key: string): (t: State)
    requires cfg.Valid() && ValidState(cfg, s)
  {
    var sh := Home(cfg, s, key);
    if key in sh.items then WithHome(cfg, s, key, Remove(sh, sh.items[key])) else s
  }

  function AfterErase(s: State, key: string): (t: State) {
    s.(disk := Unlink(s.disk, key))
  }

  function Goto(w: World, c: nat, pc: Pc): (calls: map<nat, Call>)
    requires c in w.calls
  {
    w.calls[c := w.calls[c].(pc := pc)]
  }

  ghost function Apply(cfg: Config, w: World, step: Step): (t: World)
    requires cfg.Valid() && ValidState(cfg, w.cache) && Enabled(w, step)
  {
    match step
    case BeginGet(c, key) =>
      World(w.cache.(lfu := Lfu.Access(cfg.lfu, w.cache.lfu, key)), w.calls[c := Call(key, Looking)])
    case Look(c, now) => var r := AfterLook(cfg, w.cache, w.calls[c].key, now); World(r.0, Goto(w, c, r.1))
    case Load(c, now) => World(w.cache, Goto(w, c, AfterLoad(w.cache, w.calls[c].key, now)))
    case Promote(c, now) =>
      var e := w.calls[c].pc.entry;
      World(AfterPromote(cfg, w.cache, w.calls[c].key, e, now), Goto(w, c, Got(Some(e))))
    case Drop(c) => World(AfterErase(w.cache, w.calls[c].key), Goto(w, c, Got(None)))
    case BeginDelete(c, key) => World(w.cache, w.calls[c := Call(key, Deleting)])
    case Forget(c) =>
      World(AfterForget(cfg, w.cache, w.calls[c].key), Goto(w, c, if cfg.diskOn then Erasing else Deleted))
    case Erase(c) => World(AfterErase(w.cache, w.calls[c].key), Goto(w, c, Deleted))
    case PutEntry(key, e, now) => World(Put(cfg, w.cache, key, e, now), w.calls)
  }

  // ---------- Every step keeps the cache valid ----------

  lemma {:induction false} HomeValid(cfg: Config, s: State, key: string, sh: Shard)
    requires cfg.Valid() && ValidState(cfg, s) && sh.Valid()
    requires forall k :: k in sh.Contents() ==> k in Home(cfg, s, key).Contents()
    ensures ValidState(cfg, WithHome(cfg, s, key, sh))
  {
    ContentsPlaced(cfg, s.shards, cfg.ShardOf(key));
    ReplaceShard(cfg, s.shards, cfg.ShardOf(key), sh);
    hide Lfu.ValidState;
  }

  lemma {:induction false} LookValid(cfg: Config, s: State, key: string, now: int)
    requires cfg.Valid() && ValidState(cfg, s)
    ensures ValidState(cfg, AfterLook(cfg, s, key, now).0)
  {
    hide ValidState, MoveToFront, Remove, Home, WithHome, Shard.Contents;
    var sh := Home(cfg, s, key);
    if key in sh.items {
      HomeValid(cfg, s, key, MoveToFront(sh, sh.items[key]));
      HomeValid(cfg, s, key, Remove(sh, sh.items[key]));
    }
  }

  lemma {:induction false} ForgetValid(cfg: Config, s: State, key: string)
    requires cfg.Valid() && ValidState(cfg, s)
    ensures ValidState(cfg, AfterForget(cfg, s, key))
  {
    var sh := Home(cfg, s, key);
    if key in sh.items {
      hide ValidState, Remove;
      HomeValid(cfg, s, key, Remove(sh, sh.items[key]));
    }
  }

  lemma {:induction false} PromoteValid(cfg: Config, s: State, key: string, e: Entry, now: int)
    requires cfg.Valid() && ValidState(cfg, s)
    ensures ValidState(cfg, AfterPromote(cfg, s, key, e, now))
  {
    PutValid(cfg, s, s.lfu, key, e, now);
    hide PutInShard, ShardsValid;
  }

  lemma {:induction false} EraseValid(cfg: Config, s: State, key: string)
    requires cfg.Valid() && ValidState(cfg, s)
    ensures ValidState(cfg, AfterErase(s, key))
  {
    hide ShardsValid, Lfu.ValidState;
    UnlinkBounded(cfg, s.disk, key);
  }

  lemma {:induction false} CountValid(cfg: Config, s: State, key: string)
    requires cfg.Valid() && ValidState(cfg, s)
    ensures ValidState(cfg, s.(lfu := Lfu.Access(cfg.lfu, s.lfu, key)))
  {
    hide ShardsValid, Lfu.Access;
  }

  lemma {:induction false} StepValid(cfg: Config, w: World, step: Step)
    requires cfg.Valid() && ValidState(cfg, w.cache) && Enabled(w, step)
    ensures ValidState(cfg, Apply(cfg, w, step).cache)
  {
    hide ValidState, AfterLook, AfterLoad, AfterPromote, AfterForget, AfterErase;
    match step
    case BeginGet(_, key) => CountValid(cfg, w.cache, key);
    case Look(c, now) => LookValid(cfg, w.cache, w.calls[c].key, now);
    case Load(_, _) =>
    case Promote(c, now) => PromoteValid(cfg, w.cache, w.calls[c].key, w.calls[c].pc.entry, now);
    case Drop(c) => EraseValid(cfg, w.cache, w.calls[c].key);
    case BeginDelete(_, _) =>
    case Forget(c) => ForgetValid(cfg, w.cache, w.calls[c].key);
    case Erase(c) => EraseValid(cfg, w.cache, w.calls[c].key);
    case PutEntry(key, e, now) => CacheModel.StepValid(cfg, w.cache, OpPut(key, e, now));
  }

  /** The world after a sequence of steps, if each was enabled in turn. */
  ghost function Run(cfg: Config, w: World, steps: seq<Step>): (r: Option<World>)
    requires cfg.Valid() && ValidState(cfg, w.cache)
    ensures r.Some? ==> ValidState(cfg, r.value.cache)
  {
    if steps == [] then Some(w)
    else
      var n := |steps| - 1;
      var t := Run(cfg, w, steps[..n]);
      if t.Some? && Enabled(t.value, steps[n]) then
        StepValid(cfg, t.value, steps[n]);
        Some(Apply(cfg, t.value, steps[n]))
      else None
  }

  lemma {:induction false} Extend(cfg: Config, w: World, steps: seq<Step>, step: Step)
    requires cfg.Valid() && ValidState(cfg, w.cache) && Run(cfg, w, steps).Some? &&
             Enabled(Run(cfg, w, steps).value, step)
    ensures Run(cfg, w, steps + [step]) == Some(Apply(cfg, Run(cfg, w, steps).value, step))
  {
    hide ValidState, Apply;
    assert (steps + [step])[..|steps|] == steps;
  }

  // ---------- Calls that nothing overlaps ----------

  /** A lookup whose steps nothing interrupts, at one time, is the sequential lookup: same answer, same cache. */
  lemma {:induction false} AloneIsGet(cfg: Config, w: World, c: nat, key: string, now: int) returns (steps: seq<Step>)
    requires cfg.Valid() && ValidState(cfg, w.cache) && c !in w.calls
    ensures var r := Get(cfg, w.cache, key, now);
            Run(cfg, w, steps) == Some(World(r.0, w.calls[c := Call(key, Got(r.1))]))
  {
    hide ValidState, Run, Get, AfterLook, AfterPromote, AfterErase, Lfu.Access;
    steps := [];
    Start(cfg, w, steps);
    Extend(cfg, w, steps, BeginGet(c, key));
    steps := steps + [BeginGet(c, key)];
    var s := Run(cfg, w, steps).value.cache;
    Extend(cfg, w, steps, Look(c, now));
    steps := steps + [Look(c, now)];
    AloneLook(cfg, w.cache, s, key, now);
    if Run(cfg, w, steps).value.calls[c].pc.Missed? {
      Extend(cfg, w, steps, Load(c, now));
      steps := steps + [Load(c, now)];
      if Run(cfg, w, steps).value.calls[c].pc.Loaded? {
        Extend(cfg, w, steps, Promote(c, now));
        steps := steps + [Promote(c, now)];
      }
    }
    if Run(cfg, w, steps).value.calls[c].pc.Dropping? {
      Extend(cfg, w, steps, Drop(c));
      steps := steps + [Drop(c)];
    }
    SameCalls(Run(cfg, w, steps).value.calls, w.calls, c);
  }

  lemma {:induction false} Start(cfg: Config, w: World, none: seq<Step>)
    requires cfg.Valid() && ValidState(cfg, w.cache) && none == []
    ensures Run(cfg, w, none) == Some(w)
  {
  }

  lemma {:induction false} SameCalls(a: map<nat, Call>, b: map<nat, Call>, c: nat)
    requires c in a && (forall d :: d in a <==> d in b || d == c) && (forall d :: d in b && d != c ==> a[d] == b[d])
    ensures a == b[c := a[c]]
  {
  }

  /** The sequential lookup, by where the steps of the lookup go: s is the cache once the access is counted. */
  lemma {:induction false} AloneLook(cfg: Config, was: State, s: State, key: string, now: int)
    requires cfg.Valid() && ValidState(cfg, was) && ValidState(cfg, s)
    requires s == was.(lfu := Lfu.Access(cfg.lfu, was.lfu, key))
    ensures var r, look := Get(cfg, was, key, now), AfterLook(cfg, s, key, now);
            && ValidState(cfg, look.0)
            && match look.1
               case Got(e) => r == (look.0, e)
               case Dropping => r == (AfterErase(look.0, key), None)
               case _ =>
                 && look == (s, Missed)
                 && match AfterLoad(s, key, now)
                    case Loaded(e) => r == (AfterPromote(cfg, s, key, e, now), Some(e))
                    case Dropping => r == (AfterErase(s, key), None)
                    case pc => pc == Got(None) && r == (s, None)
  {
    LookValid(cfg, s, key, now);
    hide MoveToFront, Remove, Unlink, PutInShard, Lfu.Access, Servable, Shard.Valid;
  }

  /** A delete that nothing interrupts is the sequential delete. */
  lemma {:induction false} AloneIsDelete(cfg: Config, w: World, c: nat, key: string) returns (steps: seq<Step>)
    requires cfg.Valid() && ValidState(cfg, w.cache) && c !in w.calls
    ensures Run(cfg, w, steps) == Some(World(Delete(cfg, w.cache, key), w.calls[c := Call(key, Deleted)]))
  {
    hide ValidState, Run, Delete, AfterForget, AfterErase;
    steps := [];
    Start(cfg, w, steps);
    Extend(cfg, w, steps, BeginDelete(c, key));
    steps := steps + [BeginDelete(c, key)];
    Extend(cfg, w, steps, Forget(c));
    steps := steps + [Forget(c)];
    if cfg.diskOn {
      Extend(cfg, w, steps, Erase(c));
      steps := steps + [Erase(c)];
    }
    AloneForget(cfg, w.cache, key);
    SameCalls(Run(cfg, w, steps).value.calls, w.calls, c);
  }

  lemma {:induction false} AloneForget(cfg: Config, s: State, key: string)
    requires cfg.Valid() && ValidState(cfg, s)
    ensures Delete(cfg, s, key) ==
            if cfg.diskOn then AfterErase(AfterForget(cfg, s, key), key) else AfterForget(cfg, s, key)
  {
    hide Remove, Unlink, Shard.Valid;
  }

  // ---------- Copies of an entry ----------

  predicate Fresh(r: Option<Entry>, now: int) {
    r.Some? && Servable(r.value, now)
  }

  ghost predicate CacheFresh(cfg: Config, s: State, key: string, now: int)
    requires cfg.Valid() && ValidState(cfg, s)
  {
    Fresh(Resident(cfg, s, key), now) || Fresh(OnDisk(s, key), now)
  }

  /** A lookup has read an entry for the key that it has not promoted yet. */
  ghost predicate HoldsFresh(w: World, c: nat, key: string, now: int) {
    c in w.calls && w.calls[c].key == key && w.calls[c].pc.Loaded? && Servable(w.calls[c].pc.entry, now)
  }

  /** Somewhere there is an entry for the key that may be served now: in memory, on disk, or in a lookup. */
  ghost predicate ServableCopy(cfg: Config, w: World, key: string, now: int)
    requires cfg.Valid() && ValidState(cfg, w.cache)
  {
    CacheFresh(cfg, w.cache, key, now) || exists c :: HoldsFresh(w, c, key, now)
  }

  lemma {:induction false} ResidentWith(cfg: Config, s: State, key: string, sh: Shard, k: string)
    requires cfg.Valid() && ValidState(cfg, s) && sh.Valid() && ValidState(cfg, WithHome(cfg, s, key, sh))
    ensures Resident(cfg, WithHome(cfg, s, key, sh), k) ==
            if cfg.ShardOf(k) != cfg.ShardOf(key) then Resident(cfg, s, k)
            else if k in sh.Contents() then Some(sh.Contents()[k]) else None
  {
  }

  lemma {:induction false} ResidentHome(cfg: Config, s: State, key: string, k: string)
    requires cfg.Valid() && ValidState(cfg, s) && cfg.ShardOf(k) == cfg.ShardOf(key)
    ensures var m := Home(cfg, s, key).Contents(); Resident(cfg, s, k) == if k in m then Some(m[k]) else None
    ensures k in Home(cfg, s, key).Contents() <==> k in Home(cfg, s, key).items
  {
  }

  /** A shard that only lost keys shows nothing new. */
  lemma {:induction false} LosesOnly(cfg: Config, s: State, key: string, sh: Shard, k: string)
    requires cfg.Valid() && ValidState(cfg, s) && sh.Valid() && ValidState(cfg, WithHome(cfg, s, key, sh))
    requires forall x :: x in sh.Contents() ==>
               x in Home(cfg, s, key).Contents() && sh.Contents()[x] == Home(cfg, s, key).Contents()[x]
    ensures Resident(cfg, WithHome(cfg, s, key, sh), k) in {None, Resident(cfg, s, k)}
  {
    hide ValidState, Resident, Home;
    ResidentWith(cfg, s, key, sh, k);
    if cfg.ShardOf(k) == cfg.ShardOf(key) { ResidentHome(cfg, s, key, k); }
  }

  lemma {:induction false} LookNothingNew(cfg: Config, s: State, key: string, now: int, k: string)
    requires cfg.Valid() && ValidState(cfg, s)
    ensures ValidState(cfg, AfterLook(cfg, s, key, now).0) && AfterLook(cfg, s, key, now).0.disk == s.disk
    ensures Resident(cfg, AfterLook(cfg, s, key, now).0, k) in {None, Resident(cfg, s, k)}
  {
    hide ValidState, Resident, MoveToFront, Remove;
    LookValid(cfg, s, key, now);
    var sh := Home(cfg, s, key);
    if key in sh.items {
      HomeValid(cfg, s, key, MoveToFront(sh, sh.items[key]));
      HomeValid(cfg, s, key, Remove(sh, sh.items[key]));
      LosesOnly(cfg, s, key, MoveToFront(sh, sh.items[key]), k);
      LosesOnly(cfg, s, key, Remove(sh, sh.items[key]), k);
    }
  }

  lemma {:induction false} ForgetNothingNew(cfg: Config, s: State, key: string, k: string)
    requires cfg.Valid() && ValidState(cfg, s)
    ensures ValidState(cfg, AfterForget(cfg, s, key)) && AfterForget(cfg, s, key).disk == s.disk
    ensures Resident(cfg, AfterForget(cfg, s, key), k) == if k == key then None else Resident(cfg, s, k)
  {
    hide ValidState, Resident, Remove;
    ForgetValid(cfg, s, key);
    var sh := Home(cfg, s, key);
    if key in sh.items {
      HomeValid(cfg, s, key, Remove(sh, sh.items[key]));
      ResidentWith(cfg, s, key, Remove(sh, sh.items[key]), k);
      HandleKey(sh, key);
    }
    if cfg.ShardOf(k) == cfg.ShardOf(key) { ResidentHome(cfg, s, key, k); }
  }

  lemma {:induction false} HandleKey(sh: Shard, key: string)
    requires sh.Valid() && key in sh.items
    ensures sh.items[key] in sh.elems && sh.elems[sh.items[key]].key == key
  {
  }

  lemma {:induction false} EraseNothingNew(cfg: Config, s: State, key: string, k: string)
    requires cfg.Valid() && ValidState(cfg, s)
    ensures ValidState(cfg, AfterErase(s, key)) && Resident(cfg, AfterErase(s, key), k) == Resident(cfg, s, k)
    ensures OnDisk(AfterErase(s, key), k) == if k == key then None else OnDisk(s, k)
  {
    EraseValid(cfg, s, key);
  }

  lemma {:induction false} CountNothingNew(cfg: Config, s: State, key: string, k: string)
    requires cfg.Valid() && ValidState(cfg, s)
    ensures var t := s.(lfu := Lfu.Access(cfg.lfu, s.lfu, key));
            ValidState(cfg, t) && Resident(cfg, t, k) == Resident(cfg, s, k) && OnDisk(t, k) == OnDisk(s, k)
  {
    CountValid(cfg, s, key);
    hide Lfu.Access;
  }

  lemma {:induction false} PromoteEffect(cfg: Config, s: State, key: string, e: Entry, now: int)
    requires cfg.Valid() && ValidState(cfg, s)
    ensures Lfu.ValidState(cfg.lfu, s.lfu) && Home(cfg, s, key) == s.shards[cfg.ShardOf(key)] &&
            cfg.ShardOf(key) < |s.shards| == cfg.numShards
    ensures var p := PutInShard(cfg, Home(cfg, s, key), s.lfu, s.disk, key, e, now);
            AfterPromote(cfg, s, key, e, now) == State(s.shards[cfg.ShardOf(key) := p.0], s.lfu, p.1)
  {
    hide PutInShard;
  }

  lemma {:induction false} PromoteMemory(cfg: Config, s: State, key: string, e: Entry, now: int, k: string)
    requires cfg.Valid() && ValidState(cfg, s) && ValidState(cfg, AfterPromote(cfg, s, key, e, now))
    ensures var r := Resident(cfg, AfterPromote(cfg, s, key, e, now), k);
            r in {None, Resident(cfg, s, k)} || (k == key && r == Some(e))
  {
    hide ValidState, PutInShard, Resident, TakesEffect, Displaced, Home, AfterPromote, Lfu.ValidState;
    PromoteEffect(cfg, s, key, e, now);
    var sh, t := Home(cfg, s, key), AfterPromote(cfg, s, key, e, now);
    var p := PutInShard(cfg, sh, s.lfu, s.disk, key, e, now);
    PutInShardMemory(cfg, sh, s.lfu, s.disk, key, e, now);
    if cfg.ShardOf(k) == cfg.ShardOf(key) {
      ResidentHome(cfg, s, key, k);
      ResidentIn(cfg, t, k, p.0);
    } else {
      ResidentElsewhere(cfg, s, t, cfg.ShardOf(key), k);
    }
  }

  lemma {:induction false} PromoteDisk(cfg: Config, s: State, key: string, e: Entry, now: int, k: string)
    requires cfg.Valid() && ValidState(cfg, s)
    ensures OnDisk(AfterPromote(cfg, s, key, e, now), k) in {None, OnDisk(s, k), Resident(cfg, s, k)}
  {
    hide ValidState, PutInShard, Resident, Home, AfterPromote, Lfu.ValidState, CounterMoves;
    PromoteEffect(cfg, s, key, e, now);
    PutInShardDisk(cfg, Home(cfg, s, key), s.lfu, s.disk, key, e, now);
    PlacedHome(cfg, s, key, k);
  }

  /** A put into a shard shows nothing new of a key but what it put, in memory and on disk. */
  lemma {:induction false} PromoteNothingNew(cfg: Config, s: State, key: string, e: Entry, now: int, k: string)
    requires cfg.Valid() && ValidState(cfg, s)
    ensures ValidState(cfg, AfterPromote(cfg, s, key, e, now))
    ensures var r := Resident(cfg, AfterPromote(cfg, s, key, e, now), k);
            r in {None, Resident(cfg, s, k)} || (k == key && r == Some(e))
    ensures OnDisk(AfterPromote(cfg, s, key, e, now), k) in {None, OnDisk(s, k), Resident(cfg, s, k)}
  {
    hide ValidState, Resident, OnDisk, AfterPromote;
    PromoteValid(cfg, s, key, e, now);
    PromoteMemory(cfg, s, key, e, now, k);
    PromoteDisk(cfg, s, key, e, now, k);
  }

  /** A key found in a shard is there by its hash. */
  lemma {:induction false} PlacedHome(cfg: Config, s: State, key: string, k: string)
    requires cfg.Valid() && ValidState(cfg, s)
    ensures k in Home(cfg, s, key).Contents() ==>
              cfg.ShardOf(k) == cfg.ShardOf(key) && Resident(cfg, s, k) == Some(Home(cfg, s, key).Contents()[k])
  {
  }

  lemma {:induction false} PutNothingNew(cfg: Config, s: State, key: string, e: Entry, now: int, k: string)
    requires cfg.Valid() && ValidState(cfg, s) && k != key
    ensures ValidState(cfg, Put(cfg, s, key, e, now))
    ensures Resident(cfg, Put(cfg, s, key, e, now), k) in {None, Resident(cfg, s, k)}
    ensures OnDisk(Put(cfg, s, key, e, now), k) in {None, OnDisk(s, k), Resident(cfg, s, k)}
  {
    CacheModel.StepValid(cfg, s, OpPut(key, e, now));
    PromoteNothingNew(cfg, s, key, e, now, k);
    if Acceptable(cfg, key, e) { PutEffect(cfg, s, key, e, now); }
    hide PutInShard, Resident;
  }

  // ---------- Without a servable copy nothing is served ----------

  /** A step that puts nothing under the key and reads the clock, if it does, at the given time or later. */
  predicate Undisturbed(step: Step, key: string, now: int) {
    && (step.Look? || step.Load? || step.Promote? ==> step.now >= now)
    && !(step.PutEntry? && step.key == key)
  }

  /** No servable copy is left, and no lookup that was not under way in w0 has read or returned one. */
  ghost predicate Barren(cfg: Config, w0: World, w: World, key: string, now: int)
    requires cfg.Valid() && ValidState(cfg, w.cache)
  {
    && !CacheFresh(cfg, w.cache, key, now)
    && (forall c :: c in w.calls && w.calls[c].key == key && w.calls[c].pc.Loaded? ==>
          c in w0.calls && !Servable(w.calls[c].pc.entry, now))
    && (forall c :: c in w.calls && w.calls[c].key == key && c !in w0.calls && w.calls[c].pc.Got? ==>
          w.calls[c].pc.result.None?)
    && (forall c :: c in w0.calls ==> c in w.calls)
  }

  /** A copy that is not servable does not become so as time advances. */
  lemma {:induction false} BarrenLook(cfg: Config, s: State, key: string, now: int, at: int)
    requires cfg.Valid() && ValidState(cfg, s) && !CacheFresh(cfg, s, key, now) && at >= now
    ensures var pc := AfterLook(cfg, s, key, at).1; !pc.Loaded? && (pc.Got? ==> pc.result.None?)
  {
    ResidentHome(cfg, s, key, key);
    if key in Home(cfg, s, key).items { HandleKey(Home(cfg, s, key), key); }
    hide MoveToFront, Remove;
  }

  lemma {:induction false} BarrenCache(cfg: Config, w: World, step: Step, key: string, now: int)
    requires cfg.Valid() && ValidState(cfg, w.cache) && Enabled(w, step) && Undisturbed(step, key, now)
    requires !CacheFresh(cfg, w.cache, key, now)
    requires step.Promote? && w.calls[step.call].key == key ==> !Servable(w.calls[step.call].pc.entry, now)
    ensures ValidState(cfg, Apply(cfg, w, step).cache) && !CacheFresh(cfg, Apply(cfg, w, step).cache, key, now)
  {
    hide ValidState, Resident, OnDisk, AfterLook, AfterLoad, AfterPromote, AfterForget, AfterErase, Put, Lfu.Access;
    var s := w.cache;
    match step
    case BeginGet(_, k) => CountNothingNew(cfg, s, k, key);
    case Look(c, at) =>
      LookNothingNew(cfg, s, w.calls[c].key, at, key);
      SameDisk(AfterLook(cfg, s, w.calls[c].key, at).0, s, key);
    case Load(_, _) =>
    case Promote(c, at) => PromoteNothingNew(cfg, s, w.calls[c].key, w.calls[c].pc.entry, at, key);
    case Drop(c) => EraseNothingNew(cfg, s, w.calls[c].key, key);
    case BeginDelete(_, _) =>
    case Forget(c) =>
      ForgetNothingNew(cfg, s, w.calls[c].key, key);
      SameDisk(AfterForget(cfg, s, w.calls[c].key), s, key);
    case Erase(c) => EraseNothingNew(cfg, s, w.calls[c].key, key);
    case PutEntry(k, e, at) => PutNothingNew(cfg, s, k, e, at, key);
  }

  lemma {:induction false} SameDisk(s: State, t: State, key: string)
    requires s.disk == t.disk
    ensures OnDisk(s, key) == OnDisk(t, key)
  {
  }

  lemma {:induction false} BarrenLoad(cfg: Config, s: State, key: string, now: int, at: int)
    requires cfg.Valid() && ValidState(cfg, s) && !CacheFresh(cfg, s, key, now) && at >= now
    ensures var pc := AfterLoad(s, key, at); !pc.Loaded? && (pc.Got? ==> pc.result.None?)
  {
    hide Resident;
  }

  lemma {:induction false} BarrenStep(cfg: Config, w0: World, w: World, step: Step, key: string, now: int)
    requires cfg.Valid() && ValidState(cfg, w.cache) && Enabled(w, step) && Undisturbed(step, key, now)
    requires Barren(cfg, w0, w, key, now)
    ensures ValidState(cfg, Apply(cfg, w, step).cache) && Barren(cfg, w0, Apply(cfg, w, step), key, now)
  {
    hide ValidState, CacheFresh, AfterLook, AfterLoad, AfterPromote, AfterForget, AfterErase, Put, Lfu.Access;
    BarrenCache(cfg, w, step, key, now);
    if step.Look? && w.calls[step.call].key == key { BarrenLook(cfg, w.cache, key, now, step.now); }
    if step.Load? && w.calls[step.call].key == key { BarrenLoad(cfg, w.cache, key, now, step.now); }
    if step.Look? { LooksNeverLoad(cfg, w.cache, w.calls[step.call].key, step.now); }
  }

  lemma {:induction false} LooksNeverLoad(cfg: Config, s: State, key: string, now: int)
    requires cfg.Valid() && ValidState(cfg, s)
    ensures !AfterLook(cfg, s, key, now).1.Loaded?
  {
    hide MoveToFront, Remove;
  }

  lemma {:induction false} StaysBarren(cfg: Config, w0: World, steps: seq<Step>, key: string, now: int)
    requires cfg.Valid() && ValidState(cfg, w0.cache) && Run(cfg, w0, steps).Some?
    requires forall i :: 0 <= i < |steps| ==> Undisturbed(steps[i], key, now)
    requires !ServableCopy(cfg, w0, key, now)
    ensures Barren(cfg, w0, Run(cfg, w0, steps).value, key, now)
  {
    hide ValidState, CacheFresh, Apply;
    if steps == [] {
      forall c | c in w0.calls && w0.calls[c].key == key && w0.calls[c].pc.Loaded?
        ensures !Servable(w0.calls[c].pc.entry, now)
      {
        assert !HoldsFresh(w0, c, key, now);
      }
    } else {
      var n := |steps| - 1;
      assert forall i :: 0 <= i < n ==> steps[..n][i] == steps[i];
      StaysBarren(cfg, w0, steps[..n], key, now);
      hide Barren;
      BarrenStep(cfg, w0, Run(cfg, w0, steps[..n]).value, steps[n], key, now);
    }
  }

  // ---------- A servable copy can be served ----------

  /** A lookup that began after w has returned an entry for the key. */
  ghost predicate Serves(cfg: Config, w: World, steps: seq<Step>, c: nat, key: string)
    requires cfg.Valid() && ValidState(cfg, w.cache)
  {
    && Run(cfg, w, steps).Some? && c !in w.calls && c in Run(cfg, w, steps).value.calls
    && Run(cfg, w, steps).value.calls[c].key == key && Run(cfg, w, steps).value.calls[c].pc.Got?
    && Run(cfg, w, steps).value.calls[c].pc.result.Some?
  }

  ghost predicate AllUndisturbed(steps: seq<Step>, key: string, now: int) {
    forall i :: 0 <= i < |steps| ==> Undisturbed(steps[i], key, now)
  }

  lemma {:induction false} LookServes(cfg: Config, s: State, key: string, now: int)
    requires cfg.Valid() && ValidState(cfg, s) && Fresh(Resident(cfg, s, key), now)
    ensures AfterLook(cfg, s, key, now).1 == Got(Resident(cfg, s, key))
  {
    ResidentHome(cfg, s, key, key);
    hide MoveToFront, Remove;
  }

  /** A new lookup serves what is in memory. */
  lemma {:induction false} MemoryIsServed(cfg: Config, w: World, steps: seq<Step>, key: string, now: int)
    returns (all: seq<Step>, c: nat)
    requires cfg.Valid() && ValidState(cfg, w.cache) && Run(cfg, w, steps).Some? && AllUndisturbed(steps, key, now)
    requires Fresh(Resident(cfg, Run(cfg, w, steps).value.cache, key), now)
    ensures AllUndisturbed(all, key, now) && Serves(cfg, w, all, c, key)
  {
    hide ValidState, Run, Resident, AfterLook, Lfu.Access;
    var v := Run(cfg, w, steps).value;
    c := FreshId(w.calls.Keys + v.calls.Keys);
    Extend(cfg, w, steps, BeginGet(c, key));
    CountNothingNew(cfg, v.cache, key, key);
    all := steps + [BeginGet(c, key)];
    LookServes(cfg, Run(cfg, w, all).value.cache, key, now);
    Extend(cfg, w, all, Look(c, now));
    all := all + [Look(c, now)];
  }

  lemma {:induction false} PromoteStores(cfg: Config, s: State, key: string, e: Entry, now: int)
    requires cfg.Valid() && ValidState(cfg, s) && TakesEffect(cfg, Home(cfg, s, key), s.lfu, key)
    ensures ValidState(cfg, AfterPromote(cfg, s, key, e, now)) &&
            Resident(cfg, AfterPromote(cfg, s, key, e, now), key) == Some(e)
  {
    var sh := Home(cfg, s, key);
    PromoteValid(cfg, s, key, e, now);
    PutInShardMemory(cfg, sh, s.lfu, s.disk, key, e, now);
    var p := PutInShard(cfg, sh, s.lfu, s.disk, key, e, now);
    assert AfterPromote(cfg, s, key, e, now).shards[cfg.ShardOf(key)] == p.0;
    hide PutInShard, TakesEffect, Displaced, Resident;
    ResidentIn(cfg, AfterPromote(cfg, s, key, e, now), key, p.0);
  }

  /** If the promotion is going to take effect, the entry a lookup holds can be served to a later one. */
  lemma {:induction false} HeldIsServed(cfg: Config, w: World, steps: seq<Step>, d: nat, key: string, now: int)
    returns (all: seq<Step>, c: nat)
    requires cfg.Valid() && ValidState(cfg, w.cache) && Run(cfg, w, steps).Some? && AllUndisturbed(steps, key, now)
    requires HoldsFresh(Run(cfg, w, steps).value, d, key, now)
    requires TakesEffect(cfg, Home(cfg, Run(cfg, w, steps).value.cache, key), Run(cfg, w, steps).value.cache.lfu, key)
    ensures AllUndisturbed(all, key, now) && Serves(cfg, w, all, c, key)
  {
    hide ValidState, Run, Resident, AfterPromote, TakesEffect, Home, Serves;
    var v := Run(cfg, w, steps).value;
    Extend(cfg, w, steps, Promote(d, now));
    PromoteStores(cfg, v.cache, key, v.calls[d].pc.entry, now);
    all, c := MemoryIsServed(cfg, w, steps + [Promote(d, now)], key, now);
  }

  /** Forgetting the victim of a full shard makes room. */
  lemma {:induction false} ForgetMakesRoom(cfg: Config, s: State, key: string) returns (victim: string)
    requires cfg.Valid() && ValidState(cfg, s) && !TakesEffect(cfg, Home(cfg, s, key), s.lfu, key)
    ensures victim != key && ValidState(cfg, AfterForget(cfg, s, victim))
    ensures TakesEffect(cfg, Home(cfg, AfterForget(cfg, s, victim), key), AfterForget(cfg, s, victim).lfu, key)
  {
    var sh := Home(cfg, s, key);
    victim := sh.elems[Victim(sh)].key;
    ForgetValid(cfg, s, victim);
    assert victim in sh.items && sh.items[victim] == Victim(sh);
    PlacedHome(cfg, s, key, victim);
    assert victim in sh.Contents();
    assert Home(cfg, AfterForget(cfg, s, victim), key) == Remove(sh, Victim(sh));
    RemoveLeavesRoom(sh);
  }

  lemma {:induction false} RemoveLeavesRoom(sh: Shard)
    requires sh.Valid() && sh.eviction != []
    ensures |Remove(sh, Victim(sh)).eviction| < Remove(sh, Victim(sh)).cap
  {
  }

  lemma {:induction false} PolicyValid(cfg: Config, s: State)
    requires cfg.Valid() && ValidState(cfg, s)
    ensures Lfu.ValidState(cfg.lfu, s.lfu)
  {
  }

  lemma {:induction false} FileNeedsDisk(cfg: Config, s: State, key: string)
    requires cfg.Valid() && ValidState(cfg, s)
    ensures OnDisk(s, key).Some? ==> cfg.diskOn
  {
  }

  lemma {:induction false} NoSteps(cfg: Config, w: World, none: seq<Step>, key: string, now: int)
    requires cfg.Valid() && ValidState(cfg, w.cache) && none == []
    ensures Run(cfg, w, none) == Some(w) && AllUndisturbed(none, key, now)
  {
  }

  /** A new delete of any key clears memory of it and goes no further. */
  lemma {:induction false} ForgetKey(cfg: Config, w: World, steps: seq<Step>, other: string, key: string, now: int)
    returns (all: seq<Step>, x: nat)
    requires cfg.Valid() && ValidState(cfg, w.cache) && Run(cfg, w, steps).Some? && AllUndisturbed(steps, key, now)
    ensures AllUndisturbed(all, key, now) && Run(cfg, w, all).Some?
    ensures var v, t := Run(cfg, w, steps).value, Run(cfg, w, all).value;
            && t.cache == AfterForget(cfg, v.cache, other) && x !in v.calls && x in t.calls &&
               t.calls == v.calls[x := t.calls[x]]
  {
    hide ValidState, Run, AfterForget;
    var v := Run(cfg, w, steps).value;
    x := FreshId(v.calls.Keys);
    Extend(cfg, w, steps, BeginDelete(x, other));
    all := steps + [BeginDelete(x, other)];
    Extend(cfg, w, all, Forget(x));
    all := all + [Forget(x)];
  }

  lemma {:induction false} HeldCanBeServed(cfg: Config, w: World, d: nat, key: string, now: int)
    returns (all: seq<Step>, c: nat)
    requires cfg.Valid() && ValidState(cfg, w.cache) && HoldsFresh(w, d, key, now)
    ensures AllUndisturbed(all, key, now) && Serves(cfg, w, all, c, key)
  {
    hide ValidState, Run, Resident, AfterForget, TakesEffect, Home, Serves, AllUndisturbed, Lfu.ValidState;
    PolicyValid(cfg, w.cache);
    var none: seq<Step> := [];
    NoSteps(cfg, w, none, key, now);
    if TakesEffect(cfg, Home(cfg, w.cache, key), w.cache.lfu, key) {
      all, c := HeldIsServed(cfg, w, none, d, key, now);
    } else {
      var victim := ForgetMakesRoom(cfg, w.cache, key);
      var x;
      all, x := ForgetKey(cfg, w, none, victim, key, now);
      all, c := HeldIsServed(cfg, w, all, d, key, now);
    }
  }

  lemma {:induction false} LookMisses(cfg: Config, s: State, key: string, now: int)
    requires cfg.Valid() && ValidState(cfg, s) && Resident(cfg, s, key) == None && key in s.disk.files
    ensures AfterLook(cfg, s, key, now) == (s, Missed)
  {
    ResidentHome(cfg, s, key, key);
  }

  /** A new lookup of a key that is on disk only reads, promotes and serves it. */
  lemma {:induction false} DiskIsServed(cfg: Config, w: World, steps: seq<Step>, key: string, now: int)
    returns (all: seq<Step>, c: nat)
    requires cfg.Valid() && ValidState(cfg, w.cache) && Run(cfg, w, steps).Some? && AllUndisturbed(steps, key, now)
    requires Resident(cfg, Run(cfg, w, steps).value.cache, key) == None &&
             Fresh(OnDisk(Run(cfg, w, steps).value.cache, key), now)
    ensures AllUndisturbed(all, key, now) && Serves(cfg, w, all, c, key)
  {
    hide ValidState, Run, Resident, AfterLook, AfterPromote, Lfu.Access;
    var v := Run(cfg, w, steps).value;
    c := FreshId(w.calls.Keys + v.calls.Keys);
    Extend(cfg, w, steps, BeginGet(c, key));
    CountNothingNew(cfg, v.cache, key, key);
    all := steps + [BeginGet(c, key)];
    LookMisses(cfg, Run(cfg, w, all).value.cache, key, now);
    Extend(cfg, w, all, Look(c, now));
    all := all + [Look(c, now)];
    Extend(cfg, w, all, Load(c, now));
    all := all + [Load(c, now)];
    Extend(cfg, w, all, Promote(c, now));
    all := all + [Promote(c, now)];
  }

  /** What is on disk is served once memory has been cleared of the key. */
  lemma {:induction false} DiskCanBeServed(cfg: Config, w: World, key: string, now: int)
    returns (all: seq<Step>, c: nat)
    requires cfg.Valid() && ValidState(cfg, w.cache) && Fresh(OnDisk(w.cache, key), now)
    ensures AllUndisturbed(all, key, now) && Serves(cfg, w, all, c, key)
  {
    hide ValidState, Run, Resident, AfterForget, AllUndisturbed, Serves, OnDisk;
    var none: seq<Step> := [];
    NoSteps(cfg, w, none, key, now);
    var x;
    all, x := ForgetKey(cfg, w, none, key, key, now);
    ForgetNothingNew(cfg, w.cache, key, key);
    SameDisk(AfterForget(cfg, w.cache, key), w.cache, key);
    all, c := DiskIsServed(cfg, w, all, key, now);
  }

  /** Without a further put, a lookup that begins from here on can return an entry for the key from a given time on
      exactly when a copy that is servable at that time is in memory, on disk, or in the hands of a lookup under way. */
  lemma {:induction false} ServedLaterIff(cfg: Config, w: World, key: string, now: int)
    requires cfg.Valid() && ValidState(cfg, w.cache)
    ensures (exists steps, c :: AllUndisturbed(steps, key, now) && Serves(cfg, w, steps, c, key)) <==>
            ServableCopy(cfg, w, key, now)
  {
    if !ServableCopy(cfg, w, key, now) {
      forall steps, c | AllUndisturbed(steps, key, now) && Serves(cfg, w, steps, c, key) ensures false {
        StaysBarren(cfg, w, steps, key, now);
      }
    } else {
      hide ValidState, Resident, OnDisk, Run, Serves, AllUndisturbed;
      var none: seq<Step> := [];
      NoSteps(cfg, w, none, key, now);
      var steps: seq<Step>, c: nat;
      if Fresh(Resident(cfg, w.cache, key), now) {
        steps, c := MemoryIsServed(cfg, w, none, key, now);
      } else if Fresh(OnDisk(w.cache, key), now) {
        steps, c := DiskCanBeServed(cfg, w, key, now);
      } else {
        var d :| HoldsFresh(w, d, key, now);
        steps, c := HeldCanBeServed(cfg, w, d, key, now);
      }
    }
  }

  // ---------- When a delete is effective ----------

  /** Once a delete of a key has finished, a later lookup can still return an entry from a given time on, without a
      further put, exactly when at the delete's last step memory holds one servable at that time or a lookup under
      way has read one. */
  lemma {:induction false} DeletedReturnsIff(cfg: Config, w: World, d: nat, now: int)
    requires cfg.Valid() && ValidState(cfg, w.cache) && Enabled(w, Erase(d))
    ensures ValidState(cfg, Apply(cfg, w, Erase(d)).cache)
    ensures var key := w.calls[d].key;
            (exists steps, c ::
               AllUndisturbed(steps, key, now) && Serves(cfg, Apply(cfg, w, Erase(d)), steps, c, key)) <==>
            Fresh(Resident(cfg, w.cache, key), now) || exists c :: HoldsFresh(w, c, key, now)
  {
    hide ValidState, Resident, Run, Serves, AllUndisturbed, OnDisk, AfterErase;
    var key, t := w.calls[d].key, Apply(cfg, w, Erase(d));
    EraseNothingNew(cfg, w.cache, key, key);
    ServedLaterIff(cfg, t, key, now);
    SameHolders(w, t, d, key, now);
  }

  lemma {:induction false} SameHolders(w: World, t: World, d: nat, key: string, now: int)
    requires d in w.calls && !w.calls[d].pc.Loaded? && d in t.calls && !t.calls[d].pc.Loaded? &&
             t.calls == w.calls[d := t.calls[d]]
    ensures (exists c :: HoldsFresh(w, c, key, now)) <==> (exists c :: HoldsFresh(t, c, key, now))
  {
    if c :| HoldsFresh(w, c, key, now) { assert HoldsFresh(t, c, key, now); }
    if c :| HoldsFresh(t, c, key, now) { assert HoldsFresh(w, c, key, now); }
  }

  /** A lookup reads a key that is on disk only. */
  lemma {:induction false} ReadsFile(cfg: Config, w: World, key: string, now: int) returns (steps: seq<Step>, a: nat)
    requires cfg.Valid() && ValidState(cfg, w.cache) && Resident(cfg, w.cache, key) == None &&
             Fresh(OnDisk(w.cache, key), now)
    ensures Run(cfg, w, steps).Some?
    ensures var v := Run(cfg, w, steps).value; Resident(cfg, v.cache, key) == None && HoldsFresh(v, a, key, now)
  {
    hide ValidState, Run, Resident, AfterLook, Lfu.Access;
    steps := [];
    NoSteps(cfg, w, steps, key, now);
    a := FreshId(w.calls.Keys);
    Extend(cfg, w, steps, BeginGet(a, key));
    CountNothingNew(cfg, w.cache, key, key);
    steps := steps + [BeginGet(a, key)];
    LookMisses(cfg, Run(cfg, w, steps).value.cache, key, now);
    Extend(cfg, w, steps, Look(a, now));
    steps := steps + [Look(a, now)];
    Extend(cfg, w, steps, Load(a, now));
    steps := steps + [Load(a, now)];
  }

  /** A delete that runs from start to end between a lookup's read and its promotion does not keep the entry away:
      for every cache that holds the key on disk only there is a run in which the delete has finished, and a lookup
      that begins afterwards returns the entry. */
  lemma {:induction false} DeleteCanBeUndone(cfg: Config, w: World, key: string, now: int)
    returns (before: seq<Step>, d: nat, after: seq<Step>, c: nat)
    requires cfg.Valid() && ValidState(cfg, w.cache) && Resident(cfg, w.cache, key) == None &&
             Fresh(OnDisk(w.cache, key), now)
    ensures Run(cfg, w, before).Some?
    ensures var v := Run(cfg, w, before).value;
            && d in v.calls && v.calls[d] == Call(key, Deleted) && d !in w.calls
            && AllUndisturbed(after, key, now) && Serves(cfg, v, after, c, key)
  {
    hide ValidState, Run, Resident, AfterForget, AfterErase, Serves, AllUndisturbed, OnDisk;
    FileNeedsDisk(cfg, w.cache, key);
    var reading, a := ReadsFile(cfg, w, key, now);
    var u := Run(cfg, w, reading).value;
    d := FreshId(w.calls.Keys + u.calls.Keys);
    Extend(cfg, w, reading, BeginDelete(d, key));
    before := reading + [BeginDelete(d, key)];
    Extend(cfg, w, before, Forget(d));
    before := before + [Forget(d)];
    Extend(cfg, w, before, Erase(d));
    before := before + [Erase(d)];
    assert HoldsFresh(Run(cfg, w, before).value, a, key, now);
    after, c := HeldCanBeServed(cfg, Run(cfg, w, before).value, a, key, now);
  }

  // ---------- A delete that no lookup overlaps ----------

  /** No lookup of the key is on its way to the disk or holds what it read. */
  ghost predicate NoReader(w: World, key: string) {
    forall c :: c in w.calls && w.calls[c].key == key ==>
      !w.calls[c].pc.Looking? && !w.calls[c].pc.Missed? && !w.calls[c].pc.Loaded?
  }

  /** How far a delete has come: past its first step memory is clear of the key, past its last the disk is too. */
  ghost predicate Cleared(cfg: Config, w: World, d: nat, key: string)
    requires cfg.Valid() && ValidState(cfg, w.cache)
  {
    && NoReader(w, key) && d in w.calls && w.calls[d].key == key
    && (w.calls[d].pc.Deleting? || w.calls[d].pc.Erasing? || w.calls[d].pc.Deleted?)
    && (w.calls[d].pc.Erasing? || w.calls[d].pc.Deleted? ==> Resident(cfg, w.cache, key) == None)
    && (w.calls[d].pc.Deleted? ==> OnDisk(w.cache, key) == None)
  }

  /** A step that neither looks the key up nor puts anything under it. */
  predicate Apart(step: Step, key: string) {
    !(step.BeginGet? && step.key == key) && !(step.PutEntry? && step.key == key)
  }

  lemma {:induction false} NoDiskNoFile(cfg: Config, s: State, key: string)
    requires cfg.Valid() && ValidState(cfg, s) && !cfg.diskOn
    ensures OnDisk(s, key) == None
  {
  }

  lemma {:induction false} ReadersStay(cfg: Config, w: World, step: Step, key: string)
    requires cfg.Valid() && ValidState(cfg, w.cache) && Enabled(w, step) && Apart(step, key) && NoReader(w, key)
    ensures NoReader(Apply(cfg, w, step), key)
  {
    hide ValidState, AfterLook, AfterLoad, AfterPromote, AfterForget, AfterErase, Put, Lfu.Access;
  }

  lemma {:induction false} NothingAppears(cfg: Config, w: World, step: Step, key: string)
    requires cfg.Valid() && ValidState(cfg, w.cache) && Enabled(w, step) && Apart(step, key) && NoReader(w, key)
    requires Resident(cfg, w.cache, key) == None
    ensures ValidState(cfg, Apply(cfg, w, step).cache) && Resident(cfg, Apply(cfg, w, step).cache, key) == None
    ensures OnDisk(Apply(cfg, w, step).cache, key) in {None, OnDisk(w.cache, key)}
  {
    hide ValidState, Resident, OnDisk, AfterLook, AfterLoad, AfterPromote, AfterForget, AfterErase, Put, Lfu.Access;
    var s := w.cache;
    match step
    case BeginGet(_, k) => CountNothingNew(cfg, s, k, key);
    case Look(c, at) =>
      LookNothingNew(cfg, s, w.calls[c].key, at, key);
      SameDisk(AfterLook(cfg, s, w.calls[c].key, at).0, s, key);
    case Load(_, _) =>
    case Promote(c, at) => PromoteNothingNew(cfg, s, w.calls[c].key, w.calls[c].pc.entry, at, key);
    case Drop(c) => EraseNothingNew(cfg, s, w.calls[c].key, key);
    case BeginDelete(_, _) =>
    case Forget(c) =>
      ForgetNothingNew(cfg, s, w.calls[c].key, key);
      SameDisk(AfterForget(cfg, s, w.calls[c].key), s, key);
    case Erase(c) => EraseNothingNew(cfg, s, w.calls[c].key, key);
    case PutEntry(k, e, at) => PutNothingNew(cfg, s, k, e, at, key);
  }

  lemma {:induction false} ClearedStep(cfg: Config, w: World, step: Step, d: nat, key: string)
    requires cfg.Valid() && ValidState(cfg, w.cache) && Enabled(w, step) && Apart(step, key) && Cleared(cfg, w, d, key)
    ensures ValidState(cfg, Apply(cfg, w, step).cache) && Cleared(cfg, Apply(cfg, w, step), d, key)
  {
    hide ValidState, Resident, OnDisk, NoReader, AfterLook, AfterLoad, AfterPromote, AfterForget, AfterErase, Put,
         Lfu.Access;
    StepValid(cfg, w, step);
    ReadersStay(cfg, w, step, key);
    if !w.calls[d].pc.Deleting? { NothingAppears(cfg, w, step, key); }
    if step == Forget(d) {
      ForgetNothingNew(cfg, w.cache, key, key);
      if !cfg.diskOn { NoDiskNoFile(cfg, Apply(cfg, w, step).cache, key); }
    }
    if step == Erase(d) { EraseNothingNew(cfg, w.cache, key, key); }
  }

  lemma {:induction false} StaysCleared(cfg: Config, w: World, steps: seq<Step>, d: nat, key: string)
    requires cfg.Valid() && ValidState(cfg, w.cache) && Run(cfg, w, steps).Some? && Cleared(cfg, w, d, key)
    requires forall i :: 0 <= i < |steps| ==> Apart(steps[i], key)
    ensures Cleared(cfg, Run(cfg, w, steps).value, d, key)
  {
    hide ValidState, Cleared, Apply;
    if steps != [] {
      var n := |steps| - 1;
      assert forall i :: 0 <= i < n ==> steps[..n][i] == steps[i];
      StaysCleared(cfg, w, steps[..n], d, key);
      ClearedStep(cfg, Run(cfg, w, steps[..n]).value, steps[n], d, key);
    }
  }

  /** Nothing is put under the key. */
  predicate NoPut(steps: seq<Step>, key: string) {
    forall i :: 0 <= i < |steps| ==> !(steps[i].PutEntry? && steps[i].key == key)
  }

  /** Every finite run begins at some time. */
  lemma {:induction false} StartOf(steps: seq<Step>, key: string) returns (now: int)
    requires NoPut(steps, key)
    ensures AllUndisturbed(steps, key, now)
  {
    if steps == [] {
      now := 0;
    } else {
      var n := |steps| - 1;
      assert forall i :: 0 <= i < n ==> steps[..n][i] == steps[i];
      now := StartOf(steps[..n], key);
      assert forall i :: 0 <= i < n ==> Undisturbed(steps[..n][i], key, now);
      var last := steps[n];
      if (last.Look? || last.Load? || last.Promote?) && last.now < now { now := last.now; }
    }
  }

  /** A delete during which no lookup of its key is under way and nothing is put under the key leaves no copy, so
      that until the next put no lookup returns anything, whatever each of them reads from the clock and in any
      interleaving. */
  lemma {:induction false} UndisturbedDelete(cfg: Config, w: World, steps: seq<Step>, d: nat, key: string)
    requires cfg.Valid() && ValidState(cfg, w.cache) && Run(cfg, w, steps).Some?
    requires NoReader(w, key) && d in w.calls && w.calls[d] == Call(key, Deleting)
    requires forall i :: 0 <= i < |steps| ==> Apart(steps[i], key)
    requires d in Run(cfg, w, steps).value.calls && Run(cfg, w, steps).value.calls[d].pc.Deleted?
    ensures var t := Run(cfg, w, steps).value;
            && Resident(cfg, t.cache, key) == None && OnDisk(t.cache, key) == None
            && !exists after, c :: NoPut(after, key) && Serves(cfg, t, after, c, key)
  {
    hide ValidState, Run, Resident, Serves, AllUndisturbed, NoPut, OnDisk;
    StaysCleared(cfg, w, steps, d, key);
    var t := Run(cfg, w, steps).value;
    forall after, c | NoPut(after, key) ensures !Serves(cfg, t, after, c, key) {
      var now := StartOf(after, key);
      ServedLaterIff(cfg, t, key, now);
      forall h ensures !HoldsFresh(t, h, key, now) {}
    }
  }
}
