/** How the admission policy and the disk tier behave over whole runs of the cache: the sketch has seen
    exactly the lookups, a put is dropped only in favour of a more popular victim, and what is displaced
    from memory is served from disk. */
module CacheAdmission {
  import opened Common
  import opened Bits
  import opened Sharding
  import opened LruShard
  import opened CacheModel
  import opened CacheRuns
  import Lfu = TinyLfu

  /** The keys looked up by a run, in order. */
  function Lookups(ops: seq<Op>): (keys: seq<string>) {
    if ops == [] then []
    else
      var before := Lookups(ops[..|ops| - 1]);
      if ops[|ops| - 1].OpGet? then before + [ops[|ops| - 1].key] else before
  }

  lemma {:induction false} StepPolicy(cfg: Config, s: State, op: Op)
    requires cfg.Valid() && ValidState(cfg, s)
    ensures Step(cfg, s, op).lfu == if op.OpGet? then Lfu.Access(cfg.lfu, s.lfu, op.key) else s.lfu
  {
    hide PutInShard, Remove, MoveToFront, Unlink, Shard.Valid, Lfu.Access;
  }

  lemma {:induction false} PolicyExtends(cfg: Lfu.Config, keys: seq<string>, key: string)
    requires cfg.Valid()
    ensures Lfu.Run(cfg, keys + [key]) == Lfu.Access(cfg, Lfu.Run(cfg, keys), key)
  {
    assert (keys + [key])[..|keys|] == keys;
  }

  /** In every run the admission policy has seen exactly the lookups, hits and misses alike, and nothing else. */
  lemma {:induction false} PolicySeesLookups(cfg: Config, s: State, ops: seq<Op>)
    requires cfg.Valid() && ValidState(cfg, s) && s.lfu == Lfu.Initial(cfg.lfu)
    ensures Run(cfg, s, ops).lfu == Lfu.Run(cfg.lfu, Lookups(ops))
  {
    hide Step, ValidState, Lfu.Access;
    if ops != [] {
      var n := |ops| - 1;
      PolicySeesLookups(cfg, s, ops[..n]);
      RunLast(cfg, s, ops);
      StepPolicy(cfg, Run(cfg, s, ops[..n]), ops[n]);
      if ops[n].OpGet? { PolicyExtends(cfg.lfu, Lookups(ops[..n]), ops[n].key); }
    }
  }

  /** The estimate the policy has of a key after a run. */
  ghost function Popularity(cfg: Config, ops: seq<Op>, key: string): (n: nat)
    requires cfg.Valid()
  {
    Lfu.Estimate(cfg.lfu, Lfu.Run(cfg.lfu, Lookups(ops)).rows, key)
  }

  /** The exact saturating, periodically halved count of lookups of a key in a run. */
  ghost function Frequency(cfg: Config, ops: seq<Op>, key: string): (n: nat) {
    Lfu.IdealRun(cfg.lfu.window, Lookups(ops), key).count
  }

  lemma {:induction false} DroppedAgainst(cfg: Config, sh: Shard, lfu: Lfu.State, key: string)
    requires cfg.Valid() && sh.Valid() && Lfu.ValidState(cfg.lfu, lfu)
    ensures !TakesEffect(cfg, sh, lfu, key) <==>
            && key !in sh.items && |sh.eviction| == sh.cap
            && Lfu.Estimate(cfg.lfu, lfu.rows, key) < Lfu.Estimate(cfg.lfu, lfu.rows, sh.elems[Victim(sh)].key)
  {
  }

  /** A put in any run is dropped exactly when its key is not resident, its shard is full and the least recently
      used key is estimated strictly more popular; then the new key's exact frequency is below that estimate. */
  lemma {:induction false} DroppedIffLessPopular(cfg: Config, s: State, ops: seq<Op>, key: string)
    requires cfg.Valid() && ValidState(cfg, s) && s.lfu == Lfu.Initial(cfg.lfu)
    ensures var sh := Home(cfg, Run(cfg, s, ops), key);
            && (!TakesEffect(cfg, sh, Run(cfg, s, ops).lfu, key) <==>
                  && key !in sh.items && |sh.eviction| == sh.cap
                  && Popularity(cfg, ops, key) < Popularity(cfg, ops, sh.elems[Victim(sh)].key))
            && (!TakesEffect(cfg, sh, Run(cfg, s, ops).lfu, key) ==>
                  Frequency(cfg, ops, key) < Popularity(cfg, ops, sh.elems[Victim(sh)].key))
  {
    PolicySeesLookups(cfg, s, ops);
    Lfu.EstimateDominatesIdeal(cfg.lfu, Lookups(ops), key);
    var t := Run(cfg, s, ops);
    var sh := Home(cfg, Run(cfg, s, ops), key);
    hide Run, Lfu.Run, Lfu.Estimate, Lfu.IdealRun;
    DroppedAgainst(cfg, sh, t.lfu, key);
  }

  // ---------- A put can be dropped ----------

  lemma {:induction false} FirstCell(cfg: Lfu.Config, key: string, row: nat)
    requires cfg.width >= 1 && row == 0
    ensures Lfu.CellIndex(cfg, row, key) == And(cfg.hash(key), cfg.width - 1)
  {
    hide And, Lfu.Rotate32;
    var h: nat := cfg.hash(key);
    assert forall x: int :: row * x == 0;
    assert h % WORD == h;
  }

  /** Keys whose hashes differ modulo the sketch width use different cells of the first row. */
  lemma {:induction false} DistinctCells(cfg: Lfu.Config, a: string, b: string, row: nat)
    requires cfg.Valid() && row == 0 && cfg.hash(a) % cfg.width != cfg.hash(b) % cfg.width
    ensures Lfu.CellIndex(cfg, row, a) != Lfu.CellIndex(cfg, row, b)
  {
    hide Lfu.CellIndex, And;
    var k: nat :| cfg.width == Pow2(k);
    FirstCell(cfg, a, row);
    FirstCell(cfg, b, row);
    hide Pow2;
    AndMaskIsMod(cfg.hash(a), k);
    AndMaskIsMod(cfg.hash(b), k);
  }

  /** Two lookups of a key give it an estimate of at least one; a key with a private cell that was never looked up
      has none. */
  lemma {:induction false} TwiceBeatsNever(cfg: Lfu.Config, a: string, b: string)
    requires cfg.Valid() && cfg.window >= 3 && a != b && cfg.hash(a) % cfg.width != cfg.hash(b) % cfg.width
    ensures Lfu.Estimate(cfg, Lfu.Run(cfg, [a, a]).rows, b) < Lfu.Estimate(cfg, Lfu.Run(cfg, [a, a]).rows, a)
  {
    var keys := [a, a];
    assert keys[..1] == [a] && [a][..0] == [];
    Lfu.EstimateDominatesIdeal(cfg, keys, a);
    DistinctCells(cfg, a, b, 0);
    assert Lfu.NoFalsePositive(cfg, keys, b);
    Lfu.EstimateExact(cfg, keys, b, 0);
    hide Lfu.Estimate, Lfu.Run;
    assert Lfu.IdealRun(cfg.window, [], a) == Lfu.IdealRun(cfg.window, [], b);
    assert Lfu.IdealRun(cfg.window, [a], a) == Lfu.IdealStep(cfg.window, Lfu.IdealRun(cfg.window, [], a), true);
    assert Lfu.IdealRun(cfg.window, [a], b) == Lfu.IdealStep(cfg.window, Lfu.IdealRun(cfg.window, [], b), false);
  }

  /** A shard that holds exactly one entry and has no room for another. */
  ghost predicate Only(sh: Shard, key: string, e: Entry) {
    sh.Valid() && sh.cap == 1 && sh.Contents() == map[key := e]
  }

  lemma {:induction false} OnlyVictim(sh: Shard, key: string, e: Entry)
    requires Only(sh, key, e)
    ensures sh.Valid() && sh.items.Keys == {key} && |sh.eviction| == 1 == sh.cap && sh.elems[Victim(sh)].key == key
  {
    assert sh.items.Keys == sh.Contents().Keys;
    LenWithinCapacity(sh);
    assert |sh.items| == |sh.items.Keys| == 1;
  }

  lemma {:induction false} FirstPut(cfg: Config, s: State, a: string, e: Entry, now: int)
    requires cfg.Valid() && ValidState(cfg, s) && Acceptable(cfg, a, e) && Home(cfg, s, a) == Empty(1)
    ensures ValidState(cfg, Put(cfg, s, a, e, now)) && Only(Home(cfg, Put(cfg, s, a, e, now), a), a, e)
  {
    PutValid(cfg, s, s.lfu, a, e, now);
    var sh := s.shards[cfg.ShardOf(a)];
    PutInShardMemory(cfg, sh, s.lfu, s.disk, a, e, now);
    assert Put(cfg, s, a, e, now).shards[cfg.ShardOf(a)] == PutInShard(cfg, sh, s.lfu, s.disk, a, e, now).0;
    assert sh.Contents() == map[];
    hide PutInShard;
  }

  lemma {:induction false} HitKeepsShard(cfg: Config, s: State, a: string, e: Entry, now: int)
    requires cfg.Valid() && ValidState(cfg, s) && Servable(e, now) && Only(Home(cfg, s, a), a, e)
    ensures ValidState(cfg, Get(cfg, s, a, now).0) && Only(Home(cfg, Get(cfg, s, a, now).0, a), a, e)
  {
    GetValid(cfg, s, a, now);
    var sh := s.shards[cfg.ShardOf(a)];
    assert a in sh.Contents() && sh.Contents()[a] == e;
    assert Get(cfg, s, a, now).0.shards[cfg.ShardOf(a)] == MoveToFront(sh, sh.items[a]);
  }

  lemma {:induction false} OneMore(cfg: Config, s: State, ops: seq<Op>, op: Op)
    requires cfg.Valid() && ValidState(cfg, s)
    ensures Run(cfg, s, ops + [op]) == Step(cfg, Run(cfg, s, ops), op)
    ensures Lookups(ops + [op]) == if op.OpGet? then Lookups(ops) + [op.key] else Lookups(ops)
  {
    assert (ops + [op])[..|ops|] == ops;
    hide Step;
    RunLast(cfg, s, ops + [op]);
  }

  lemma {:induction false} OneMoreHit(cfg: Config, s: State, ops: seq<Op>, a: string, e: Entry, now: int)
    requires cfg.Valid() && ValidState(cfg, s) && Servable(e, now) && Only(Home(cfg, Run(cfg, s, ops), a), a, e)
    ensures Only(Home(cfg, Run(cfg, s, ops + [OpGet(a, now)]), a), a, e) &&
            Lookups(ops + [OpGet(a, now)]) == Lookups(ops) + [a]
  {
    hide Run, Lookups, Get, Only, Home, ValidState;
    OneMore(cfg, s, ops, OpGet(a, now));
    HitKeepsShard(cfg, Run(cfg, s, ops), a, e, now);
  }

  lemma {:induction false} FirstPutRun(cfg: Config, s: State, a: string, e: Entry, now: int)
    requires cfg.Valid() && ValidState(cfg, s) && Home(cfg, s, a) == Empty(1) && Acceptable(cfg, a, e)
    ensures Only(Home(cfg, Run(cfg, s, [OpPut(a, e, now)]), a), a, e) && Lookups([OpPut(a, e, now)]) == []
  {
    var none: seq<Op> := [];
    assert Run(cfg, s, none) == s && Lookups(none) == [];
    assert none + [OpPut(a, e, now)] == [OpPut(a, e, now)];
    hide Run, Lookups, Put, Only, Home, ValidState;
    OneMore(cfg, s, none, OpPut(a, e, now));
    FirstPut(cfg, s, a, e, now);
  }

  /** The run that fills a one-entry shard with a key and looks it up twice. */
  lemma {:induction false} FilledAndUsed(cfg: Config, s: State, a: string, e: Entry, now: int) returns (ops: seq<Op>)
    requires cfg.Valid() && ValidState(cfg, s) && Home(cfg, s, a) == Empty(1)
    requires Acceptable(cfg, a, e) && Servable(e, now)
    ensures ops == [OpPut(a, e, now)] + [OpGet(a, now)] + [OpGet(a, now)]
    ensures Only(Home(cfg, Run(cfg, s, ops), a), a, e) && Lookups(ops) == [a, a]
  {
    hide Run, Lookups, Only, Home, ValidState;
    var put := [OpPut(a, e, now)];
    FirstPutRun(cfg, s, a, e, now);
    OneMoreHit(cfg, s, put, a, e, now);
    OneMoreHit(cfg, s, put + [OpGet(a, now)], a, e, now);
    ops := put + [OpGet(a, now)] + [OpGet(a, now)];
  }

  /** A put of b is dropped after a put and two lookups of a in a shard of capacity one, and b stays a miss: in a cache
      without disk, whenever the sample window is at least three and the two hashes differ modulo the sketch width. */
  lemma {:induction false} PutCanBeDropped(cfg: Config, s: State, a: string, b: string, ea: Entry, eb: Entry, now: int)
    returns (ops: seq<Op>)
    requires cfg.Valid() && ValidState(cfg, s) && s.lfu == Lfu.Initial(cfg.lfu) && !cfg.diskOn && cfg.lfu.window >= 3
    requires a != b && cfg.lfu.hash(a) % cfg.lfu.width != cfg.lfu.hash(b) % cfg.lfu.width
    requires cfg.ShardOf(a) == cfg.ShardOf(b) && Home(cfg, s, a) == Empty(1)
    requires Acceptable(cfg, a, ea) && Acceptable(cfg, b, eb) && WithinAge(ea, now) && WithinAge(eb, now)
    ensures !TakesEffect(cfg, Home(cfg, Run(cfg, s, ops), b), Run(cfg, s, ops).lfu, b)
    ensures ValidState(cfg, Put(cfg, Run(cfg, s, ops), b, eb, now)) &&
            Get(cfg, Put(cfg, Run(cfg, s, ops), b, eb, now), b, now).1 == None
  {
    ops := FilledAndUsed(cfg, s, a, ea, now);
    PolicySeesLookups(cfg, s, ops);
    TwiceBeatsNever(cfg.lfu, a, b);
    var t := Run(cfg, s, ops);
    var sh := Home(cfg, Run(cfg, s, ops), b);
    hide Run, Lfu.Run, Lfu.Estimate, Put, Get;
    OnlyVictim(sh, a, ea);
    DroppedAgainst(cfg, sh, t.lfu, b);
    PutThenGet(cfg, t, b, eb, now);
  }

  /** Such a run exists for every new cache of one entry. */
  lemma {:induction false} OneEntryCacheDrops(cfg: Config, numShards: int, s: State, a: string, b: string, e: Entry,
                                              now: int)
      returns (ops: seq<Op>)
    requires cfg.Valid() && IsInt(numShards) && cfg.numShards == ShardCount(1, numShards) && IsNew(cfg, 1, s) &&
             !cfg.diskOn
    requires cfg.lfu.window >= 3 && a != b && cfg.lfu.hash(a) % cfg.lfu.width != cfg.lfu.hash(b) % cfg.lfu.width
    requires Acceptable(cfg, a, e) && Acceptable(cfg, b, e) && WithinAge(e, now)
    ensures ValidState(cfg, s) && ValidState(cfg, Put(cfg, Run(cfg, s, ops), b, e, now))
    ensures Get(cfg, Put(cfg, Run(cfg, s, ops), b, e, now), b, now).1 == None
  {
    NewIsValid(cfg, 1, numShards, s);
    assert cfg.numShards == 1;
    assert s.shards[0] == Empty(1);
    hide Run, Put, Get;
    ops := PutCanBeDropped(cfg, s, a, b, e, e, now);
  }

  // ---------- The disk tier ----------

  /** The write of a spilled entry goes through: there is room for it and the file system accepts it. */
  ghost predicate SpillSucceeds(cfg: Config, disk: Disk, item: Item, now: int)
    requires cfg.Valid()
  {
    && cfg.diskOn && cfg.writeOk(item.key, item.entry, now)
    && (cfg.diskMaxBytes > 0 ==> MakeRoom(cfg, disk, |item.entry.body| + FILE_OVERHEAD).1)
  }

  lemma {:induction false} PutSpillsVictim(cfg: Config, sh: Shard, lfu: Lfu.State, disk: Disk, key: string, e: Entry,
                                           now: int)
    requires cfg.Valid() && sh.Valid() && Lfu.ValidState(cfg.lfu, lfu)
    requires TakesEffect(cfg, sh, lfu, key) && Displaced(sh, key) != {}
    requires SpillSucceeds(cfg, disk, sh.elems[Victim(sh)], now)
    ensures var item, disk' := sh.elems[Victim(sh)], PutInShard(cfg, sh, lfu, disk, key, e, now).1;
            item.key in disk'.files && disk'.files[item.key].entry == item.entry
  {
    AdmissionAtMostOnce(cfg, sh, lfu, disk, key, now);
  }

  /** A put that displaces a key makes its entry move to disk, and the next lookup of that key serves it from there. */
  lemma {:induction false} DisplacedIsServedFromDisk(cfg: Config, s: State, key: string, e: Entry, now: int, later: int)
    requires cfg.Valid() && ValidState(cfg, s) && Acceptable(cfg, key, e)
    requires var sh := s.shards[cfg.ShardOf(key)];
             && TakesEffect(cfg, sh, s.lfu, key) && Displaced(sh, key) != {}
             && SpillSucceeds(cfg, s.disk, sh.elems[Victim(sh)], now) && WithinAge(sh.elems[Victim(sh)].entry, later)
    ensures ValidState(cfg, Put(cfg, s, key, e, now))
    ensures var item := s.shards[cfg.ShardOf(key)].elems[Victim(s.shards[cfg.ShardOf(key)])];
            Get(cfg, Put(cfg, s, key, e, now), item.key, later).1 == Some(item.entry)
  {
    var i := cfg.ShardOf(key);
    var sh, t := s.shards[i], Put(cfg, s, key, e, now);
    var item := sh.elems[Victim(sh)];
    ServableIff(item.entry, later);
    PutValid(cfg, s, s.lfu, key, e, now);
    PutSpillsVictim(cfg, sh, s.lfu, s.disk, key, e, now);
    PutInShardMemory(cfg, sh, s.lfu, s.disk, key, e, now);
    assert cfg.ShardOf(item.key) == i;
    assert t.shards[i] == PutInShard(cfg, sh, s.lfu, s.disk, key, e, now).0;
    assert item.key in t.shards[i].items <==> item.key in t.shards[i].Contents();
  }

  /** Directory listings report every file. */
  ghost predicate ListsAll(cfg: Config) {
    forall files: map<string, File>, k: string :: k in files ==> k in cfg.listing(files)
  }

  lemma {:induction false} OldestIsOldest(cfg: Config, files: map<string, File>, k: string)
    requires cfg.Valid() && ListsAll(cfg) && k in files
    ensures Oldest(cfg, files).Some? && files[Oldest(cfg, files).value].modTime <= files[k].modTime
  {
    var names := cfg.listing(files);
    assert k in names;
    var i :| 0 <= i < |names| && names[i] == k;
  }

  /** Making room removes files oldest first: nothing kept is older than anything removed. */
  lemma {:induction false} RoomIsMadeOldestFirst(cfg: Config, disk: Disk, size: nat, gone: string, kept: string)
    requires cfg.Valid() && ListsAll(cfg)
    requires gone in disk.files && gone !in MakeRoom(cfg, disk, size).0.files &&
             kept in MakeRoom(cfg, disk, size).0.files
    ensures kept in disk.files && disk.files[gone].modTime <= disk.files[kept].modTime
    decreases |disk.files|
  {
    if disk.used + size > cfg.diskMaxBytes {
      var o := Oldest(cfg, disk.files);
      OldestIsOldest(cfg, disk.files, gone);
      OldestIsOldest(cfg, disk.files, kept);
      UnlinkShrinks(disk, o.value);
      if gone != o.value {
        RoomIsMadeOldestFirst(cfg, Unlink(disk, o.value), size, gone, kept);
      }
    }
  }
}
