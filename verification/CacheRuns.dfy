/** What whole runs of the cache guarantee: without a disk tier it refines a plain
    map; with one, it never serves an entry that was not put since the last delete. */
module CacheRuns {
  import opened Common
  import opened LruShard
  import opened Sharding
  import opened CacheModel
  import Lfu = TinyLfu

  /** A newly built cache over the files already on disk. */
  ghost predicate IsNew(cfg: Config, maxItems: int, s: State)
    requires cfg.Valid()
  {
    && s.shards == seq(cfg.numShards, i requires 0 <= i < cfg.numShards => Empty(ShardCap(maxItems, cfg.numShards, i)))
    && s.lfu == Lfu.Initial(cfg.lfu)
    && 0 <= s.disk.used
    && (!cfg.diskOn ==> s.disk.files == map[])
  }

  lemma {:induction false} NewIsValid(cfg: Config, maxItems: int, numShards: int, s: State)
    requires cfg.Valid() && IsInt(maxItems) && IsInt(numShards)
    requires cfg.numShards == ShardCount(maxItems, numShards) && IsNew(cfg, maxItems, s)
    ensures ValidState(cfg, s)
    ensures forall k :: Resident(cfg, s, k) == None
  {
    CapacitiesSumExactly(maxItems, numShards);
    assert forall i: nat :: i < cfg.numShards ==> s.shards[i] == Empty(ShardCap(maxItems, cfg.numShards, i));
  }

  ghost function Run(cfg: Config, s: State, ops: seq<Op>): (r: State)
    requires cfg.Valid() && ValidState(cfg, s)
    ensures ValidState(cfg, r)
  {
    if ops == [] then s
    else
      var r := Run(cfg, s, ops[..|ops| - 1]);
      StepValid(cfg, r, ops[|ops| - 1]);
      Step(cfg, r, ops[|ops| - 1])
  }

  lemma {:induction false} RunLast(cfg: Config, s: State, ops: seq<Op>)
    requires cfg.Valid() && ValidState(cfg, s) && ops != []
    ensures var t := Run(cfg, s, ops[..|ops| - 1]);
      ValidState(cfg, Step(cfg, t, ops[|ops| - 1])) && Run(cfg, s, ops) == Step(cfg, t, ops[|ops| - 1])
  {
    StepValid(cfg, Run(cfg, s, ops[..|ops| - 1]), ops[|ops| - 1]);
  }

  lemma {:induction false} StepKeepsCapacity(cfg: Config, s: State, op: Op, i: nat)
    requires cfg.Valid() && ValidState(cfg, s) && i < cfg.numShards
    ensures |Step(cfg, s, op).shards| == cfg.numShards && Step(cfg, s, op).shards[i].cap == s.shards[i].cap
  {
    match op
    case OpGet(key, now) => GetKeepsCapacity(cfg, s, key, now, i);
    case OpPut(key, e, now) =>
      if Acceptable(cfg, key, e) {
        PutInShardMemory(cfg, s.shards[cfg.ShardOf(key)], s.lfu, s.disk, key, e, now);
      }
    case OpDelete(key) =>
    case OpPurge =>
  }

  lemma {:induction false} GetKeepsCapacity(cfg: Config, s: State, key: string, now: int, i: nat)
    requires cfg.Valid() && ValidState(cfg, s) && i < cfg.numShards
    ensures |Get(cfg, s, key, now).0.shards| == cfg.numShards &&
            Get(cfg, s, key, now).0.shards[i].cap == s.shards[i].cap
  {
    var sh := s.shards[cfg.ShardOf(key)];
    if key !in sh.items && cfg.diskOn && key in s.disk.files {
      PutInShardMemory(cfg, sh, Lfu.Access(cfg.lfu, s.lfu, key), s.disk, key, s.disk.files[key].entry, now);
    }
  }

  /** Capacities never change, so no reachable shard outgrows the share it was built with. */
  lemma {:induction false} CapacitiesFixed(cfg: Config, s: State, ops: seq<Op>, i: nat)
    requires cfg.Valid() && ValidState(cfg, s) && i < cfg.numShards
    ensures Run(cfg, s, ops).shards[i].cap == s.shards[i].cap
    ensures |Run(cfg, s, ops).shards[i].items| <= s.shards[i].cap
  {
    LenWithinCapacity(Run(cfg, s, ops).shards[i]);
    if ops != [] {
      var n := |ops| - 1;
      CapacitiesFixed(cfg, s, ops[..n], i);
      RunLast(cfg, s, ops);
      StepKeepsCapacity(cfg, Run(cfg, s, ops[..n]), ops[n], i);
    }
  }

  lemma {:induction false} ItemsWithinSum(maxItems: int, numShards: nat, shards: seq<Shard>, n: nat)
    requires numShards >= 1 && n <= |shards|
    requires forall i: nat :: i < n ==> |shards[i].items| <= ShardCap(maxItems, numShards, i)
    ensures TotalItems(shards[..n]) <= SumCaps(maxItems, numShards, n)
  {
    if n > 0 {
      ItemsWithinSum(maxItems, numShards, shards, n - 1);
      assert shards[..n][..n - 1] == shards[..n - 1];
      assert |shards[n - 1].items| <= ShardCap(maxItems, numShards, n - 1);
    }
  }

  /** In every run of a new cache the keys in memory number at most MaxItems. */
  lemma {:induction false} TotalWithinMaxItems(cfg: Config, maxItems: int, numShards: int, s: State, ops: seq<Op>)
    requires cfg.Valid() && IsInt(maxItems) && IsInt(numShards)
    requires cfg.numShards == ShardCount(maxItems, numShards) && IsNew(cfg, maxItems, s)
    ensures ValidState(cfg, s) && TotalItems(Run(cfg, s, ops).shards) <= Capacity(maxItems)
  {
    NewIsValid(cfg, maxItems, numShards, s);
    var t, n := Run(cfg, s, ops), cfg.numShards;
    forall i: nat | i < n ensures |t.shards[i].items| <= ShardCap(maxItems, n, i) {
      CapacitiesFixed(cfg, s, ops, i);
      assert s.shards[i] == Empty(ShardCap(maxItems, n, i));
    }
    ItemsWithinSum(maxItems, n, t.shards, n);
    assert t.shards[..n] == t.shards;
    CapacitiesSumExactly(maxItems, numShards);
  }

  // ---------- The plain map ----------

  /** The entry of the latest acceptable put of each key since its last delete or purge. */
  function Latest(cfg: Config, ops: seq<Op>): (m: map<string, Entry>) {
    if ops == [] then map[]
    else
      var m := Latest(cfg, ops[..|ops| - 1]);
      match ops[|ops| - 1]
      case OpGet(_, _) => m
      case OpPut(key, e, _) => if Acceptable(cfg, key, e) then m[key := e] else m
      case OpDelete(key) => m - {key}
      case OpPurge => map[]
  }

  ghost predicate Overwrites(cfg: Config, op: Op, k: string) {
    || (op.OpPut? && op.key == k && Acceptable(cfg, k, op.entry))
    || op == OpDelete(k)
    || op.OpPurge?
  }

  /** Replacing one shard leaves every key of another shard as it was. */
  lemma {:induction false} ResidentElsewhere(cfg: Config, s: State, t: State, i: nat, k: string)
    requires cfg.Valid() && ValidState(cfg, s) && ValidState(cfg, t)
    requires i < cfg.numShards && cfg.ShardOf(k) != i && t.shards == s.shards[i := t.shards[i]]
    ensures Resident(cfg, t, k) == Resident(cfg, s, k)
  {
  }

  /** What is in memory under a key, read from its shard. */
  lemma {:induction false} ResidentIn(cfg: Config, s: State, k: string, sh: Shard)
    requires cfg.Valid() && ValidState(cfg, s) && sh == s.shards[cfg.ShardOf(k)]
    ensures sh.Valid() && Resident(cfg, s, k) == if k in sh.Contents() then Some(sh.Contents()[k]) else None
  {
  }

  lemma {:induction false} ResidentAfterHit(cfg: Config, s: State, key: string, now: int, k: string)
    requires cfg.Valid() && ValidState(cfg, s) && ValidState(cfg, Get(cfg, s, key, now).0)
    requires key in s.shards[cfg.ShardOf(key)].items && cfg.ShardOf(k) == cfg.ShardOf(key)
    ensures var old_entry := Resident(cfg, s, key);
            && old_entry.Some?
            && Resident(cfg, Get(cfg, s, key, now).0, k) ==
               if k == key && !Servable(old_entry.value, now) then None else Resident(cfg, s, k)
  {
    var i := cfg.ShardOf(key);
    var sh := s.shards[i];
    assert sh.Valid();
    hide Get, ValidState, Resident, MoveToFront, Remove;
    ResidentIsItem(cfg, s, key);
    GetHitEffect(cfg, s, key, now);
    var t := Get(cfg, s, key, now).0;
    ResidentIn(cfg, s, k, sh);
    ResidentIn(cfg, t, k, t.shards[i]);
  }

  lemma {:induction false} ResidentAfterPromotion(cfg: Config, s: State, key: string, now: int, k: string)
    requires cfg.Valid() && ValidState(cfg, s) && ValidState(cfg, Get(cfg, s, key, now).0)
    requires key !in s.shards[cfg.ShardOf(key)].items && cfg.diskOn && key in s.disk.files &&
             Servable(s.disk.files[key].entry, now)
    requires cfg.ShardOf(k) == cfg.ShardOf(key)
    ensures var r := Resident(cfg, Get(cfg, s, key, now).0, k);
            r.Some? ==> Resident(cfg, s, k) == r || (key == k && s.disk.files[k].entry == r.value)
  {
    var i, e, lfu := cfg.ShardOf(key), s.disk.files[key].entry, Lfu.Access(cfg.lfu, s.lfu, key);
    var sh := s.shards[i];
    assert sh.Valid();
    hide Get, ValidState, Resident, PutInShard;
    GetPromoteEffect(cfg, s, key, now);
    var t := Get(cfg, s, key, now).0;
    PutInShardMemory(cfg, sh, lfu, s.disk, key, e, now);
    ResidentIn(cfg, s, k, sh);
    ResidentIn(cfg, t, k, t.shards[i]);
  }

  lemma {:induction false} ResidentAfterGet(cfg: Config, s: State, key: string, now: int, k: string)
    requires cfg.Valid() && ValidState(cfg, s) && ValidState(cfg, Get(cfg, s, key, now).0)
    ensures var r := Resident(cfg, Get(cfg, s, key, now).0, k);
      r.Some? ==>
        Resident(cfg, s, k) == r || (key == k && cfg.diskOn && k in s.disk.files && s.disk.files[k].entry == r.value)
  {
    var i, t := cfg.ShardOf(key), Get(cfg, s, key, now).0;
    var hit := key in s.shards[i].items;
    assert |s.shards| == |t.shards| == cfg.numShards;
    hide Get, ValidState, Resident;
    if hit {
      GetHitEffect(cfg, s, key, now);
      if cfg.ShardOf(k) == i { ResidentAfterHit(cfg, s, key, now, k); } else { ResidentElsewhere(cfg, s, t, i, k); }
    } else if cfg.diskOn && key in s.disk.files && Servable(s.disk.files[key].entry, now) {
      GetPromoteEffect(cfg, s, key, now);
      if cfg.ShardOf(k) == i { ResidentAfterPromotion(cfg, s, key, now, k); }
      else { ResidentElsewhere(cfg, s, t, i, k); }
    } else {
      GetMissEffect(cfg, s, key, now);
      SameShards(cfg, s, t, k);
    }
  }

  lemma {:induction false} SameShards(cfg: Config, s: State, t: State, k: string)
    requires cfg.Valid() && ValidState(cfg, s) && ValidState(cfg, t) && t.shards == s.shards
    ensures Resident(cfg, t, k) == Resident(cfg, s, k)
  {
  }

  lemma {:induction false} PutEffect(cfg: Config, s: State, key: string, e: Entry, now: int)
    requires cfg.Valid() && ValidState(cfg, s) && Acceptable(cfg, key, e)
    ensures var i := cfg.ShardOf(key);
            && i < |s.shards| && s.shards[i].Valid()
            && var r := PutInShard(cfg, s.shards[i], s.lfu, s.disk, key, e, now);
               Put(cfg, s, key, e, now) == State(s.shards[i := r.0], s.lfu, r.1)
  {
    hide PutInShard;
  }

  lemma {:induction false} ResidentAfterPut(cfg: Config, s: State, key: string, e: Entry, now: int, k: string)
    requires cfg.Valid() && ValidState(cfg, s) && ValidState(cfg, Put(cfg, s, key, e, now))
    requires Acceptable(cfg, key, e)
    ensures var sh := s.shards[cfg.ShardOf(key)];
            Resident(cfg, Put(cfg, s, key, e, now), k) ==
            if !TakesEffect(cfg, sh, s.lfu, key) then Resident(cfg, s, k)
            else if k == key then Some(e)
            else if k in Displaced(sh, key) then None
            else Resident(cfg, s, k)
  {
    hide PutInShard, Put, Resident, TakesEffect;
    PutEffect(cfg, s, key, e, now);
    var i, t := cfg.ShardOf(key), Put(cfg, s, key, e, now);
    if cfg.ShardOf(k) != i {
      ResidentElsewhere(cfg, s, t, i, k);
    } else {
      PutInShardMemory(cfg, s.shards[i], s.lfu, s.disk, key, e, now);
      ResidentIn(cfg, s, k, s.shards[i]);
      ResidentIn(cfg, t, k, t.shards[i]);
      assert key in s.shards[i].items <==> key in s.shards[i].Contents();
    }
  }

  lemma {:induction false} PutOrigin(cfg: Config, s: State, key: string, e: Entry, now: int, k: string)
    requires cfg.Valid() && ValidState(cfg, s) && ValidState(cfg, Put(cfg, s, key, e, now))
    requires Acceptable(cfg, key, e)
    ensures var r := Resident(cfg, Put(cfg, s, key, e, now), k);
      r.Some? ==> if key == k then r.value == e else Resident(cfg, s, k) == r
  {
    hide Put, Resident, Displaced, Lfu.Admit;
    ResidentAfterPut(cfg, s, key, e, now, k);
    ResidentIsItem(cfg, s, key);
  }

  lemma {:induction false} ResidentAfterDelete(cfg: Config, s: State, key: string, k: string)
    requires cfg.Valid() && ValidState(cfg, s) && ValidState(cfg, Delete(cfg, s, key))
    ensures Resident(cfg, Delete(cfg, s, key), k) == if key == k then None else Resident(cfg, s, k)
  {
    var i, t := cfg.ShardOf(key), Delete(cfg, s, key);
    if cfg.ShardOf(k) != i {
      ResidentElsewhere(cfg, s, t, i, k);
    }
  }

  /** Where an entry held in memory after one step came from. */
  lemma {:induction false} ResidentOrigin(cfg: Config, s: State, op: Op, k: string)
    requires cfg.Valid() && ValidState(cfg, s) && ValidState(cfg, Step(cfg, s, op))
    ensures var r := Resident(cfg, Step(cfg, s, op), k);
      r.Some? ==>
        || (op.OpPut? && op.key == k && Acceptable(cfg, k, op.entry) && r.value == op.entry)
        || (Resident(cfg, s, k) == r && !Overwrites(cfg, op, k))
        || (op.OpGet? && op.key == k && cfg.diskOn && k in s.disk.files && s.disk.files[k].entry == r.value)
  {
    hide Get, Delete, PutInShard, TakesEffect, Displaced;
    match op
    case OpGet(key, now) => ResidentAfterGet(cfg, s, key, now, k);
    case OpPut(key, e, now) => if Acceptable(cfg, key, e) { PutOrigin(cfg, s, key, e, now, k); }
    case OpDelete(key) => ResidentAfterDelete(cfg, s, key, k);
    case OpPurge =>
  }

  /** Where an entry on disk after one step came from. */
  lemma {:induction false} DiskOrigin(cfg: Config, s: State, op: Op, k: string)
    requires cfg.Valid() && ValidState(cfg, s) && ValidState(cfg, Step(cfg, s, op))
    requires k in Step(cfg, s, op).disk.files
    ensures op != OpDelete(k)
    ensures var e := Step(cfg, s, op).disk.files[k].entry;
      (k in s.disk.files && s.disk.files[k].entry == e) || Resident(cfg, s, k) == Some(e)
  {
    match op
    case OpGet(key, now) => DiskAfterGet(cfg, s, key, now, k);
    case OpPut(key, e, now) =>
      PutInShardDisk(cfg, s.shards[cfg.ShardOf(key)], s.lfu, s.disk, key, e, now);
      ContentsPlaced(cfg, s.shards, cfg.ShardOf(key));
    case OpDelete(key) =>
    case OpPurge =>
  }

  lemma {:induction false} DiskAfterGet(cfg: Config, s: State, key: string, now: int, k: string)
    requires cfg.Valid() && ValidState(cfg, s)
    requires k in Get(cfg, s, key, now).0.disk.files
    ensures var e := Get(cfg, s, key, now).0.disk.files[k].entry;
      (k in s.disk.files && s.disk.files[k].entry == e) || Resident(cfg, s, k) == Some(e)
  {
    var sh := s.shards[cfg.ShardOf(key)];
    if key !in sh.items && cfg.diskOn && key in s.disk.files {
      PutInShardDisk(cfg, sh, Lfu.Access(cfg.lfu, s.lfu, key), s.disk, key, s.disk.files[key].entry, now);
      ContentsPlaced(cfg, s.shards, cfg.ShardOf(key));
    }
  }

  lemma {:induction false} LatestAfter(cfg: Config, ops: seq<Op>, k: string)
    requires ops != []
    ensures var op, before := ops[|ops| - 1], Latest(cfg, ops[..|ops| - 1]);
      && (!Overwrites(cfg, op, k) && k in before ==> k in Latest(cfg, ops) && Latest(cfg, ops)[k] == before[k])
      && (op.OpPut? && op.key == k && Acceptable(cfg, k, op.entry) ==>
            k in Latest(cfg, ops) && Latest(cfg, ops)[k] == op.entry)
  {
  }

  ghost predicate IsLatest(cfg: Config, ops: seq<Op>, k: string, r: Option<Entry>) {
    r.Some? ==> k in Latest(cfg, ops) && Latest(cfg, ops)[k] == r.value
  }

  /** Without a disk tier memory is always part of the plain map. */
  lemma {:induction false} MemoryWithinLatest(cfg: Config, s: State, ops: seq<Op>, k: string)
    requires cfg.Valid() && ValidState(cfg, s) && !cfg.diskOn
    requires Resident(cfg, s, k) == None
    ensures IsLatest(cfg, ops, k, Resident(cfg, Run(cfg, s, ops), k))
  {
    if ops != [] {
      var n := |ops| - 1;
      var t := Run(cfg, s, ops[..n]);
      MemoryWithinLatest(cfg, s, ops[..n], k);
      RunLast(cfg, s, ops);
      ResidentOrigin(cfg, t, ops[n], k);
      LatestAfter(cfg, ops, k);
    }
  }

  /** Without a disk tier every Get of every run answers nil or the plain map's entry, never past its age limit. */
  lemma {:induction false} GetRefinesMap(cfg: Config, s: State, ops: seq<Op>, key: string, now: int)
    requires cfg.Valid() && ValidState(cfg, s) && !cfg.diskOn
    requires Resident(cfg, s, key) == None
    ensures var r := Get(cfg, Run(cfg, s, ops), key, now).1;
            r.Some? ==> key in Latest(cfg, ops) && Latest(cfg, ops)[key] == r.value && WithinAge(r.value, now)
  {
    MemoryWithinLatest(cfg, s, ops, key);
  }

  // ---------- With a disk tier ----------

  /** The entry was put under the key and the key has not been deleted since. */
  ghost predicate PutSinceDelete(cfg: Config, ops: seq<Op>, k: string, e: Entry) {
    exists n :: 0 <= n < |ops| && ops[n].OpPut? && ops[n].key == k && ops[n].entry == e && Acceptable(cfg, k, e)
                && forall m :: n < m < |ops| ==> ops[m] != OpDelete(k)
  }

  /** The entry was on disk at the start and the key has not been deleted. */
  ghost predicate InheritedFromDisk(s: State, ops: seq<Op>, k: string, e: Entry) {
    k in s.disk.files && s.disk.files[k].entry == e && forall m :: 0 <= m < |ops| ==> ops[m] != OpDelete(k)
  }

  ghost predicate Legitimate(cfg: Config, s: State, ops: seq<Op>, k: string, e: Entry) {
    PutSinceDelete(cfg, ops, k, e) || InheritedFromDisk(s, ops, k, e)
  }

  lemma {:induction false} LegitimateExtends(cfg: Config, s: State, ops: seq<Op>, k: string, e: Entry)
    requires ops != [] && Legitimate(cfg, s, ops[..|ops| - 1], k, e)
    requires ops[|ops| - 1] != OpDelete(k)
    ensures Legitimate(cfg, s, ops, k, e)
  {
    var before := ops[..|ops| - 1];
    if PutSinceDelete(cfg, before, k, e) {
      var n :|
        0 <= n < |before| && before[n].OpPut? && before[n].key == k && before[n].entry == e && Acceptable(cfg, k, e)
               && forall m :: n < m < |before| ==> before[m] != OpDelete(k);
      assert ops[n] == before[n];
      assert forall m :: n < m < |before| ==> ops[m] == before[m];
    } else {
      assert forall m :: 0 <= m < |before| ==> ops[m] == before[m];
    }
  }

  lemma {:induction false} TiersLegitimate(cfg: Config, s: State, ops: seq<Op>, k: string)
    requires cfg.Valid() && ValidState(cfg, s) && Resident(cfg, s, k) == None
    ensures var r := Run(cfg, s, ops);
      && (Resident(cfg, r, k).Some? ==> Legitimate(cfg, s, ops, k, Resident(cfg, r, k).value))
      && (k in r.disk.files ==> Legitimate(cfg, s, ops, k, r.disk.files[k].entry))
  {
    if ops != [] {
      var n := |ops| - 1;
      var t, r := Run(cfg, s, ops[..n]), Run(cfg, s, ops);
      TiersLegitimate(cfg, s, ops[..n], k);
      if Resident(cfg, r, k).Some? {
        var e := Resident(cfg, r, k).value;
        ResidentOrigin(cfg, t, ops[n], k);
        if ops[n].OpPut? && ops[n].key == k && ops[n].entry == e && Acceptable(cfg, k, e) {
          assert PutSinceDelete(cfg, ops, k, e);
        } else {
          LegitimateExtends(cfg, s, ops, k, e);
        }
      }
      if k in r.disk.files {
        DiskOrigin(cfg, t, ops[n], k);
        LegitimateExtends(cfg, s, ops, k, r.disk.files[k].entry);
      }
    }
  }

  /** With or without a disk tier, a Get of any run serves only an entry put under
      its key since the key's last delete, or found on disk at the start, within its age
      limit. */
  lemma {:induction false} GetServesOnlyPuts(cfg: Config, s: State, ops: seq<Op>, key: string, now: int)
    requires cfg.Valid() && ValidState(cfg, s) && Resident(cfg, s, key) == None
    ensures var r := Get(cfg, Run(cfg, s, ops), key, now).1;
            r.Some? ==> Legitimate(cfg, s, ops, key, r.value) && WithinAge(r.value, now)
  {
    hide Get, ValidState, Legitimate, Run;
    var t := Run(cfg, s, ops);
    TiersLegitimate(cfg, s, ops, key);
    GetAnswers(cfg, t, key, now);
  }

  /** A lookup answers from memory or from disk, within the age limit. */
  lemma {:induction false} GetAnswers(cfg: Config, s: State, key: string, now: int)
    requires cfg.Valid() && ValidState(cfg, s)
    ensures var r := Get(cfg, s, key, now).1;
            r.Some? ==>
              && (Resident(cfg, s, key) == r || (key in s.disk.files && s.disk.files[key].entry == r.value))
              && WithinAge(r.value, now)
  {
    hide PutInShard, Unlink, MoveToFront, Remove, Lfu.Access;
  }

  /** What is on disk under a key. */
  function OnDisk(s: State, key: string): (r: Option<Entry>) {
    if key in s.disk.files then Some(s.disk.files[key].entry) else None
  }

  ghost predicate SameElsewhere(cfg: Config, s: State, t: State, key: string)
    requires cfg.Valid() && ValidState(cfg, s) && ValidState(cfg, t)
  {
    forall k :: k != key ==> Resident(cfg, t, k) == Resident(cfg, s, k) && OnDisk(t, k) == OnDisk(s, k)
  }

  lemma {:induction false} ResidentIsItem(cfg: Config, s: State, key: string)
    requires cfg.Valid() && ValidState(cfg, s)
    ensures var sh := s.shards[cfg.ShardOf(key)];
            Resident(cfg, s, key) == if key in sh.items then Some(sh.elems[sh.items[key]].entry) else None
  {
  }

  /** The exact answer of every lookup: the entry in memory if it is within its age limit, nothing if that one is too
      old; without one in memory, the entry on disk if it is within its age limit. */
  lemma {:induction false} GetExact(cfg: Config, s: State, key: string, now: int)
    requires cfg.Valid() && ValidState(cfg, s)
    ensures var held := if Resident(cfg, s, key).Some? then Resident(cfg, s, key) else OnDisk(s, key);
            Get(cfg, s, key, now).1 == if held.Some? && WithinAge(held.value, now) then held else None
  {
    ResidentIsItem(cfg, s, key);
    hide PutInShard, Unlink, MoveToFront, Remove, Lfu.Access, Shard.Valid, Resident, WithinAge, IsExpired,
         IsStaleServable;
    if key in s.shards[cfg.ShardOf(key)].items {
      GetHitEffect(cfg, s, key, now);
      ServableIff(Resident(cfg, s, key).value, now);
    } else if key in s.disk.files {
      ServableIff(s.disk.files[key].entry, now);
    }
  }

  lemma {:induction false} UnlinkedFiles(disk: Disk, key: string)
    ensures Unlink(disk, key).files == disk.files - {key}
  {
  }

  lemma {:induction false} HitEffect(cfg: Config, s: State, key: string, now: int)
    requires cfg.Valid() && ValidState(cfg, s) && Resident(cfg, s, key).Some?
    ensures var i, t := cfg.ShardOf(key), Get(cfg, s, key, now).0;
            && i < cfg.numShards == |s.shards| == |t.shards| && (!cfg.diskOn ==> s.disk.files == map[])
            && key in s.shards[i].items && t.shards == s.shards[i := t.shards[i]]
            && t.disk ==
               if !Servable(Resident(cfg, s, key).value, now) && cfg.diskOn then Unlink(s.disk, key) else s.disk
  {
    hide Get, Servable, Unlink, MoveToFront, Remove;
    ResidentIsItem(cfg, s, key);
    GetHitEffect(cfg, s, key, now);
  }

  lemma {:induction false} HitLeaves(cfg: Config, s: State, key: string, now: int)
    requires cfg.Valid() && ValidState(cfg, s) && ValidState(cfg, Get(cfg, s, key, now).0)
    requires Resident(cfg, s, key).Some?
    ensures var e, t := Resident(cfg, s, key).value, Get(cfg, s, key, now).0;
            && (Servable(e, now) ==> t.disk == s.disk && Resident(cfg, t, key) == Some(e))
            && (!Servable(e, now) ==> OnDisk(t, key) == None && Resident(cfg, t, key) == None)
            && SameElsewhere(cfg, s, t, key)
  {
    hide Get, ValidState, Resident, Servable, Unlink, MoveToFront, Remove, Shard.Valid;
    var i, t := cfg.ShardOf(key), Get(cfg, s, key, now).0;
    HitEffect(cfg, s, key, now);
    UnlinkedFiles(s.disk, key);
    forall k ensures cfg.ShardOf(k) != i ==> Resident(cfg, t, k) == Resident(cfg, s, k) {
      if cfg.ShardOf(k) != i { ResidentElsewhere(cfg, s, t, i, k); }
    }
    forall k | cfg.ShardOf(k) == i
      ensures Resident(cfg, t, k) ==
              if k == key && !Servable(Resident(cfg, s, key).value, now) then None else Resident(cfg, s, k)
    {
      ResidentAfterHit(cfg, s, key, now, k);
    }
  }

  /** What a lookup leaves behind: an entry that is too old is gone from both tiers and nothing else is; an entry within
      its age limit in memory stays, and so does everything beside it. */
  lemma {:induction false} GetLeaves(cfg: Config, s: State, key: string, now: int)
    requires cfg.Valid() && ValidState(cfg, s)
    ensures ValidState(cfg, Get(cfg, s, key, now).0)
    ensures var held, t := Resident(cfg, s, key), Get(cfg, s, key, now).0;
            && (held.Some? && WithinAge(held.value, now) ==>
                  t.disk == s.disk && Resident(cfg, t, key) == held && SameElsewhere(cfg, s, t, key))
            && (Get(cfg, s, key, now).1 == None ==>
                  Resident(cfg, t, key) == None && OnDisk(t, key) == None && SameElsewhere(cfg, s, t, key))
  {
    hide Get, ValidState, Resident, OnDisk, WithinAge, SameElsewhere;
    var held := Resident(cfg, s, key);
    GetValid(cfg, s, key, now);
    GetExact(cfg, s, key, now);
    if held.Some? {
      HitLeaves(cfg, s, key, now);
      ServableIff(held.value, now);
    } else if Get(cfg, s, key, now).1 == None {
      MissLeaves(cfg, s, key, now);
    }
  }

  lemma {:induction false} MissLeaves(cfg: Config, s: State, key: string, now: int)
    requires cfg.Valid() && ValidState(cfg, s) && ValidState(cfg, Get(cfg, s, key, now).0)
    requires Resident(cfg, s, key) == None && Get(cfg, s, key, now).1 == None
    ensures var t := Get(cfg, s, key, now).0;
            Resident(cfg, t, key) == None && OnDisk(t, key) == None && SameElsewhere(cfg, s, t, key)
  {
    hide Get, Unlink, ValidState, Resident;
    var t := Get(cfg, s, key, now).0;
    MissEffect(cfg, s, key, now);
    UnlinkedFiles(s.disk, key);
    forall k ensures Resident(cfg, t, k) == Resident(cfg, s, k) { SameShards(cfg, s, t, k); }
  }

  lemma {:induction false} MissEffect(cfg: Config, s: State, key: string, now: int)
    requires cfg.Valid() && ValidState(cfg, s)
    requires Resident(cfg, s, key) == None && Get(cfg, s, key, now).1 == None
    ensures var t := Get(cfg, s, key, now).0;
            t.shards == s.shards && t.disk == (if key in s.disk.files then Unlink(s.disk, key) else s.disk)
  {
    hide PutInShard, MoveToFront, Remove, Unlink, Lfu.Access, Servable, Shard.Valid;
  }

  /** An entry served from disk is put into memory exactly when there is room or the victim is no more popular, the
      lookup itself counted. */
  lemma {:induction false} GetPromotes(cfg: Config, s: State, key: string, now: int)
    requires cfg.Valid() && ValidState(cfg, s) && Resident(cfg, s, key) == None && Get(cfg, s, key, now).1.Some?
    ensures ValidState(cfg, Get(cfg, s, key, now).0) && Get(cfg, s, key, now).1 == OnDisk(s, key)
    ensures Resident(cfg, Get(cfg, s, key, now).0, key) ==
            if TakesEffect(cfg, s.shards[cfg.ShardOf(key)], Lfu.Access(cfg.lfu, s.lfu, key), key) then OnDisk(s, key)
            else None
  {
    hide Get, PutInShard, TakesEffect, Displaced, Lfu.Access;
    GetExact(cfg, s, key, now);
    GetValid(cfg, s, key, now);
    ResidentIsItem(cfg, s, key);
    var e, i := s.disk.files[key].entry, cfg.ShardOf(key);
    ServableIff(e, now);
    GetPromoteEffect(cfg, s, key, now);
    PutInShardMemory(cfg, s.shards[i], Lfu.Access(cfg.lfu, s.lfu, key), s.disk, key, e, now);
    ResidentIn(cfg, Get(cfg, s, key, now).0, key, Get(cfg, s, key, now).0.shards[i]);
  }

  lemma {:induction false} StepCounter(cfg: Config, s: State, op: Op)
    requires cfg.Valid() && ValidState(cfg, s)
    ensures CounterMoves(cfg, s.disk.used, Step(cfg, s, op).disk.used)
  {
    hide Lfu.Access, PutInShard, Unlink, Remove, MoveToFront;
    match op
    case OpGet(key, now) =>
      UnlinkBounded(cfg, s.disk, key);
      if key in s.disk.files {
        PutInShardDisk(cfg, s.shards[cfg.ShardOf(key)], Lfu.Access(cfg.lfu, s.lfu, key), s.disk, key,
                       s.disk.files[key].entry, now);
      }
    case OpPut(key, e, now) => PutInShardDisk(cfg, s.shards[cfg.ShardOf(key)], s.lfu, s.disk, key, e, now);
    case OpDelete(key) => UnlinkBounded(cfg, s.disk, key);
    case OpPurge =>
  }

  /** In every run the disk counter stays between zero and the larger of its limit and its value at the start; so it
      stays within the limit if it starts there, and from the first time it is. */
  lemma {:induction false} DiskCounterBounded(cfg: Config, s: State, ops: seq<Op>)
    requires cfg.Valid() && ValidState(cfg, s)
    ensures CounterMoves(cfg, s.disk.used, Run(cfg, s, ops).disk.used)
  {
    if ops != [] {
      var n := |ops| - 1;
      DiskCounterBounded(cfg, s, ops[..n]);
      RunLast(cfg, s, ops);
      hide Step;
      StepCounter(cfg, Run(cfg, s, ops[..n]), ops[n]);
    }
  }

  // ---------- When a put is visible ----------

  /** An accepted put followed by a get: the new entry is served exactly when the put
      took effect (resident, room, or admitted); otherwise the put was dropped and the get
      falls back to the disk's older copy, if any. */
  lemma {:induction false} PutThenGet(cfg: Config, s: State, key: string, e: Entry, now: int)
    requires cfg.Valid() && ValidState(cfg, s)
    requires Acceptable(cfg, key, e) && WithinAge(e, now)
    ensures ValidState(cfg, Put(cfg, s, key, e, now))
    ensures Get(cfg, Put(cfg, s, key, e, now), key, now).1 ==
            if TakesEffect(cfg, s.shards[cfg.ShardOf(key)], s.lfu, key) then Some(e)
            else if cfg.diskOn && key in s.disk.files && WithinAge(s.disk.files[key].entry, now)
            then Some(s.disk.files[key].entry)
            else None
  {
    ServableIff(e, now);
    if key in s.disk.files { ServableIff(s.disk.files[key].entry, now); }
    var i := cfg.ShardOf(key);
    PutValid(cfg, s, s.lfu, key, e, now);
    PutInShardMemory(cfg, s.shards[i], s.lfu, s.disk, key, e, now);
    var t := Put(cfg, s, key, e, now);
    assert t.shards[i] == PutInShard(cfg, s.shards[i], s.lfu, s.disk, key, e, now).0;
    assert key in t.shards[i].items <==> key in t.shards[i].Contents();
  }

  /** What a put leaves in memory: everything else, but for one key if the put takes effect and the shard of its key,
      which is new there, is full: then the back of that shard's list goes. */
  lemma {:induction false} PutLeaves(cfg: Config, s: State, key: string, e: Entry, now: int, k: string)
    requires cfg.Valid() && ValidState(cfg, s) && k != key
    ensures ValidState(cfg, Put(cfg, s, key, e, now))
    ensures var sh, t := s.shards[cfg.ShardOf(key)], Put(cfg, s, key, e, now);
            && (Resident(cfg, t, k) != Resident(cfg, s, k) ==>
                  && Resident(cfg, t, k) == None && Resident(cfg, t, key) == Some(e) && Resident(cfg, s, key) == None
                  && cfg.ShardOf(k) == cfg.ShardOf(key) && |sh.eviction| == sh.cap
                  && k == sh.elems[sh.eviction[|sh.eviction| - 1]].key)
            && t.lfu == s.lfu
  {
    hide PutInShard, Resident, TakesEffect, ValidState, Get, Delete, Purge;
    CacheModel.StepValid(cfg, s, OpPut(key, e, now));
    if Acceptable(cfg, key, e) {
      PutEffect(cfg, s, key, e, now);
      ResidentAfterPut(cfg, s, key, e, now, k);
      ResidentAfterPut(cfg, s, key, e, now, key);
      DisplacedIs(cfg, s, key, k);
    }
  }

  lemma {:induction false} DisplacedIs(cfg: Config, s: State, key: string, k: string)
    requires cfg.Valid() && ValidState(cfg, s)
    ensures var sh := s.shards[cfg.ShardOf(key)];
            && sh.Valid()
            && (k in Displaced(sh, key) ==>
                  && Resident(cfg, s, key) == None && cfg.ShardOf(k) == cfg.ShardOf(key)
                  && |sh.eviction| == sh.cap && sh.eviction[|sh.eviction| - 1] in sh.elems
                  && k == sh.elems[sh.eviction[|sh.eviction| - 1]].key)
  {
    ResidentIsItem(cfg, s, key);
    hide Resident;
  }

  /** A delete leaves every other key alone in both tiers; a purge empties memory and leaves the disk and the admission
      policy alone. */
  lemma {:induction false} RemovalsLeave(cfg: Config, s: State, key: string, k: string)
    requires cfg.Valid() && ValidState(cfg, s)
    ensures ValidState(cfg, Delete(cfg, s, key)) && ValidState(cfg, Purge(s))
    ensures k != key ==>
              && Resident(cfg, Delete(cfg, s, key), k) == Resident(cfg, s, k)
              && OnDisk(Delete(cfg, s, key), k) == OnDisk(s, k)
    ensures Resident(cfg, Purge(s), k) == None && Purge(s).disk == s.disk && Purge(s).lfu == s.lfu
  {
    hide ValidState, Delete, Resident, Get, Put;
    CacheModel.StepValid(cfg, s, OpPurge);
    DeleteValid(cfg, s, key);
    ResidentAfterDelete(cfg, s, key, k);
    if k != key { DiskAfterDelete(cfg, s, key, k); }
    PurgedResident(cfg, s, k);
  }

  lemma {:induction false} DiskAfterDelete(cfg: Config, s: State, key: string, k: string)
    requires cfg.Valid() && ValidState(cfg, s) && k != key
    ensures OnDisk(Delete(cfg, s, key), k) == OnDisk(s, k)
  {
    hide Remove;
  }

  lemma {:induction false} PurgedResident(cfg: Config, s: State, k: string)
    requires cfg.Valid() && ValidState(cfg, s) && ValidState(cfg, Purge(s))
    ensures Resident(cfg, Purge(s), k) == None
  {
  }

  /** The body or the key exceeds its limit; a limit that is not positive is none. */
  predicate TooLong(cfg: Config, key: string, e: Entry) {
    || (cfg.maxEntryBytes > 0 && |e.body| > cfg.maxEntryBytes)
    || (cfg.maxKeyLen > 0 && |key| > cfg.maxKeyLen)
  }

  /** The size limits: a put whose body or key is too long changes nothing; any other is visible at once if its key is
      in memory already or its shard has room. */
  lemma {:induction false} PutWithinLimits(cfg: Config, s: State, key: string, e: Entry, now: int)
    requires cfg.Valid() && ValidState(cfg, s)
    ensures ValidState(cfg, Put(cfg, s, key, e, now))
    ensures TooLong(cfg, key, e) ==> Put(cfg, s, key, e, now) == s
    ensures var sh := s.shards[cfg.ShardOf(key)];
            !TooLong(cfg, key, e) && WithinAge(e, now) &&
            (Resident(cfg, s, key).Some? || |sh.eviction| < sh.cap) ==>
              Get(cfg, Put(cfg, s, key, e, now), key, now).1 == Some(e)
  {
    hide Get, Put, ValidState, WithinAge;
    CacheModel.StepValid(cfg, s, OpPut(key, e, now));
    if !Acceptable(cfg, key, e) { RefusedPut(cfg, s, key, e, now); }
    ResidentIsItem(cfg, s, key);
    if Acceptable(cfg, key, e) && WithinAge(e, now) { PutThenGet(cfg, s, key, e, now); }
  }

  lemma {:induction false} RefusedPut(cfg: Config, s: State, key: string, e: Entry, now: int)
    requires cfg.Valid() && ValidState(cfg, s) && !Acceptable(cfg, key, e)
    ensures Put(cfg, s, key, e, now) == s
  {
  }

  /** After a delete the key is gone from both tiers. */
  lemma {:induction false} DeleteThenGet(cfg: Config, s: State, key: string, now: int)
    requires cfg.Valid() && ValidState(cfg, s)
    ensures ValidState(cfg, Delete(cfg, s, key)) && Get(cfg, Delete(cfg, s, key), key, now).1 == None
  {
    DeleteValid(cfg, s, key);
  }
}
