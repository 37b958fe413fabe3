/** The eviction lists of every run are in order of last use, so the key a put displaces is the
    least recently used of its shard. */
module CacheRecency {
  import opened LruShard
  import opened CacheModel
  import opened CacheRuns
  import Lfu = TinyLfu

  /** The keys behind a list of handles. */
  ghost function KeysOf(elems: map<nat, Item>, list: seq<nat>): (r: seq<string>)
    requires forall x :: x in list ==> x in elems
    ensures |r| == |list|
  {
    seq(|list|, i requires 0 <= i < |list| => assert list[i] in list; elems[list[i]].key)
  }

  /** The keys of a shard, front of the eviction list first. */
  ghost function Order(sh: Shard): (r: seq<string>)
    requires sh.Valid()
    ensures |r| == |sh.eviction|
  {
    KeysOf(sh.elems, sh.eviction)
  }

  ghost function Drop(keys: seq<string>, key: string): (r: seq<string>)
    ensures key !in r && forall k :: k in r ==> k in keys
  {
    if keys == [] then []
    else if keys[0] == key then Drop(keys[1..], key) else [keys[0]] + Drop(keys[1..], key)
  }

  lemma {:induction false} OrderHolds(sh: Shard, key: string)
    requires sh.Valid()
    ensures key in Order(sh) <==> key in sh.items
  {
    if key in sh.items {
      var h := sh.items[key];
      var i :| 0 <= i < |sh.eviction| && sh.eviction[i] == h;
      assert Order(sh)[i] == key;
    }
    if key in Order(sh) {
      var i :| 0 <= i < |sh.eviction| && Order(sh)[i] == key;
      assert sh.eviction[i] in sh.elems;
    }
  }

  lemma {:induction false} KeysCons(elems: map<nat, Item>, h: nat, list: seq<nat>)
    requires h in elems && forall x :: x in list ==> x in elems
    ensures forall x :: x in [h] + list ==> x in elems
    ensures KeysOf(elems, [h] + list) == [elems[h].key] + KeysOf(elems, list)
  {
  }

  /** Dropping a handle from the list drops its key from the order. */
  lemma {:induction false} OrderWithout(elems: map<nat, Item>, list: seq<nat>, h: nat)
    requires h in elems && forall x :: x in list ==> x in elems
    requires forall x :: x in list && elems[x].key == elems[h].key ==> x == h
    ensures forall x :: x in Without(list, h) ==> x in elems
    ensures KeysOf(elems, Without(list, h)) == Drop(KeysOf(elems, list), elems[h].key)
  {
    hide KeysOf;
    if list == [] {
      KeysNone(elems);
    } else {
      var rest := Without(list[1..], h);
      OrderWithout(elems, list[1..], h);
      assert list == [list[0]] + list[1..];
      KeysCons(elems, list[0], list[1..]);
      if list[0] != h { KeysCons(elems, list[0], rest); }
      assert ([elems[list[0]].key] + KeysOf(elems, list[1..]))[1..] == KeysOf(elems, list[1..]);
    }
  }

  lemma {:induction false} KeysNone(elems: map<nat, Item>)
    ensures KeysOf(elems, []) == []
  {
  }

  lemma {:induction false} KeysSame(elems: map<nat, Item>, other: map<nat, Item>, list: seq<nat>)
    requires forall x :: x in list ==> x in elems && x in other && elems[x].key == other[x].key
    ensures KeysOf(elems, list) == KeysOf(other, list)
  {
    forall i | 0 <= i < |list| ensures KeysOf(elems, list)[i] == KeysOf(other, list)[i] {
      assert list[i] in list;
    }
  }

  lemma {:induction false} OrderRemove(sh: Shard, h: nat)
    requires sh.Valid() && h in sh.elems
    ensures Order(Remove(sh, h)) == Drop(Order(sh), sh.elems[h].key)
  {
    OrderWithout(sh.elems, sh.eviction, h);
    KeysSame(sh.elems, Remove(sh, h).elems, Without(sh.eviction, h));
  }

  lemma {:induction false} OrderMoveToFront(sh: Shard, h: nat)
    requires sh.Valid() && h in sh.elems
    ensures Order(MoveToFront(sh, h)) == [sh.elems[h].key] + Drop(Order(sh), sh.elems[h].key)
  {
    OrderWithout(sh.elems, sh.eviction, h);
    KeysCons(sh.elems, h, Without(sh.eviction, h));
    hide KeysOf, Drop;
  }

  lemma {:induction false} OrderAssign(sh: Shard, h: nat, e: Entry)
    requires sh.Valid() && h in sh.elems
    ensures Order(Assign(sh, h, e)) == Order(sh)
  {
  }

  lemma {:induction false} OrderPushFront(sh: Shard, key: string, e: Entry)
    requires sh.Valid() && key !in sh.items && |sh.eviction| < sh.cap
    ensures Order(PushFront(sh, key, e)) == [key] + Order(sh)
  {
    var more := sh.elems[sh.nextHandle := Item(key, e)];
    KeysSame(sh.elems, more, sh.eviction);
    KeysCons(more, sh.nextHandle, sh.eviction);
    hide KeysOf;
  }

  // ---------- Last use ----------

  /** One more than the position of the last Get or acceptable Put of the key; 0 if there is none. */
  ghost function LastUse(cfg: Config, ops: seq<Op>, key: string): (n: nat)
    ensures n <= |ops|
  {
    if ops == [] then 0
    else if Uses(cfg, ops[|ops| - 1], key) then |ops|
    else LastUse(cfg, ops[..|ops| - 1], key)
  }

  /** No key but this one is used. */
  ghost predicate ConcernsOnly(op: Op, key: string) {
    op.OpPurge? || op.key == key
  }

  ghost predicate Uses(cfg: Config, op: Op, key: string) {
    (op.OpGet? && op.key == key) || (op.OpPut? && op.key == key && Acceptable(cfg, key, op.entry))
  }

  /** Strictly more recent first. */
  ghost predicate Recent(cfg: Config, ops: seq<Op>, keys: seq<string>) {
    forall i, j :: 0 <= i < j < |keys| ==> LastUse(cfg, ops, keys[i]) > LastUse(cfg, ops, keys[j])
  }

  lemma {:induction false} RecentTail(cfg: Config, ops: seq<Op>, keys: seq<string>)
    requires keys != [] && Recent(cfg, ops, keys)
    ensures Recent(cfg, ops, keys[1..])
    ensures forall k :: k in keys[1..] ==> LastUse(cfg, ops, keys[0]) > LastUse(cfg, ops, k)
  {
  }

  lemma {:induction false} RecentCons(cfg: Config, ops: seq<Op>, key: string, keys: seq<string>)
    requires Recent(cfg, ops, keys) && forall k :: k in keys ==> LastUse(cfg, ops, key) > LastUse(cfg, ops, k)
    ensures Recent(cfg, ops, [key] + keys)
  {
    var all := [key] + keys;
    forall i, j | 0 <= i < j < |all| ensures LastUse(cfg, ops, all[i]) > LastUse(cfg, ops, all[j]) {
      assert all[j] == keys[j - 1];
      if i > 0 { assert all[i] == keys[i - 1]; }
    }
  }

  lemma {:induction false} RecentDrop(cfg: Config, ops: seq<Op>, keys: seq<string>, key: string)
    requires Recent(cfg, ops, keys)
    ensures Recent(cfg, ops, Drop(keys, key))
  {
    if keys != [] {
      RecentTail(cfg, ops, keys);
      RecentDrop(cfg, ops, keys[1..], key);
      if keys[0] != key {
        RecentCons(cfg, ops, keys[0], Drop(keys[1..], key));
      }
    }
  }

  /** A list that lacks the keys the last operation used is as recent after it as before. */
  lemma {:induction false} RecentLater(cfg: Config, ops: seq<Op>, keys: seq<string>)
    requires ops != [] && Recent(cfg, ops[..|ops| - 1], keys)
    requires forall k :: k in keys ==> !Uses(cfg, ops[|ops| - 1], k)
    ensures Recent(cfg, ops, keys)
  {
    forall i, j | 0 <= i < j < |keys| ensures LastUse(cfg, ops, keys[i]) > LastUse(cfg, ops, keys[j]) {
      assert keys[i] in keys && keys[j] in keys;
    }
  }

  /** The key just used goes in front of the others. */
  lemma {:induction false} RecentUsed(cfg: Config, ops: seq<Op>, keys: seq<string>, key: string)
    requires ops != [] && Recent(cfg, ops[..|ops| - 1], keys) && key !in keys
    requires Uses(cfg, ops[|ops| - 1], key)
    ensures Recent(cfg, ops, [key] + keys)
  {
    RecentLater(cfg, ops, keys);
    forall k | k in keys ensures LastUse(cfg, ops, key) > LastUse(cfg, ops, k) {}
    RecentCons(cfg, ops, key, keys);
  }

  // ---------- One shard, one step ----------

  /** A put into a shard, by a Put or by a Get that promotes from disk. */
  lemma {:induction false} PutInShardRecent(cfg: Config, sh: Shard, lfu: Lfu.State, disk: Disk, key: string,
                                            e: Entry, now: int, ops: seq<Op>)
    requires cfg.Valid() && sh.Valid() && Lfu.ValidState(cfg.lfu, lfu)
    requires ops != [] && Uses(cfg, ops[|ops| - 1], key) && Recent(cfg, ops[..|ops| - 1], Order(sh))
    ensures var sh' := PutInShard(cfg, sh, lfu, disk, key, e, now).0;
            sh'.Valid() && Recent(cfg, ops, Order(sh'))
  {
    hide Recent;
    if key in sh.items {
      HitRecent(cfg, sh, key, ops);
      OrderAssign(MoveToFront(sh, sh.items[key]), sh.items[key], e);
    } else {
      AdmissionAtMostOnce(cfg, sh, lfu, disk, key, now);
      var room := Admission(cfg, sh, lfu, disk, key, now);
      if !room.admitted {
        OtherRecent(cfg, sh, key, ops);
      } else if |sh.eviction| < sh.cap {
        PushRecent(cfg, sh, key, e, ops);
      } else {
        OrderRemove(sh, Victim(sh));
        RecentDrop(cfg, ops[..|ops| - 1], Order(sh), sh.elems[Victim(sh)].key);
        EvictMemory(cfg, sh, disk, key, now);
        PushRecent(cfg, room.shard, key, e, ops);
      }
    }
  }

  lemma {:induction false} HitRecent(cfg: Config, sh: Shard, key: string, ops: seq<Op>)
    requires sh.Valid() && key in sh.items
    requires ops != [] && Uses(cfg, ops[|ops| - 1], key) && Recent(cfg, ops[..|ops| - 1], Order(sh))
    ensures Recent(cfg, ops, Order(MoveToFront(sh, sh.items[key])))
  {
    hide Recent;
    OrderMoveToFront(sh, sh.items[key]);
    RecentDrop(cfg, ops[..|ops| - 1], Order(sh), key);
    RecentUsed(cfg, ops, Drop(Order(sh), key), key);
  }

  lemma {:induction false} PushRecent(cfg: Config, sh: Shard, key: string, e: Entry, ops: seq<Op>)
    requires sh.Valid() && key !in sh.items && |sh.eviction| < sh.cap
    requires ops != [] && Uses(cfg, ops[|ops| - 1], key) && Recent(cfg, ops[..|ops| - 1], Order(sh))
    ensures Recent(cfg, ops, Order(PushFront(sh, key, e)))
  {
    hide Recent;
    OrderPushFront(sh, key, e);
    OrderHolds(sh, key);
    RecentUsed(cfg, ops, Order(sh), key);
  }

  /** A shard that does not hold the key an operation uses is untouched in order. */
  lemma {:induction false} OtherRecent(cfg: Config, sh: Shard, key: string, ops: seq<Op>)
    requires ops != [] && ConcernsOnly(ops[|ops| - 1], key)
    requires sh.Valid() && key !in sh.items && Recent(cfg, ops[..|ops| - 1], Order(sh))
    ensures Recent(cfg, ops, Order(sh))
  {
    OrderHolds(sh, key);
    RecentLater(cfg, ops, Order(sh));
  }

  lemma {:induction false} RemoveRecent(cfg: Config, sh: Shard, key: string, ops: seq<Op>)
    requires ops != [] && ConcernsOnly(ops[|ops| - 1], key)
    requires sh.Valid() && key in sh.items && Recent(cfg, ops[..|ops| - 1], Order(sh))
    ensures Recent(cfg, ops, Order(Remove(sh, sh.items[key])))
  {
    OrderRemove(sh, sh.items[key]);
    RecentDrop(cfg, ops[..|ops| - 1], Order(sh), key);
    RecentLater(cfg, ops, Drop(Order(sh), key));
  }

  // ---------- Whole runs ----------

  ghost predicate Cold(s: State) {
    forall i :: 0 <= i < |s.shards| ==> s.shards[i].eviction == []
  }

  lemma {:induction false} StepRecent(cfg: Config, s: State, ops: seq<Op>, i: nat)
    requires cfg.Valid() && ValidState(cfg, s) && i < cfg.numShards && ops != []
    requires Recent(cfg, ops[..|ops| - 1], Order(s.shards[i]))
    requires ValidState(cfg, Step(cfg, s, ops[|ops| - 1]))
    ensures Recent(cfg, ops, Order(Step(cfg, s, ops[|ops| - 1]).shards[i]))
  {
    hide Recent, Order;
    var op, sh := ops[|ops| - 1], s.shards[i];
    match op
    case OpGet(key, now) => GetRecent(cfg, s, ops, i);
    case OpPut(key, e, now) =>
      if i != cfg.ShardOf(key) {
        OtherRecent(cfg, sh, key, ops);
      } else if Acceptable(cfg, key, e) {
        PutInShardRecent(cfg, sh, s.lfu, s.disk, key, e, now, ops);
      } else {
        RecentLater(cfg, ops, Order(sh));
      }
    case OpDelete(key) =>
      if i == cfg.ShardOf(key) && key in sh.items { RemoveRecent(cfg, sh, key, ops); }
      else { RecentLater(cfg, ops, Order(sh)); }
    case OpPurge => PurgedRecent(cfg, sh, ops);
  }

  lemma {:induction false} PurgedRecent(cfg: Config, sh: Shard, ops: seq<Op>)
    requires sh.Valid()
    ensures Cleared(sh).Valid() && Recent(cfg, ops, Order(Cleared(sh)))
  {
  }

  lemma {:induction false} GetRecent(cfg: Config, s: State, ops: seq<Op>, i: nat)
    requires cfg.Valid() && ValidState(cfg, s) && i < cfg.numShards && ops != [] && ops[|ops| - 1].OpGet?
    requires Recent(cfg, ops[..|ops| - 1], Order(s.shards[i]))
    requires ValidState(cfg, Step(cfg, s, ops[|ops| - 1]))
    ensures Recent(cfg, ops, Order(Step(cfg, s, ops[|ops| - 1]).shards[i]))
  {
    hide Recent, Order;
    var key, now, sh := ops[|ops| - 1].key, ops[|ops| - 1].now, s.shards[i];
    if i != cfg.ShardOf(key) {
      OtherRecent(cfg, sh, key, ops);
    } else if key in sh.items {
      if Servable(sh.elems[sh.items[key]].entry, now) { HitRecent(cfg, sh, key, ops); }
      else { RemoveRecent(cfg, sh, key, ops); }
    } else if cfg.diskOn && key in s.disk.files && Servable(s.disk.files[key].entry, now) {
      PutInShardRecent(cfg, sh, Lfu.Access(cfg.lfu, s.lfu, key), s.disk, key, s.disk.files[key].entry, now, ops);
    } else {
      OtherRecent(cfg, sh, key, ops);
    }
  }

  /** In every run from a cold memory, every eviction list is in order of last use. */
  lemma {:induction false} ListsAreByRecency(cfg: Config, s: State, ops: seq<Op>, i: nat)
    requires cfg.Valid() && ValidState(cfg, s) && Cold(s) && i < cfg.numShards
    ensures Recent(cfg, ops, Order(Run(cfg, s, ops).shards[i]))
  {
    if ops != [] {
      var n := |ops| - 1;
      ListsAreByRecency(cfg, s, ops[..n], i);
      hide Recent, Order;
      RunLast(cfg, s, ops);
      StepRecent(cfg, Run(cfg, s, ops[..n]), ops, i);
    }
  }

  lemma {:induction false} LastIsLeastRecent(cfg: Config, ops: seq<Op>, sh: Shard, other: string)
    requires sh.Valid() && other in sh.items && Recent(cfg, ops, Order(sh)) && sh.eviction != []
    ensures other == sh.elems[Victim(sh)].key || LastUse(cfg, ops, sh.elems[Victim(sh)].key) < LastUse(cfg, ops, other)
  {
    OrderHolds(sh, other);
    var j :| 0 <= j < |sh.eviction| && Order(sh)[j] == other;
    assert Order(sh)[|sh.eviction| - 1] == sh.elems[Victim(sh)].key;
  }

  /** In every run, the key a put would displace was used before every other key of its shard. */
  lemma {:induction false} VictimIsLeastRecent(cfg: Config, s: State, ops: seq<Op>, key: string, other: string)
    requires cfg.Valid() && ValidState(cfg, s) && Cold(s)
    requires var sh := Run(cfg, s, ops).shards[cfg.ShardOf(key)];
             && other in sh.items && Displaced(sh, key) != {} && other !in Displaced(sh, key)
    ensures var sh := Run(cfg, s, ops).shards[cfg.ShardOf(key)];
            forall v :: v in Displaced(sh, key) ==> LastUse(cfg, ops, v) < LastUse(cfg, ops, other)
  {
    var i := cfg.ShardOf(key);
    ListsAreByRecency(cfg, s, ops, i);
    var sh := Run(cfg, s, ops).shards[i];
    hide Run, Recent, Order, LastUse;
    LastIsLeastRecent(cfg, ops, sh, other);
  }
}
