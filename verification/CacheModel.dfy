/** The sharded LRU cache with TinyLFU admission and an optional disk tier, as a
    value with one function per operation, and what every run of it keeps. */
module CacheModel {
  import opened Bits
  import opened Common
  import opened LruShard
  import opened Sharding
  import Lfu = TinyLfu

  const FILE_OVERHEAD: nat := 512

  /** A file of the disk tier: the decoded entry, its size on disk and its modification time. */
  datatype File = File(entry: Entry, size: nat, modTime: int)

  datatype Disk = Disk(files: map<string, File>, used: int)

  /** Options, hashes and the behaviour of the file system: the order in which a
      directory listing reports readable files, the encoded size of an entry, and
      whether a write succeeds. */
  datatype Config = Config(
    lfu: Lfu.Config,
    numShards: nat,
    maxEntryBytes: int,
    maxKeyLen: int,
    diskOn: bool,
    diskMaxBytes: int,
    listing: map<string, File> -> seq<string>,
    fileSize: (string, Entry) -> nat,
    writeOk: (string, Entry, int) -> bool)
  {
    ghost predicate Valid() {
      && lfu.Valid()
      && numShards >= 1 && IsPow2(numShards)
      && forall files: map<string, File>, i :: 0 <= i < |listing(files)| ==> listing(files)[i] in files
    }

    function ShardOf(key: string): (r: nat)
      requires numShards >= 1
      ensures r < numShards
    {
      ShardIndex(lfu.hash(key), numShards)
    }
  }

  datatype State = State(shards: seq<Shard>, lfu: Lfu.State, disk: Disk)

  // ---------- Invariant ----------

  ghost predicate ShardsValid(cfg: Config, shards: seq<Shard>)
    requires cfg.numShards >= 1
  {
    && |shards| == cfg.numShards
    && (forall i :: 0 <= i < |shards| ==> shards[i].Valid())
    && forall i, k :: 0 <= i < |shards| && k in shards[i].items ==> cfg.ShardOf(k) == i
  }

  /** The disk counter may have moved from one value to another: never below zero, and never above
      both the limit and where it was. */
  ghost predicate CounterMoves(cfg: Config, before: int, after: int) {
    0 <= before ==> 0 <= after && (cfg.diskMaxBytes > 0 ==> after <= before || after <= cfg.diskMaxBytes)
  }

  ghost predicate ValidState(cfg: Config, s: State)
    requires cfg.Valid()
  {
    && ShardsValid(cfg, s.shards)
    && Lfu.ValidState(cfg.lfu, s.lfu)
    && 0 <= s.disk.used
    && (!cfg.diskOn ==> s.disk.files == map[])
  }

  /** The shard a key belongs to. */
  ghost function Home(cfg: Config, s: State, key: string): (sh: Shard)
    requires cfg.Valid() && ValidState(cfg, s)
    ensures sh.Valid()
  {
    s.shards[cfg.ShardOf(key)]
  }

  /** The entry held in memory under a key; the invariant keeps keys out of every other shard. */
  ghost function Resident(cfg: Config, s: State, key: string): (r: Option<Entry>)
    requires cfg.Valid() && ValidState(cfg, s)
  {
    var m := s.shards[cfg.ShardOf(key)].Contents();
    if key in m then Some(m[key]) else None
  }

  // ---------- Disk tier ----------

  /** Index of the first listed file with the least modification time among the first n. */
  function OldestIndex(names: seq<string>, files: map<string, File>, n: nat): (r: nat)
    requires 1 <= n <= |names|
    requires forall i :: 0 <= i < |names| ==> names[i] in files
    ensures r < n
    ensures forall i :: 0 <= i < n ==> files[names[r]].modTime <= files[names[i]].modTime
    ensures forall i :: 0 <= i < r ==> files[names[r]].modTime < files[names[i]].modTime
  {
    if n == 1 then 0
    else
      var r := OldestIndex(names, files, n - 1);
      if files[names[n - 1]].modTime < files[names[r]].modTime then n - 1 else r
  }

  function Oldest(cfg: Config, files: map<string, File>): (r: Option<string>)
    requires cfg.Valid()
    ensures r.Some? ==> r.value in files
  {
    var names := cfg.listing(files);
    if names == [] then None else Some(names[OldestIndex(names, files, |names|)])
  }

  /** The sizes of the listed files together. */
  function TotalSize(names: seq<string>, files: map<string, File>): (r: nat)
    requires forall i :: 0 <= i < |names| ==> names[i] in files
  {
    if names == [] then 0 else TotalSize(names[..|names| - 1], files) + files[names[|names| - 1]].size
  }

  function NonNegative(x: int): (r: nat) {
    if x < 0 then 0 else x
  }

  function Unlink(disk: Disk, key: string): (r: Disk) {
    if key in disk.files then Disk(disk.files - {key}, NonNegative(disk.used - disk.files[key].size)) else disk
  }

  /** `for used + size > max { if !evictOldest { return } }`: the disk left and whether there is room. */
  function MakeRoom(cfg: Config, disk: Disk, size: nat): (r: (Disk, bool))
    requires cfg.Valid()
    ensures r.0.files.Keys <= disk.files.Keys
    ensures forall k :: k in r.0.files ==> r.0.files[k] == disk.files[k]
    ensures CounterMoves(cfg, disk.used, r.0.used)
    ensures r.1 ==> r.0.used + size <= cfg.diskMaxBytes
    decreases |disk.files|
  {
    if disk.used + size <= cfg.diskMaxBytes then (disk, true)
    else
      var o := Oldest(cfg, disk.files);
      if o.None? then (disk, false)
      else
        UnlinkShrinks(disk, o.value);
        MakeRoom(cfg, Unlink(disk, o.value), size)
  }

  lemma {:induction false} UnlinkShrinks(disk: Disk, key: string)
    requires key in disk.files
    ensures |Unlink(disk, key).files| == |disk.files| - 1
  {
    var rest := disk.files - {key};
    assert rest.Keys == disk.files.Keys - {key};
    assert |rest.Keys| == |rest| && |disk.files.Keys| == |disk.files|;
  }

  function Spill(cfg: Config, disk: Disk, key: string, e: Entry, now: int): (r: Disk)
    requires cfg.Valid()
    ensures CounterMoves(cfg, disk.used, r.used)
    ensures forall k :: k in r.files ==>
              (k in disk.files && r.files[k].entry == disk.files[k].entry) || (k == key && r.files[k].entry == e)
  {
    var size := |e.body| + FILE_OVERHEAD;
    var (room, ok) := if cfg.diskMaxBytes > 0 then MakeRoom(cfg, disk, size) else (disk, true);
    if ok && cfg.writeOk(key, e, now)
    then Disk(room.files[key := File(e, cfg.fileSize(key, e), now)], room.used + size)
    else room
  }

  // ---------- Memory tier ----------

  /** The shard and disk after one eviction of the list's back. */
  function Evict(cfg: Config, sh: Shard, disk: Disk, now: int): (r: (Shard, Disk))
    requires cfg.Valid() && sh.Valid() && sh.eviction != []
  {
    var item := sh.elems[Victim(sh)];
    (Remove(sh, Victim(sh)), if cfg.diskOn then Spill(cfg, disk, item.key, item.entry, now) else disk)
  }

  datatype Room = Room(shard: Shard, disk: Disk, admitted: bool)

  /** The admission loop: evict from the back while the shard is full, unless the victim is more popular. */
  function Admission(cfg: Config, sh: Shard, lfu: Lfu.State, disk: Disk, key: string, now: int): (r: Room)
    requires cfg.Valid() && sh.Valid() && Lfu.ValidState(cfg.lfu, lfu)
    ensures r.shard.Valid()
    decreases |sh.eviction|
  {
    if |sh.eviction| < sh.cap || sh.eviction == [] then Room(sh, disk, true)
    else if !Lfu.Admit(cfg.lfu, lfu, key, sh.elems[Victim(sh)].key) then Room(sh, disk, false)
    else
      var (sh', disk') := Evict(cfg, sh, disk, now);
      Admission(cfg, sh', lfu, disk', key, now)
  }

  /** Whether a put of the key will take effect: it is resident, there is room, or it beats the victim. */
  predicate TakesEffect(cfg: Config, sh: Shard, lfu: Lfu.State, key: string)
    requires cfg.Valid() && sh.Valid() && Lfu.ValidState(cfg.lfu, lfu)
  {
    || key in sh.items
    || |sh.eviction| < sh.cap
    || Lfu.Admit(cfg.lfu, lfu, key, sh.elems[Victim(sh)].key)
  }

  /** The keys a put that takes effect pushes out: none, or the back of the list. */
  function Displaced(sh: Shard, key: string): (r: set<string>)
    requires sh.Valid()
    ensures |r| <= 1
  {
    if key in sh.items || |sh.eviction| < sh.cap then {} else {sh.elems[Victim(sh)].key}
  }

  /** The loop runs at most once: an admission evicts nothing, or exactly the back of the list. */
  lemma {:induction false} AdmissionAtMostOnce(cfg: Config, sh: Shard, lfu: Lfu.State, disk: Disk, key: string,
                                               now: int)
    requires cfg.Valid() && sh.Valid() && Lfu.ValidState(cfg.lfu, lfu)
    ensures var r := Admission(cfg, sh, lfu, disk, key, now);
      && (r.admitted ==> |r.shard.eviction| < r.shard.cap && r.shard.cap == sh.cap)
      && (key !in sh.items ==> (r.admitted <==> TakesEffect(cfg, sh, lfu, key)))
      && (|sh.eviction| < sh.cap || !r.admitted ==> r.shard == sh && r.disk == disk)
      && (|sh.eviction| >= sh.cap && r.admitted ==> (r.shard, r.disk) == Evict(cfg, sh, disk, now))
  {
    if |sh.eviction| == sh.cap && Lfu.Admit(cfg.lfu, lfu, key, sh.elems[Victim(sh)].key) {
      var (sh', disk') := Evict(cfg, sh, disk, now);
      assert Admission(cfg, sh', lfu, disk', key, now) == Room(sh', disk', true);
    }
  }

  function PutInShard(cfg: Config, sh: Shard, lfu: Lfu.State, disk: Disk, key: string, e: Entry,
                      now: int): (r: (Shard, Disk))
    requires cfg.Valid() && sh.Valid() && Lfu.ValidState(cfg.lfu, lfu)
  {
    if key in sh.items then (Assign(MoveToFront(sh, sh.items[key]), sh.items[key], e), disk)
    else
      var room := Admission(cfg, sh, lfu, disk, key, now);
      AdmissionAtMostOnce(cfg, sh, lfu, disk, key, now);
      if room.admitted && key !in room.shard.items then (PushFront(room.shard, key, e), room.disk)
      else (room.shard, room.disk)
  }

  /** The four ways a put into a shard can go. */
  lemma {:induction false} PutInShardCases(cfg: Config, sh: Shard, lfu: Lfu.State, disk: Disk, key: string, e: Entry,
                                           now: int)
    requires cfg.Valid() && sh.Valid() && Lfu.ValidState(cfg.lfu, lfu)
    ensures var r := PutInShard(cfg, sh, lfu, disk, key, e, now);
      if key in sh.items then
        sh.items[key] in sh.elems && r == (Assign(MoveToFront(sh, sh.items[key]), sh.items[key], e), disk)
      else if !TakesEffect(cfg, sh, lfu, key) then r == (sh, disk)
      else if |sh.eviction| < sh.cap then r == (PushFront(sh, key, e), disk)
      else
        && var (left, disk') := Evict(cfg, sh, disk, now);
           left.Valid() && key !in left.items && |left.eviction| < left.cap && r == (PushFront(left, key, e), disk')
  {
    hide Assign, PushFront, MoveToFront, Admission, Spill, Lfu.Admit;
    AdmissionAtMostOnce(cfg, sh, lfu, disk, key, now);
  }

  /** An update in place. */
  lemma {:induction false} UpdateMemory(sh: Shard, key: string, e: Entry)
    requires sh.Valid() && key in sh.items
    ensures sh.items[key] in sh.elems
    ensures var r := Assign(MoveToFront(sh, sh.items[key]), sh.items[key], e);
            r.Valid() && r.cap == sh.cap && r.Contents() == (sh.Contents() - Displaced(sh, key))[key := e]
  {
    hide Without;
    var h := sh.items[key];
    assert MoveToFront(sh, h).elems[h].key == key;
    assert sh.Contents() - {} == sh.Contents();
  }

  /** An insertion where there is room. */
  lemma {:induction false} InsertMemory(sh: Shard, key: string, e: Entry)
    requires sh.Valid() && key !in sh.items && |sh.eviction| < sh.cap
    ensures var r := PushFront(sh, key, e);
            r.Valid() && r.cap == sh.cap &&
            r.Contents() == sh.Contents()[key := e] == (sh.Contents() - Displaced(sh, key))[key := e]
  {
    assert sh.Contents() - {} == sh.Contents();
  }

  /** A put into a shard keeps it valid, loses at most the victim, and stores the
      entry exactly when it takes effect. */
  lemma {:induction false} PutInShardMemory(cfg: Config, sh: Shard, lfu: Lfu.State, disk: Disk, key: string,
                                            e: Entry, now: int)
    requires cfg.Valid() && sh.Valid() && Lfu.ValidState(cfg.lfu, lfu)
    ensures var sh' := PutInShard(cfg, sh, lfu, disk, key, e, now).0;
      && sh'.Valid() && sh'.cap == sh.cap
      && sh'.Contents() ==
         if TakesEffect(cfg, sh, lfu, key) then (sh.Contents() - Displaced(sh, key))[key := e] else sh.Contents()
  {
    hide PutInShard, Evict, Admission, Lfu.Admit, Assign, MoveToFront, PushFront, Displaced, Shard.Contents;
    PutInShardCases(cfg, sh, lfu, disk, key, e, now);
    if key in sh.items {
      UpdateMemory(sh, key, e);
    } else if TakesEffect(cfg, sh, lfu, key) {
      if |sh.eviction| >= sh.cap {
        EvictMemory(cfg, sh, disk, key, now);
        InsertMemory(Evict(cfg, sh, disk, now).0, key, e);
      } else {
        InsertMemory(sh, key, e);
      }
    }
  }

  lemma {:induction false} EvictMemory(cfg: Config, sh: Shard, disk: Disk, key: string, now: int)
    requires cfg.Valid() && sh.Valid() && key !in sh.items && |sh.eviction| >= sh.cap
    ensures var sh' := Evict(cfg, sh, disk, now).0;
      sh'.Valid() && key !in sh'.items && sh'.Contents() == sh.Contents() - Displaced(sh, key) && sh'.cap == sh.cap
  {
    hide Spill;
  }

  /** What an eviction does to the disk. */
  lemma {:induction false} EvictDisk(cfg: Config, sh: Shard, disk: Disk, now: int)
    requires cfg.Valid() && sh.Valid() && sh.eviction != []
    ensures var disk' := Evict(cfg, sh, disk, now).1;
      && CounterMoves(cfg, disk.used, disk'.used) && (!cfg.diskOn ==> disk' == disk)
      && (forall k :: k in disk'.files ==>
            || (k in disk.files && disk'.files[k].entry == disk.files[k].entry)
            || (k in sh.Contents() && disk'.files[k].entry == sh.Contents()[k]))
  {
    hide Spill, Remove;
    var item := sh.elems[Victim(sh)];
    assert sh.Contents()[item.key] == item.entry;
  }

  /** What a put into a shard does to the disk: nothing, or a spill of the victim. */
  lemma {:induction false} PutInShardDisk(cfg: Config, sh: Shard, lfu: Lfu.State, disk: Disk, key: string, e: Entry,
                                          now: int)
    requires cfg.Valid() && sh.Valid() && Lfu.ValidState(cfg.lfu, lfu)
    ensures var disk' := PutInShard(cfg, sh, lfu, disk, key, e, now).1;
      && CounterMoves(cfg, disk.used, disk'.used)
      && (!cfg.diskOn || !TakesEffect(cfg, sh, lfu, key) ==> disk' == disk)
      && (forall k :: k in disk'.files ==>
            || (k in disk.files && disk'.files[k].entry == disk.files[k].entry)
            || (k in sh.Contents() && disk'.files[k].entry == sh.Contents()[k]))
  {
    hide PutInShard, Evict, Assign, PushFront, MoveToFront;
    PutInShardCases(cfg, sh, lfu, disk, key, e, now);
    if sh.eviction != [] { EvictDisk(cfg, sh, disk, now); }
  }

  // ---------- Operations ----------

  function Get(cfg: Config, s: State, key: string, now: int): (r: (State, Option<Entry>))
    requires cfg.Valid() && ValidState(cfg, s)
  {
    var lfu := Lfu.Access(cfg.lfu, s.lfu, key);
    var i := cfg.ShardOf(key);
    var sh := s.shards[i];
    if key in sh.items then
      var h := sh.items[key];
      var e := sh.elems[h].entry;
      if Servable(e, now) then (State(s.shards[i := MoveToFront(sh, h)], lfu, s.disk), Some(e))
      else (State(s.shards[i := Remove(sh, h)], lfu, if cfg.diskOn then Unlink(s.disk, key) else s.disk), None)
    else if cfg.diskOn && key in s.disk.files then
      var e := s.disk.files[key].entry;
      if !Servable(e, now) then (State(s.shards, lfu, Unlink(s.disk, key)), None)
      else
        var (sh', disk') := PutInShard(cfg, sh, lfu, s.disk, key, e, now);
        (State(s.shards[i := sh'], lfu, disk'), Some(e))
    else (State(s.shards, lfu, s.disk), None)
  }

  /** A lookup that hits memory. */
  lemma {:induction false} GetHitEffect(cfg: Config, s: State, key: string, now: int)
    requires cfg.Valid() && ValidState(cfg, s) && key in s.shards[cfg.ShardOf(key)].items
    ensures var i, t := cfg.ShardOf(key), Get(cfg, s, key, now).0;
            && var sh := s.shards[i];
               && var h := sh.items[key];
                  && h in sh.elems && sh.elems[h].key == key
                  && t.shards == s.shards[i := if Servable(sh.elems[h].entry, now) then MoveToFront(sh, h)
                                          else Remove(sh, h)]
                  && Get(cfg, s, key, now).1 ==
                     (if Servable(sh.elems[h].entry, now) then Some(sh.elems[h].entry) else None)
                  && t.disk == if !Servable(sh.elems[h].entry, now) && cfg.diskOn then Unlink(s.disk, key) else s.disk
  {
    hide MoveToFront, Remove, Unlink, Lfu.Access, PutInShard;
  }

  /** A lookup that is served from disk and promoted. */
  lemma {:induction false} GetPromoteEffect(cfg: Config, s: State, key: string, now: int)
    requires cfg.Valid() && ValidState(cfg, s) && key !in s.shards[cfg.ShardOf(key)].items
    requires cfg.diskOn && key in s.disk.files && Servable(s.disk.files[key].entry, now)
    ensures var i, t, e := cfg.ShardOf(key), Get(cfg, s, key, now).0, s.disk.files[key].entry;
            && var p := PutInShard(cfg, s.shards[i], Lfu.Access(cfg.lfu, s.lfu, key), s.disk, key, e, now);
               t.shards == s.shards[i := p.0] && t.disk == p.1 && Get(cfg, s, key, now).1 == Some(e)
  {
    hide MoveToFront, Remove, Unlink, Lfu.Access, PutInShard, Shard.Valid;
  }

  /** A lookup that finds nothing to serve outside memory. */
  lemma {:induction false} GetMissEffect(cfg: Config, s: State, key: string, now: int)
    requires cfg.Valid() && ValidState(cfg, s) && key !in s.shards[cfg.ShardOf(key)].items
    requires !cfg.diskOn || key !in s.disk.files || !Servable(s.disk.files[key].entry, now)
    ensures var t := Get(cfg, s, key, now).0;
            t.shards == s.shards && (t.disk == s.disk || t.disk == Unlink(s.disk, key)) &&
            Get(cfg, s, key, now).1 == None
  {
    hide MoveToFront, Remove, Unlink, Lfu.Access, PutInShard, Shard.Valid;
  }

  predicate Acceptable(cfg: Config, key: string, e: Entry) {
    && !(cfg.maxEntryBytes > 0 && |e.body| > cfg.maxEntryBytes)
    && !(cfg.maxKeyLen > 0 && |key| > cfg.maxKeyLen)
  }

  function Put(cfg: Config, s: State, key: string, e: Entry, now: int): (r: State)
    requires cfg.Valid() && ValidState(cfg, s)
  {
    if !Acceptable(cfg, key, e) then s
    else
      var i := cfg.ShardOf(key);
      var (sh', disk') := PutInShard(cfg, s.shards[i], s.lfu, s.disk, key, e, now);
      State(s.shards[i := sh'], s.lfu, disk')
  }

  function Delete(cfg: Config, s: State, key: string): (r: State)
    requires cfg.Valid() && ValidState(cfg, s)
  {
    var i := cfg.ShardOf(key);
    var sh := s.shards[i];
    State(if key in sh.items then s.shards[i := Remove(sh, sh.items[key])] else s.shards,
          s.lfu, if cfg.diskOn then Unlink(s.disk, key) else s.disk)
  }

  /** A shard with a new empty map and list; old handles are not reused. */
  function Cleared(sh: Shard): (r: Shard) {
    Empty(sh.cap).(nextHandle := sh.nextHandle)
  }

  /** Clears memory only. */
  function Purge(s: State): (r: State) {
    s.(shards := seq(|s.shards|, i requires 0 <= i < |s.shards| => Cleared(s.shards[i])))
  }

  function TotalCap(shards: seq<Shard>): (r: nat) {
    if shards == [] then 0 else TotalCap(shards[..|shards| - 1]) + shards[|shards| - 1].cap
  }

  /** The number of keys in memory. */
  function TotalItems(shards: seq<Shard>): (r: nat) {
    if shards == [] then 0 else TotalItems(shards[..|shards| - 1]) + |shards[|shards| - 1].items|
  }

  // ---------- One step ----------

  datatype Op =
    | OpGet(key: string, now: int)
    | OpPut(key: string, entry: Entry, now: int)
    | OpDelete(key: string)
    | OpPurge

  function Step(cfg: Config, s: State, op: Op): (r: State)
    requires cfg.Valid() && ValidState(cfg, s)
  {
    match op
    case OpGet(key, now) => Get(cfg, s, key, now).0
    case OpPut(key, e, now) => Put(cfg, s, key, e, now)
    case OpDelete(key) => Delete(cfg, s, key)
    case OpPurge => Purge(s)
  }

  /** Every operation preserves the invariant. */
  lemma {:induction false} StepValid(cfg: Config, s: State, op: Op)
    requires cfg.Valid() && ValidState(cfg, s)
    ensures ValidState(cfg, Step(cfg, s, op))
  {
    match op
    case OpGet(key, now) => GetValid(cfg, s, key, now);
    case OpPut(key, e, now) => PutValid(cfg, s, s.lfu, key, e, now);
    case OpDelete(key) => DeleteValid(cfg, s, key);
    case OpPurge =>
  }

  lemma {:induction false} DeleteValid(cfg: Config, s: State, key: string)
    requires cfg.Valid() && ValidState(cfg, s)
    ensures ValidState(cfg, Delete(cfg, s, key))
  {
    if key in s.shards[cfg.ShardOf(key)].items { HitShardValid(cfg, s.shards, key); }
  }

  /** Replacing one shard by another that holds no foreign key preserves the shard invariant. */
  lemma {:induction false} ReplaceShard(cfg: Config, shards: seq<Shard>, i: nat, sh: Shard)
    requires cfg.Valid() && ShardsValid(cfg, shards) && i < |shards| && sh.Valid()
    requires forall k :: k in sh.Contents() ==> cfg.ShardOf(k) == i
    ensures ShardsValid(cfg, shards[i := sh])
  {
    assert forall k :: k in sh.items ==> k in sh.Contents();
  }

  lemma {:induction false} ContentsPlaced(cfg: Config, shards: seq<Shard>, i: nat)
    requires cfg.Valid() && ShardsValid(cfg, shards) && i < |shards|
    ensures forall k :: k in shards[i].Contents() ==> cfg.ShardOf(k) == i
  {
  }

  lemma {:induction false} PutValid(cfg: Config, s: State, lfu: Lfu.State, key: string, e: Entry, now: int)
    requires cfg.Valid() && ValidState(cfg, s) && Lfu.ValidState(cfg.lfu, lfu)
    ensures var i := cfg.ShardOf(key);
      var (sh', disk') := PutInShard(cfg, s.shards[i], lfu, s.disk, key, e, now);
      ValidState(cfg, State(s.shards[i := sh'], lfu, disk'))
  {
    var i := cfg.ShardOf(key);
    PutInShardMemory(cfg, s.shards[i], lfu, s.disk, key, e, now);
    PutInShardDisk(cfg, s.shards[i], lfu, s.disk, key, e, now);
    ContentsPlaced(cfg, s.shards, i);
    ReplaceShard(cfg, s.shards, i, PutInShard(cfg, s.shards[i], lfu, s.disk, key, e, now).0);
  }

  lemma {:induction false} UnlinkBounded(cfg: Config, disk: Disk, key: string)
    ensures CounterMoves(cfg, disk.used, Unlink(disk, key).used)
  {
  }

  /** A lookup that finds its key in memory, or nowhere. */
  lemma {:induction false} GetHitValid(cfg: Config, s: State, key: string, now: int)
    requires cfg.Valid() && ValidState(cfg, s)
    requires key in s.shards[cfg.ShardOf(key)].items || !cfg.diskOn || key !in s.disk.files
    ensures ValidState(cfg, Get(cfg, s, key, now).0)
  {
    var hit := key in s.shards[cfg.ShardOf(key)].items;
    hide Shard.Valid, PutInShard, Remove, MoveToFront, ShardsValid, Unlink, Lfu.Access, Lfu.ValidState;
    UnlinkBounded(cfg, s.disk, key);
    if hit { HitShardValid(cfg, s.shards, key); }
  }

  /** A lookup that finds its key on disk only. */
  lemma {:induction false} GetDiskValid(cfg: Config, s: State, key: string, now: int)
    requires cfg.Valid() && ValidState(cfg, s)
    requires key !in s.shards[cfg.ShardOf(key)].items && cfg.diskOn && key in s.disk.files
    ensures ValidState(cfg, Get(cfg, s, key, now).0)
  {
    hide Shard.Valid, PutInShard, Remove, MoveToFront, ShardsValid, Unlink, Lfu.Access, Lfu.ValidState;
    UnlinkBounded(cfg, s.disk, key);
    PutValid(cfg, s, Lfu.Access(cfg.lfu, s.lfu, key), key, s.disk.files[key].entry, now);
  }

  lemma {:induction false} GetValid(cfg: Config, s: State, key: string, now: int)
    requires cfg.Valid() && ValidState(cfg, s)
    ensures ValidState(cfg, Get(cfg, s, key, now).0)
  {
    var hit := key in s.shards[cfg.ShardOf(key)].items;
    hide ValidState, Get;
    if hit || !cfg.diskOn || key !in s.disk.files {
      GetHitValid(cfg, s, key, now);
    } else {
      GetDiskValid(cfg, s, key, now);
    }
  }

  lemma {:induction false} HitShardValid(cfg: Config, shards: seq<Shard>, key: string)
    requires cfg.Valid() && ShardsValid(cfg, shards) && key in shards[cfg.ShardOf(key)].items
    ensures var i := cfg.ShardOf(key);
      var h := shards[i].items[key];
      ShardsValid(cfg, shards[i := MoveToFront(shards[i], h)]) && ShardsValid(cfg, shards[i := Remove(shards[i], h)])
  {
    var i := cfg.ShardOf(key);
    var h := shards[i].items[key];
    ContentsPlaced(cfg, shards, i);
    ReplaceShard(cfg, shards, i, MoveToFront(shards[i], h));
    ReplaceShard(cfg, shards, i, Remove(shards[i], h));
  }
}
