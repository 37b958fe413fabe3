/** The cache object: shards, admission policy and disk tier updated in place,
    proved against the operations of `CacheModel`. */
module CacheStore {
  import opened Common
  import opened LruShard
  import opened Sharding
  import opened CacheModel
  import Lfu = TinyLfu
  import LfuPolicy = TinyLfuPolicy
  import CacheRuns

  class Cache {
    const cfg: Config
    const lfu: LfuPolicy.Policy
    var shards: seq<Shard>
    var disk: Disk

    ghost predicate Valid()
      reads this, lfu, lfu.sketch.rows, lfu.door.bits
    {
      && cfg.Valid() && lfu.Valid() && lfu.cfg == cfg.lfu
      && ValidState(cfg, State(shards, lfu.View(), disk))
    }

    ghost function View(): (s: State)
      requires Valid()
      reads this, lfu, lfu.sketch.rows, lfu.door.bits
      ensures ValidState(cfg, s)
    {
      State(shards, lfu.View(), disk)
    }

    /** Builds the shards; the disk tier starts from the files already there, whatever their total size. */
    constructor (cfg: Config, hash: Lfu.HashFn, maxItems: int, numShards: int, files: map<string, File>)
      requires cfg.Valid() && IsInt(maxItems) && IsInt(numShards)
      requires cfg.lfu == LfuPolicy.ConfigFor(hash, Capacity(maxItems))
      requires cfg.numShards == ShardCount(maxItems, numShards)
      requires !cfg.diskOn ==> files == map[]
      ensures Valid() && this.cfg == cfg && CacheRuns.IsNew(cfg, maxItems, View())
      ensures disk == Disk(files, if cfg.diskOn then TotalSize(cfg.listing(files), files) else 0)
    {
      this.cfg := cfg;
      var used := 0;
      if cfg.diskOn { used := DiskUsage(cfg.listing(files), files); }
      disk := Disk(files, used);
      var l := new LfuPolicy.Policy(hash, Capacity(maxItems));
      lfu := l;
      var n := CountShards(maxItems, numShards);
      var caps := Distribute(maxItems, n);
      shards := seq(|caps|, i requires 0 <= i < |caps| => Empty(caps[i]));
      new;
      ghost var s := State(shards, lfu.View(), disk);
      CacheRuns.NewIsValid(cfg, maxItems, numShards, s);
    }

    static method DiskUsage(names: seq<string>, files: map<string, File>) returns (total: nat)
      requires forall i :: 0 <= i < |names| ==> names[i] in files
      ensures total == TotalSize(names, files)
    {
      total := 0;
      for i := 0 to |names|
        invariant total == TotalSize(names[..i], files)
      {
        assert names[..i + 1][..i] == names[..i];
        total := total + files[names[i]].size;
      }
      assert names[..|names|] == names;
    }

    method OldestFile(names: seq<string>) returns (oldest: Option<string>)
      requires cfg.Valid() && names == cfg.listing(disk.files)
      ensures oldest == Oldest(cfg, disk.files)
    {
      if names == [] { return None; }
      var best := 0;
      for i := 1 to |names|
        invariant best == OldestIndex(names, disk.files, i)
      {
        if disk.files[names[i]].modTime < disk.files[names[best]].modTime { best := i; }
      }
      return Some(names[best]);
    }

    method EvictOldestDiskEntry() returns (removed: bool)
      requires cfg.Valid()
      modifies this`disk
      ensures removed == Oldest(cfg, old(disk).files).Some?
      ensures disk == if removed then Unlink(old(disk), Oldest(cfg, old(disk).files).value) else old(disk)
    {
      var oldest := OldestFile(cfg.listing(disk.files));
      removed := oldest.Some?;
      if removed { RemoveFromDisk(oldest.value); }
    }

    method RemoveFromDisk(key: string)
      modifies this`disk
      ensures disk == Unlink(old(disk), key)
    {
      if key in disk.files {
        var used := disk.used - disk.files[key].size;
        if used < 0 { used := 0; }
        disk := Disk(disk.files - {key}, used);
      }
    }

    method SpillToDisk(key: string, e: Entry, now: int)
      requires cfg.Valid()
      modifies this`disk
      ensures disk == Spill(cfg, old(disk), key, e, now)
    {
      var size := |e.body| + FILE_OVERHEAD;
      if cfg.diskMaxBytes > 0 {
        while disk.used + size > cfg.diskMaxBytes
          invariant MakeRoom(cfg, disk, size) == MakeRoom(cfg, old(disk), size)
          decreases |disk.files|
        {
          ghost var before := disk;
          var removed := EvictOldestDiskEntry();
          if !removed { return; }
          UnlinkShrinks(before, Oldest(cfg, before.files).value);
        }
      }
      if cfg.writeOk(key, e, now) {
        disk := Disk(disk.files[key := File(e, cfg.fileSize(key, e), now)], disk.used + size);
      }
    }

    method EvictItem(sh: Shard, now: int) returns (left: Shard)
      requires cfg.Valid() && sh.Valid() && sh.eviction != []
      modifies this`disk
      ensures (left, disk) == Evict(cfg, sh, old(disk), now)
    {
      var item := sh.elems[Victim(sh)];
      left := Remove(sh, Victim(sh));
      if cfg.diskOn { SpillToDisk(item.key, item.entry, now); }
    }

    method AdmitInto(sh: Shard, key: string, now: int) returns (left: Shard, admitted: bool)
      requires cfg.Valid() && lfu.Valid() && lfu.cfg == cfg.lfu && sh.Valid()
      modifies this`disk
      ensures Room(left, disk, admitted) == Admission(cfg, sh, lfu.View(), old(disk), key, now)
    {
      hide Lfu.Estimate, Spill;
      left := sh;
      ghost var policy := lfu.View();
      while |left.eviction| >= left.cap
        invariant left.Valid()
        invariant Admission(cfg, left, policy, disk, key, now) == Admission(cfg, sh, policy, old(disk), key, now)
        decreases |left.eviction|
      {
        if left.eviction == [] { break; }
        var wins := lfu.AdmitKey(key, left.elems[Victim(left)].key);
        if !wins { return left, false; }
        left := EvictItem(left, now);
      }
      return left, true;
    }

    method InsertInShard(sh: Shard, key: string, e: Entry, now: int) returns (left: Shard)
      requires cfg.Valid() && lfu.Valid() && lfu.cfg == cfg.lfu && sh.Valid()
      modifies this`disk
      ensures (left, disk) == PutInShard(cfg, sh, lfu.View(), old(disk), key, e, now)
    {
      if key in sh.items {
        var h := sh.items[key];
        left := MoveToFront(sh, h);
        return Assign(left, h, e);
      }
      AdmissionAtMostOnce(cfg, sh, lfu.View(), disk, key, now);
      var admitted;
      left, admitted := AdmitInto(sh, key, now);
      if admitted && key !in left.items {
        left := PushFront(left, key, e);
      }
    }

    /** The lookup of a resident key: refresh it, or drop it once it is too old. */
    method HitInMemory(i: nat, key: string, now: int) returns (r: Option<Entry>)
      requires i < |shards| && shards[i].Valid() && key in shards[i].items
      modifies this`shards, this`disk
      ensures var sh := old(shards)[i];
        var e := sh.elems[sh.items[key]].entry;
        if Servable(e, now) then
          r == Some(e) && shards == old(shards)[i := MoveToFront(sh, sh.items[key])] && disk == old(disk)
        else
          && r == None && shards == old(shards)[i := Remove(sh, sh.items[key])]
          && disk == if cfg.diskOn then Unlink(old(disk), key) else old(disk)
    {
      var h := shards[i].items[key];
      var e := shards[i].elems[h].entry;
      if IsExpired(e, now) {
        if IsStaleServable(e, now) {
          shards := shards[i := MoveToFront(shards[i], h)];
          return Some(e);
        }
        shards := shards[i := Remove(shards[i], h)];
        if cfg.diskOn { RemoveFromDisk(key); }
        return None;
      }
      shards := shards[i := MoveToFront(shards[i], h)];
      return Some(e);
    }

    /** The lookup of a key that is only on disk: promote it, or drop it once it is too old. */
    method LoadFromDisk(i: nat, key: string, now: int) returns (r: Option<Entry>)
      requires cfg.Valid() && lfu.Valid() && lfu.cfg == cfg.lfu && i < |shards| && shards[i].Valid()
      requires key in disk.files
      modifies this`shards, this`disk
      ensures var e := old(disk).files[key].entry;
        if Servable(e, now) then
          var (sh', disk') := PutInShard(cfg, old(shards)[i], lfu.View(), old(disk), key, e, now);
          r == Some(e) && shards == old(shards)[i := sh'] && disk == disk'
        else
          r == None && shards == old(shards) && disk == Unlink(old(disk), key)
    {
      var e := disk.files[key].entry;
      if IsExpired(e, now) && !IsStaleServable(e, now) {
        RemoveFromDisk(key);
        return None;
      }
      var sh := InsertInShard(shards[i], key, e, now);
      shards := shards[i := sh];
      return Some(e);
    }

    method Get(key: string, now: int) returns (r: Option<Entry>)
      requires Valid()
      modifies this`shards, this`disk, lfu`counter, lfu.sketch.rows, lfu.door.bits
      ensures Valid() && (View(), r) == CacheModel.Get(cfg, old(View()), key, now)
    {
      hide Unlink, Remove, MoveToFront, PutInShard, Lfu.Access, Lfu.ValidState;
      ghost var was := View();
      GetValid(cfg, was, key, now);
      lfu.Increment(key);
      assert lfu.View() == Lfu.Access(cfg.lfu, was.lfu, key);
      var i := cfg.ShardOf(key);
      if key in shards[i].items {
        r := HitInMemory(i, key, now);
      } else if cfg.diskOn && key in disk.files {
        r := LoadFromDisk(i, key, now);
      } else {
        r := None;
      }
      assert (State(shards, lfu.View(), disk), r) == CacheModel.Get(cfg, was, key, now);
    }

    method Put(key: string, e: Entry, now: int)
      requires Valid()
      modifies this`shards, this`disk
      ensures Valid() && View() == CacheModel.Put(cfg, old(View()), key, e, now)
    {
      hide PutInShard;
      StepValid(cfg, View(), OpPut(key, e, now));
      if cfg.maxEntryBytes > 0 && |e.body| > cfg.maxEntryBytes { return; }
      if cfg.maxKeyLen > 0 && |key| > cfg.maxKeyLen { return; }
      var i := cfg.ShardOf(key);
      var sh := InsertInShard(shards[i], key, e, now);
      shards := shards[i := sh];
    }

    method DropFromMemory(i: nat, key: string)
      requires i < |shards| && shards[i].Valid() && key in shards[i].items
      modifies this`shards
      ensures shards == old(shards)[i := Remove(old(shards)[i], old(shards)[i].items[key])]
    {
      shards := shards[i := Remove(shards[i], shards[i].items[key])];
    }

    method Delete(key: string)
      requires Valid()
      modifies this`shards, this`disk
      ensures Valid() && View() == CacheModel.Delete(cfg, old(View()), key)
    {
      hide Unlink, Remove;
      ghost var was := View();
      DeleteValid(cfg, was, key);
      var i := cfg.ShardOf(key);
      if key in shards[i].items { DropFromMemory(i, key); }
      if cfg.diskOn { RemoveFromDisk(key); }
      assert State(shards, lfu.View(), disk) == CacheModel.Delete(cfg, was, key);
    }

    /** Memory only: the disk tier keeps its files. */
    method Purge()
      requires Valid()
      modifies this`shards
      ensures Valid() && View() == CacheModel.Purge(old(View()))
    {
      StepValid(cfg, View(), OpPurge);
      for i := 0 to |shards|
        invariant |shards| == |old(shards)|
        invariant forall k :: 0 <= k < i ==> shards[k] == Cleared(old(shards)[k])
        invariant forall k :: i <= k < |shards| ==> shards[k] == old(shards)[k]
      {
        shards := shards[i := Cleared(shards[i])];
      }
    }

    method Len() returns (total: nat)
      requires Valid()
      ensures total == TotalItems(shards) <= TotalCap(shards)
    {
      assert forall i :: 0 <= i < |shards| ==> shards[i].Valid();
      hide Valid, Shard.Valid;
      total := 0;
      for i := 0 to |shards|
        invariant total == TotalItems(shards[..i]) <= TotalCap(shards[..i])
      {
        LenWithinCapacity(shards[i]);
        assert shards[..i + 1][..i] == shards[..i];
        total := total + |shards[i].items|;
      }
      assert shards[..|shards|] == shards;
    }
  }
}
