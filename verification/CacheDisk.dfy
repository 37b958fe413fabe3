/** The disk tier's accounting: what each removal and each spill does to the files and to the counter, and how the
    counter relates to the space the files really take. */
module CacheDisk {
  import opened Common
  import opened LruShard
  import opened CacheModel
  import opened CacheRuns
  import Lfu = TinyLfu

  /** The sizes of all files together. */
  ghost function Usage(files: map<string, File>): (n: nat)
    decreases |files|
  {
    if files == map[] then 0
    else
      var k :| k in files;
      FewerFiles(files, k);
      files[k].size + Usage(files - {k})
  }

  lemma {:induction false} FewerFiles(files: map<string, File>, k: string)
    requires k in files
    ensures |files - {k}| == |files| - 1
  {
    UnlinkShrinks(Disk(files, 0), k);
  }

  lemma {:induction false} UsageWithout(files: map<string, File>, k: string)
    requires k in files
    ensures Usage(files) == files[k].size + Usage(files - {k})
    decreases |files|
  {
    var j :| j in files && Usage(files) == files[j].size + Usage(files - {j});
    if j != k {
      FewerFiles(files, j);
      FewerFiles(files, k);
      UsageWithout(files - {j}, k);
      UsageWithout(files - {k}, j);
      assert files - {j} - {k} == files - {k} - {j};
    }
  }

  lemma {:induction false} UsageWith(files: map<string, File>, k: string, f: File)
    ensures Usage(files[k := f]) == f.size + Usage(files - {k})
    ensures Usage(files) == Usage(files - {k}) + (if k in files then files[k].size else 0)
  {
    UsageWithout(files[k := f], k);
    assert files[k := f] - {k} == files - {k};
    if k in files { UsageWithout(files, k); } else { assert files - {k} == files; }
  }

  // ---------- One removal, one spill ----------

  /** Removing a file frees its size, and the counter with it, never below zero. */
  lemma {:induction false} UnlinkExact(disk: Disk, key: string)
    requires key in disk.files
    ensures var r := Unlink(disk, key);
            && r.files == disk.files - {key} && Usage(r.files) == Usage(disk.files) - disk.files[key].size
            && r.used == if disk.used >= disk.files[key].size then disk.used - disk.files[key].size else 0
  {
    UsageWithout(disk.files, key);
  }

  /** Room is made sparingly: with room at hand nothing is removed, and of what is removed the last was still needed. */
  lemma {:induction false} RoomIsMadeSparingly(cfg: Config, disk: Disk, size: nat)
    requires cfg.Valid()
    ensures disk.used + size <= cfg.diskMaxBytes ==> MakeRoom(cfg, disk, size) == (disk, true)
    ensures var r := MakeRoom(cfg, disk, size).0;
            r.files != disk.files ==>
              exists gone :: && gone in disk.files && gone !in r.files
                             && r.used + disk.files[gone].size + size > cfg.diskMaxBytes
    decreases |disk.files|
  {
    if disk.used + size > cfg.diskMaxBytes {
      var o := Oldest(cfg, disk.files);
      if o.Some? {
        var next := Unlink(disk, o.value);
        UnlinkShrinks(disk, o.value);
        RoomIsMadeSparingly(cfg, next, size);
        var r := MakeRoom(cfg, disk, size).0;
        assert r == MakeRoom(cfg, next, size).0;
        if r.files == next.files {
          SameFilesSameDisk(cfg, next, size);
          assert o.value in disk.files && o.value !in r.files;
        } else {
          var gone :|
            gone in next.files && gone !in r.files && r.used + next.files[gone].size + size > cfg.diskMaxBytes;
          assert gone in disk.files;
        }
      }
    }
  }

  lemma {:induction false} SameFilesSameDisk(cfg: Config, disk: Disk, size: nat)
    requires cfg.Valid()
    ensures MakeRoom(cfg, disk, size).0 == disk || MakeRoom(cfg, disk, size).0.files != disk.files
  {
    if disk.used + size > cfg.diskMaxBytes && Oldest(cfg, disk.files).Some? {
      var k := Oldest(cfg, disk.files).value;
      UnlinkShrinks(disk, k);
      assert k !in MakeRoom(cfg, Unlink(disk, k), size).0.files;
    }
  }

  /** A spill, exactly: without a limit, or when the body and 512 bytes more fit, nothing is removed and the file is
      written if the file system accepts it, the counter growing by the body and 512 bytes. Otherwise room is made
      first, and nothing is written if there is none. */
  lemma {:induction false} SpillExact(cfg: Config, disk: Disk, key: string, e: Entry, now: int)
    requires cfg.Valid()
    ensures var r := Spill(cfg, disk, key, e, now);
            && (cfg.diskMaxBytes <= 0 || disk.used + |e.body| + 512 <= cfg.diskMaxBytes ==>
                  r == if cfg.writeOk(key, e, now)
                       then Disk(disk.files[key := File(e, cfg.fileSize(key, e), now)], disk.used + |e.body| + 512)
                       else disk)
            && (cfg.diskMaxBytes > 0 ==>
                  && var (room, ok) := MakeRoom(cfg, disk, |e.body| + 512);
                     r == if ok && cfg.writeOk(key, e, now)
                          then Disk(room.files[key := File(e, cfg.fileSize(key, e), now)], room.used + |e.body| + 512)
                          else room)
  {
    hide MakeRoom;
    RoomAtHand(cfg, disk, |e.body| + 512);
  }

  lemma {:induction false} RoomAtHand(cfg: Config, disk: Disk, size: nat)
    requires cfg.Valid()
    ensures disk.used + size <= cfg.diskMaxBytes ==> MakeRoom(cfg, disk, size) == (disk, true)
  {
  }

  // ---------- The counter and the usage ----------

  /** The counter is not below what the files take. */
  ghost predicate Covered(disk: Disk) {
    Usage(disk.files) <= disk.used
  }

  /** No file is larger than its entry's body and 512 bytes, which is what a spill charges. */
  ghost predicate ChargesCover(cfg: Config) {
    forall k, e :: cfg.fileSize(k, e) <= |e.body| + 512
  }

  lemma {:induction false} UnlinkCovered(disk: Disk, key: string)
    requires Covered(disk)
    ensures Covered(Unlink(disk, key))
  {
    if key in disk.files { UsageWithout(disk.files, key); }
  }

  lemma {:induction false} RoomCovered(cfg: Config, disk: Disk, size: nat)
    requires cfg.Valid() && Covered(disk)
    ensures Covered(MakeRoom(cfg, disk, size).0)
    decreases |disk.files|
  {
    hide Covered, Unlink;
    if disk.used + size > cfg.diskMaxBytes && Oldest(cfg, disk.files).Some? {
      var k := Oldest(cfg, disk.files).value;
      UnlinkShrinks(disk, k);
      UnlinkCovered(disk, k);
      RoomCovered(cfg, Unlink(disk, k), size);
    }
  }

  lemma {:induction false} SpillCovered(cfg: Config, disk: Disk, key: string, e: Entry, now: int)
    requires cfg.Valid() && ChargesCover(cfg) && Covered(disk)
    ensures Covered(Spill(cfg, disk, key, e, now))
  {
    hide MakeRoom;
    RoomCovered(cfg, disk, |e.body| + 512);
    var room := if cfg.diskMaxBytes > 0 then MakeRoom(cfg, disk, |e.body| + 512).0 else disk;
    UsageWith(room.files, key, File(e, cfg.fileSize(key, e), now));
  }

  lemma {:induction false} PutCovered(cfg: Config, sh: Shard, lfu: Lfu.State, disk: Disk, key: string, e: Entry,
                                      now: int)
    requires cfg.Valid() && sh.Valid() && Lfu.ValidState(cfg.lfu, lfu) && ChargesCover(cfg) && Covered(disk)
    ensures Covered(PutInShard(cfg, sh, lfu, disk, key, e, now).1)
  {
    hide PutInShard, Spill, Assign, PushFront, MoveToFront, Covered, ChargesCover, Lfu.ValidState, Lfu.Admit;
    PutInShardCases(cfg, sh, lfu, disk, key, e, now);
    if sh.eviction != [] {
      var item := sh.elems[Victim(sh)];
      SpillCovered(cfg, disk, item.key, item.entry, now);
    }
  }

  lemma {:induction false} StepCovered(cfg: Config, s: State, op: Op)
    requires cfg.Valid() && ValidState(cfg, s) && ChargesCover(cfg) && Covered(s.disk)
    ensures Covered(Step(cfg, s, op).disk)
  {
    hide Lfu.Access, PutInShard, Unlink, Remove, MoveToFront, Covered, ChargesCover;
    match op
    case OpGet(key, now) =>
      UnlinkCovered(s.disk, key);
      if key in s.disk.files {
        PutCovered(cfg, s.shards[cfg.ShardOf(key)], Lfu.Access(cfg.lfu, s.lfu, key), s.disk, key,
                   s.disk.files[key].entry, now);
      }
    case OpPut(key, e, now) => PutCovered(cfg, s.shards[cfg.ShardOf(key)], s.lfu, s.disk, key, e, now);
    case OpDelete(key) => UnlinkCovered(s.disk, key);
    case OpPurge =>
  }

  /** If no file is larger than what its spill charges, then in every run the files take no more than the counter says,
      and so no more than the limit once the counter is within it. */
  lemma {:induction false} UsageBounded(cfg: Config, s: State, ops: seq<Op>)
    requires cfg.Valid() && ValidState(cfg, s) && ChargesCover(cfg) && Covered(s.disk)
    ensures Covered(Run(cfg, s, ops).disk)
    ensures cfg.diskMaxBytes > 0 && s.disk.used <= cfg.diskMaxBytes ==>
              Usage(Run(cfg, s, ops).disk.files) <= cfg.diskMaxBytes
  {
    hide ChargesCover, Step;
    if ops != [] {
      var n := |ops| - 1;
      UsageBounded(cfg, s, ops[..n]);
      RunLast(cfg, s, ops);
      StepCovered(cfg, Run(cfg, s, ops[..n]), ops[n]);
    }
    DiskCounterBounded(cfg, s, ops);
  }

  /** Otherwise it need not be so. A spill that fits leaves the counter at least the usage exactly when the new file
      is no larger than the body, 512 bytes, the file it replaces and what the counter had to spare. */
  lemma {:induction false} SpillCoversIff(cfg: Config, disk: Disk, key: string, e: Entry, now: int)
    requires cfg.Valid() && cfg.writeOk(key, e, now)
    requires cfg.diskMaxBytes <= 0 || disk.used + |e.body| + 512 <= cfg.diskMaxBytes
    ensures Covered(Spill(cfg, disk, key, e, now)) <==>
            cfg.fileSize(key, e) <= |e.body| + 512 + (if key in disk.files then disk.files[key].size else 0)
                                    + (disk.used - Usage(disk.files))
  {
    hide Spill;
    SpillExact(cfg, disk, key, e, now);
    UsageWith(disk.files, key, File(e, cfg.fileSize(key, e), now));
  }

  /** For instance one spill into an empty disk with just enough room: the files take more than the limit exactly
      when the encoded entry is larger than its body and 512 bytes. */
  lemma {:induction false} LimitCanBeExceeded(cfg: Config, key: string, e: Entry, now: int)
    requires cfg.Valid() && cfg.writeOk(key, e, now) && cfg.diskMaxBytes == |e.body| + 512
    ensures Usage(Spill(cfg, Disk(map[], 0), key, e, now).files) > cfg.diskMaxBytes <==>
            cfg.fileSize(key, e) > |e.body| + 512
  {
    hide Spill;
    var none := Disk(map[], 0);
    SpillExact(cfg, none, key, e, now);
    UsageWith(none.files, key, File(e, cfg.fileSize(key, e), now));
    assert none.files - {key} == map[];
  }

  /** A cache built over listed files starts with the counter at their usage, if the listing reports each file once. */
  lemma {:induction false} ListedUsage(names: seq<string>, files: map<string, File>)
    requires forall i :: 0 <= i < |names| ==> names[i] in files
    requires forall i, j :: 0 <= i < j < |names| ==> names[i] != names[j]
    requires forall k :: k in files ==> k in names
    ensures TotalSize(names, files) == Usage(files)
  {
    if names == [] {
      assert files == map[];
    } else {
      var n := |names| - 1;
      var rest := files - {names[n]};
      assert forall i :: 0 <= i < n ==> names[..n][i] == names[i];
      forall k | k in rest ensures k in names[..n] {
        var i :| 0 <= i < |names| && names[i] == k;
        assert names[..n][i] == k;
      }
      ListedUsage(names[..n], rest);
      SameSizes(names[..n], files, rest);
      UsageWithout(files, names[n]);
    }
  }

  lemma {:induction false} SameSizes(names: seq<string>, files: map<string, File>, rest: map<string, File>)
    requires forall i :: 0 <= i < |names| ==> names[i] in files && names[i] in rest && rest[names[i]] == files[names[i]]
    ensures TotalSize(names, files) == TotalSize(names, rest)
  {
    if names != [] {
      var n := |names| - 1;
      assert forall i :: 0 <= i < n ==> names[..n][i] == names[i];
      SameSizes(names[..n], files, rest);
    }
  }
}
