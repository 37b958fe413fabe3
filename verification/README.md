# A verified model of the CDN edge node

This project models the parts of a CDN edge node that are hard to get right and proves
properties of them for every input, every run or every interleaving:

- **Cache** (`Bits`, `TinyLfu`, `TinyLfuPolicy`, `Sharding`, `LruShard`, `CacheModel`, `CacheRuns`,
  `CacheRecency`, `CacheAdmission`, `CacheDisk`, `CacheRace`, `CacheStore`, `CacheKey`): a sharded LRU gated by TinyLFU with an optional disk tier.
  `CacheModel` gives each operation as a function on values, `CacheStore` is the object updated in
  place and proved equal to it, `CacheRuns`, `CacheRecency`, `CacheAdmission` and `CacheDisk` say what whole runs guarantee, and
  `CacheRace` what is left of it when lookups, puts and deletes overlap.
- **Request collapsing** (`Streaming`, `Stampede`, `StampedeRuns`, `SingleFlight`, `Breaker`): the stampede
  lock, the streaming entry, the cache that waiters fall back to, origin single-flight and the circuit breaker.
  Each request or call is a program counter; a step happens at a lock boundary, a channel close or a condition wait; invariants hold
  over every interleaving of any number of requests.
- **Handshake pool** (`Handshake`, `HandshakeShutdown`): accept loop, workers, callers and shutdown around two bounded channels.
- **Small algorithms** (`Predictor`, `RateLimit`, `Balancer`, `BalancerRace`, `RangeHeader`).
- **Control plane** (`ControlPlane`, `EdgePoller`): the versioned store and the polling edge.

Where the code updates an object in place there is a class whose methods are proved against a
function on values; the laws are lemmas about that function. Hashes (xxhash, FNV) are arbitrary total
functions. Time is an argument, generated identifiers are arguments, map iteration order and directory
listing order are arbitrary. Integer widths are written out where they matter: the wrap of `nextPow2`,
of the TinyLFU sizing, of the predictor's 32-bit sizing loop and of the balancer's counter, and the range of `strconv.Atoi`.

`Common` and `Text` hold the option type, the choice of a fresh identifier and the white-space trimming that several modules share.

Fifteen statements one might expect of this code do not hold of it. Each is given with an input or run on which
it fails and with the exact condition under which it holds:

- A waiter does not always serve the outcome of the fetch it joined: after a fetch that is not cacheable it serves
  what it finds in the cache, which can be a later fetch's body (`StampedeRuns.LaterFetchCanBeServed`,
  `StampedeRuns.FallsBackIff`, `StampedeRuns.ServesAnotherIff`).
- A shutdown of the handshake pool can strand an accepted connection in the inbox, exactly when more connections
  than workers were accepted (`HandshakeShutdown.ShutdownCanStrand`, `HandshakeShutdown.StrandsIff`).
- A delete does not always keep an entry away: a lookup that has read the entry's file promotes it even if the delete
  runs from start to end in between (`CacheRace.DeleteCanBeUndone`, `CacheRace.DeletedReturnsIff`,
  `CacheRace.ServedLaterIff`).
- A put is not always visible to the next get (`CacheAdmission.PutCanBeDropped`,
  `CacheAdmission.DroppedIffLessPopular`, `CacheRuns.PutThenGet`).
- The files of the disk tier can take more than the limit, because a spill charges the body and 512 bytes whatever the
  file's size (`CacheDisk.LimitCanBeExceeded`, `CacheDisk.SpillCoversIff`, `CacheDisk.UsageBounded`).
- The rate limiter's idle sweep changes answers when 300 seconds do not refill a bucket
  (`RateLimit.SweepObservable`, `RateLimit.SweepUnobservableIff`).
- The predictor's sizing loop does not terminate for some capacities, the least being 2^28 + 1
  (`Predictor.NextCapacityDiverges`, `Predictor.SizingTerminatesIff`).
- A store version does not always determine the edge's answers, because `UpdateDomain` checks neither
  hostname nor tenant (`ControlPlane.UpdateCanClash`, `ControlPlane.SnapshotDeterminedIff`, `EdgePoller.PollAgreesIff`).
- Two requests that differ in a header named by Vary can share a key, because values are written unescaped: a Vary
  header that names some header once tells all requests apart exactly when it names no other (`CacheKey.PairCollides`,
  `CacheKey.SeparatesIff`, `CacheKey.VariantsSeparateIff`).
- Requests for different paths can share a key, because the path is written decoded and may hold a question mark: the
  path `/a?b` without query and the path `/a` with the query `b` do (`CacheKey.PathsCollide`, `CacheKey.PathConfusedIff`);
  among paths without a question mark none do (`CacheKey.SamePathIff`).
- The balancer can report that no backend is healthy although one is: a call beside others draws only some positions
  (`BalancerRace.CanExhaust`, `BalancerRace.CanFailIff`, `BalancerRace.AloneIsNext`).
- So can a call alone, when its 64-bit counter wraps and the length of the list is not a power of two
  (`Balancer.WrapSkipsHealthy`, `Balancer.WordErrorIff`).
- Requests with different paths and headers can share a key, because a path may hold the bar that begins the Vary part
  (`CacheKey.BarCollides`); without bars in path and query every part is told apart (`CacheKey.KeysIff`).
- Hosts that differ in more than ASCII case can share a key, exactly when there is neither query nor Vary and the library
  lower-cases them alike (`CacheKey.HostsCollide`, `CacheKey.HostsIff`).
- A host and its lower-case form do not always share a key: a request without query and Vary lower-cases the host as
  Unicode, but only if it has an ASCII capital (`CacheKey.HostCaseFails`, `CacheKey.HostCaseIff`).

## Model

| member | source | states |
|---|---|---|
| `Bits.AndMaskIsMod` | cache/cache.go:217-220 | masking a hash with 2^k - 1 is the remainder modulo 2^k |
| `Bits.NextPow2RoundsUp` | cache/tinylfu.go:224-229 | up to 2^63, nextPow2 returns the least power of two not below its argument |
| `TinyLfu.CellsDominateIdeal` | cache/tinylfu.go:183-200 | after any access sequence every cell of a key is at least its ideal counter, and a key seen this window passes the doorkeeper |
| `TinyLfu.EstimateDominatesIdeal` | cache/tinylfu.go:58-93 | Estimate is never below the exact counter that saturates at 255 and halves at window ends |
| `TinyLfu.EstimateExact` | cache/tinylfu.go:58-93 | Estimate equals that counter when one row's cell is private and the doorkeeper gives no false positive for the key |
| `TinyLfu.IdealCounts` | cache/tinylfu.go:183-200 | that counter is n - 1, up to 255, after n accesses within a window |
| `TinyLfu.IdealHalves` | cache/tinylfu.go:183-200 | every access that completes a window halves it and forgets that the key was seen |
| `TinyLfu.CellIndexIsMod` | cache/tinylfu.go:44-56 | row i uses the hash plus i times the hash with its halves exchanged (or a constant for zero), modulo the width |
| `TinyLfu.RowsSeparate` | cache/tinylfu.go:40-56 | keys that share the cell of row 0 share that of row i exactly when i times the difference of their second hashes is a multiple of the width |
| `TinyLfu.DoorBitsAreMod` | cache/tinylfu.go:121-134 | the two Bloom bits are the hash and the exchanged hash modulo the number of bits |
| `TinyLfu.PrivateBitTracksSeen` | cache/tinylfu.go:121-152 | a Bloom bit no other accessed key sets is set exactly when the key was seen this window |
| `TinyLfu.PrivateBitNoFalsePositive` | cache/tinylfu.go:121-134 | one private Bloom bit rules out false positives for the key over the whole run |
| `TinyLfu.SumHalved` | cache/tinylfu.go:79-85 | halving a row at least halves its sum |
| `TinyLfu.MassBoundsCount` | cache/tinylfu.go:67-76 | t times the number of cells holding at least t is at most the row's sum |
| `TinyLfu.RowMass` | cache/tinylfu.go:183-200 | in every reachable state each row sums to at most the window plus the counter |
| `TinyLfu.FewHotCells` | cache/tinylfu.go:167-200 | hence each row sums to less than two windows and fewer than 2W/t cells reach t |
| `TinyLfuPolicy.ConfigForValid` | cache/tinylfu.go:22-38 | every capacity, even one whose scaled size wraps, gives power-of-two sizes and a positive window |
| `TinyLfuPolicy.ConfigForSizes` | cache/tinylfu.go:167-180 | width, doorkeeper bits and window are ten, eight and ten times the capacity, rounded up to powers of two and not below 4096, 64 and 1000 |
| `TinyLfuPolicy.CountMinSketch.Increment` | cache/tinylfu.go:58-65 | the in-place loop bumps exactly one saturating cell per row |
| `TinyLfuPolicy.CountMinSketch.EstimateKey` | cache/tinylfu.go:67-76 | the loop returns the least of the key's four cells |
| `TinyLfuPolicy.CountMinSketch.Halve` | cache/tinylfu.go:79-85 | the nested loops floor-halve every cell of every row |
| `TinyLfuPolicy.Doorkeeper.Add` | cache/tinylfu.go:121-134 | sets the key's two bits and reports whether both were set before |
| `TinyLfuPolicy.Doorkeeper.Contains` | cache/tinylfu.go:137-146 | reports whether both bits are set |
| `TinyLfuPolicy.Doorkeeper.Reset` | cache/tinylfu.go:148-152 | clears every bit |
| `TinyLfuPolicy.Policy.Increment` | cache/tinylfu.go:183-200 | one in-place access is one step of the value model, window end included |
| `TinyLfuPolicy.Policy.AdmitKey` | cache/tinylfu.go:207-213 | admits exactly when the newcomer's estimate is at least the victim's |
| `Sharding.ShardCountValid` | cache/cache.go:155-181 | for every pair of options the shard count is a power of two between 1 and the capacity |
| `Sharding.ShardCountExact` | cache/cache.go:155-181 | it is one below 64 items, else the greatest power of two that exceeds neither the capacity nor the rounded request, 256 by default; one if that does not fit an int |
| `Sharding.CapacitiesSumExactly` | cache/cache.go:183-208 | every shard capacity is at least 1 and they add up to MaxItems exactly |
| `Sharding.CapacitiesBalanced` | cache/cache.go:183-208 | no two shards differ by more than one item, the larger ones coming first |
| `Sharding.ShardIndexIsMod` | cache/cache.go:217-220 | the masked hash is the hash modulo the number of shards |
| `Sharding.CountShards` | cache/cache.go:155-179 | the sizing code with its halving loop computes that shard count |
| `Sharding.Distribute` | cache/cache.go:187-208 | the distribution loop gives each shard its share |
| `LruShard.MoveToFront` | cache/cache.go:423-427 | keeps map and list in bijection and the contents unchanged |
| `LruShard.Remove` | cache/cache.go:448-457 | removes exactly one key and keeps map and list in bijection |
| `LruShard.PushFront` | cache/cache.go:443-445 | adds exactly one key and keeps map and list in bijection and within capacity |
| `LruShard.Assign` | cache/cache.go:423-427 | replaces exactly one key's entry |
| `LruShard.LenWithinCapacity` | cache/cache.go:502-510 | the map has as many keys as the list has elements, at most the capacity |
| `LruShard.ServableIff` | cache/cache.go:60-75 | an entry is servable exactly while its age is within TTL plus stale window, and stale exactly after its TTL |
| `CacheModel.OldestIndex` | cache/cache.go:531-568 | the scan finds the first file with the least modification time |
| `CacheModel.MakeRoom` | cache/cache.go:514-525 | the spill loop terminates, only removes files, never raises the counter above both its old value and the limit, and reports whether there is room |
| `CacheModel.Spill` | cache/cache.go:514-529 | a spill never takes the counter below zero or above both its old value and the limit, and changes no file but its own |
| `CacheModel.AdmissionAtMostOnce` | cache/cache.go:429-441 | the admission loop evicts nothing or exactly the back of the list, and admits exactly when there is room or the victim is no more popular |
| `CacheModel.PutInShardMemory` | cache/cache.go:418-445 | a put loses at most the victim, stores the entry exactly when it takes effect, and otherwise changes nothing |
| `CacheModel.PutInShardDisk` | cache/cache.go:448-457 | a put changes the disk only by spilling the victim under its own key |
| `CacheModel.GetValid` | cache/cache.go:338-396 | a lookup preserves the state invariant, promotion from disk included |
| `CacheModel.StepValid` | cache/cache.go:338-490 | every operation preserves bijection, placement by hash, capacities, sketch shape and a non-negative disk counter |
| `CacheRuns.NewIsValid` | cache/cache.go:183-215 | a newly built cache satisfies the invariant and holds no key |
| `CacheRuns.CapacitiesFixed` | cache/cache.go:418-445 | in every run shard capacities never change and no shard exceeds its own |
| `CacheRuns.TotalWithinMaxItems` | cache/cache.go:155-215 | in every run of a new cache the keys in memory number at most MaxItems |
| `CacheRuns.MemoryWithinLatest` | cache/cache.go:403-490 | without disk, memory is always part of the map of latest accepted puts since delete or purge |
| `CacheRuns.GetRefinesMap` | cache/cache.go:338-396 | without disk, every Get of every run is nil or that map's entry, never older than TTL plus stale window |
| `CacheRuns.TiersLegitimate` | cache/cache.go:448-478 | with disk, both tiers hold only entries put under their key since its last delete, or found on disk at the start |
| `CacheRuns.GetServesOnlyPuts` | cache/cache.go:338-396 | with disk, every Get of every run serves only such entries, within their age |
| `CacheRuns.GetExact` | cache/cache.go:338-396 | in every state a lookup answers the entry in memory, or else on disk, exactly if it is within its age limit |
| `CacheRuns.GetLeaves` | cache/cache.go:338-396 | a lookup that answers nothing leaves its key in neither tier and everything else alone; a hit leaves everything in place |
| `CacheRuns.GetPromotes` | cache/cache.go:373-391 | an entry served from disk is in memory afterwards exactly when there was room or the victim is no more popular |
| `CacheRuns.DiskCounterBounded` | cache/cache.go:514-568 | in every run the disk counter stays between zero and the larger of the limit and its value at the start |
| `CacheRuns.PutThenGet` | cache/cache.go:403-445 | a put followed by a get returns the new entry exactly when it took effect; otherwise the older disk copy or nil |
| `CacheRuns.PutWithinLimits` | cache/cache.go:403-416 | a put of a body or key beyond its limit changes nothing; any other is visible at once if its key is resident or its shard has room |
| `CacheRuns.PutLeaves` | cache/cache.go:418-445 | a put removes no other key from memory but the back of its own full shard, and that only if it takes effect |
| `CacheRuns.RemovalsLeave` | cache/cache.go:462-490 | a delete leaves every other key alone in both tiers; a purge empties memory and leaves disk and policy alone |
| `CacheRuns.DeleteThenGet` | cache/cache.go:462-478 | after a delete the key is gone from both tiers |
| `CacheRecency.ListsAreByRecency` | cache/cache.go:338-445 | in every run every eviction list is strictly ordered by the last use of its keys |
| `CacheRecency.VictimIsLeastRecent` | cache/cache.go:429-441 | in every run the key a put displaces was used before every other key of its shard |
| `CacheAdmission.PolicySeesLookups` | cache/cache.go:338-342 | in every run the admission policy has seen exactly the sequence of lookups and nothing else |
| `CacheAdmission.DroppedIffLessPopular` | cache/cache.go:418-445 | in every run a put is dropped exactly when its key is absent, its shard full and the victim strictly more popular; then its exact frequency is below the victim's estimate |
| `CacheAdmission.PutCanBeDropped` | cache/cache.go:429-441 | after a put and two lookups of one key in a shard of capacity one, a put of another key is dropped and stays a miss |
| `CacheAdmission.OneEntryCacheDrops` | cache/cache.go:155-215 | such a run exists for every new cache of one entry |
| `CacheAdmission.DisplacedIsServedFromDisk` | cache/cache.go:448-457 | what a put displaces moves to disk and the next lookup of that key serves it |
| `CacheAdmission.RoomIsMadeOldestFirst` | cache/cache.go:514-568 | making room on disk removes files oldest first |
| `CacheDisk.UnlinkExact` | cache/cache.go:658-672 | removing a file lowers usage by its size, and the counter too, not below zero |
| `CacheDisk.RoomIsMadeSparingly` | cache/cache.go:514-525 | with room at hand nothing is removed, and some removed file was still needed for room |
| `CacheDisk.SpillExact` | cache/cache.go:514-529 | a spill writes its file after making room for body plus 512 bytes, charges that much, and writes nothing if there is no room or the write fails |
| `CacheDisk.UsageBounded` | cache/cache.go:514-568 | if no file is larger than what its spill charges, in every run the files take no more than the counter, hence no more than the limit |
| `CacheDisk.SpillCoversIff` | cache/cache.go:514-529 | a spill that fits leaves the counter at least the usage exactly when the file is no larger than the charge, the file it replaces and the slack before |
| `CacheDisk.LimitCanBeExceeded` | cache/cache.go:514-529 | one spill into an empty disk exceeds the limit exactly when the encoded entry is larger than its body and 512 bytes |
| `CacheDisk.ListedUsage` | cache/cache.go:570-584 | the initial counter is the usage if the listing reports every file once |
| `CacheRace.StepValid` | cache/cache.go:338-478 | every step of overlapping lookups, puts and deletes preserves the state invariant |
| `CacheRace.AloneIsGet` | cache/cache.go:338-396 | a lookup whose steps nothing interrupts ends as the sequential lookup, answer and cache |
| `CacheRace.AloneIsDelete` | cache/cache.go:467-478 | a delete whose steps nothing interrupts ends as the sequential delete |
| `CacheRace.ServedLaterIff` | cache/cache.go:338-396 | without a further put, a lookup begun from here on can return an entry from a given time on exactly when a copy servable at that time is in memory, on disk or in the hands of a lookup |
| `CacheRace.DeletedReturnsIff` | cache/cache.go:467-478 | after a delete's last step one can be returned from a given time on exactly when memory holds one servable then again or a lookup under way has read one |
| `CacheRace.DeleteCanBeUndone` | cache/cache.go:373-391 | for every cache that holds a key on disk only, a run in which a lookup begun after a finished delete returns the deleted entry |
| `CacheRace.UndisturbedDelete` | cache/cache.go:467-478 | a delete that no lookup and no put of its key overlaps leaves no copy, and until the next put nothing is returned in any run, each lookup reading its own time |
| `CacheStore.Cache.constructor` | cache/cache.go:155-215 | builds a cache that satisfies the invariant and is new, over whatever files are on disk |
| `CacheStore.Cache.DiskUsage` | cache/cache.go:570-584 | the loop adds up the sizes of the listed files |
| `CacheStore.Cache.OldestFile` | cache/cache.go:531-568 | the in-place scan returns the specified oldest file |
| `CacheStore.Cache.EvictOldestDiskEntry` | cache/cache.go:531-568 | removes exactly the oldest file and lowers the counter, never below zero |
| `CacheStore.Cache.RemoveFromDisk` | cache/cache.go:658-672 | removes exactly one file and lowers the counter, never below zero |
| `CacheStore.Cache.SpillToDisk` | cache/cache.go:514-529 | the loop computes the specified spill |
| `CacheStore.Cache.EvictItem` | cache/cache.go:448-457 | drops the back of the list and spills it if there is a disk |
| `CacheStore.Cache.AdmitInto` | cache/cache.go:429-441 | the loop computes the specified admission |
| `CacheStore.Cache.InsertInShard` | cache/cache.go:418-445 | computes the specified put into a shard |
| `CacheStore.Cache.Get` | cache/cache.go:338-396 | the in-place lookup is the specified one, result and whole state |
| `CacheStore.Cache.Put` | cache/cache.go:403-416 | the in-place put is the specified one, size guards included |
| `CacheStore.Cache.Delete` | cache/cache.go:462-478 | the in-place delete is the specified one on both tiers |
| `CacheStore.Cache.Purge` | cache/cache.go:483-490 | the loop empties every shard and leaves the disk alone |
| `CacheStore.Cache.Len` | cache/cache.go:502-510 | counts the keys in memory, at most the sum of the capacities |
| `CacheKey.JoinSplit` | cache/cache.go:303-316 | joining the parts of a query gives it back |
| `CacheKey.SplitJoin` | cache/cache.go:303-316 | splitting joined separator-free parts gives them back |
| `CacheKey.SortSorts` | cache/cache.go:303-316 | sorting yields a sorted permutation |
| `CacheKey.LeqIff` | cache/cache.go:303-316 | the order is that of the first difference, a text before its continuations |
| `CacheKey.SortedIsUnique` | cache/cache.go:303-316 | a multiset of parts has one sorted form |
| `CacheKey.FastPathAgrees` | cache/cache.go:303-307 | the path for a query without separator agrees with the sorting path |
| `CacheKey.SortedQueryIff` | cache/cache.go:297-316 | two queries have one canonical form exactly when their parts are permutations of each other |
| `CacheKey.SameKeyIff` | cache/cache.go:233-268 | without Vary, for a fixed host and path, two queries share a key exactly when their parts are permutations of each other |
| `CacheKey.SamePathIff` | cache/cache.go:233-268 | across paths without a question mark, two requests share a key exactly when the paths are equal and the query parts permuted |
| `CacheKey.PathConfusedIff` | handler/handler.go:83 | a path with a question mark shares its key with one without exactly when what follows the mark is a query in canonical form and the host is written alike |
| `CacheKey.PathsCollide` | handler/handler.go:83 | the paths `/a?b` and `/a` with the query `b` share a key for every host without ASCII capitals |
| `CacheKey.VaryPathIff` | cache/cache.go:233-286 | with a Vary header too, for one host and the same headers, two requests share a key exactly when the paths are equal and the query parts permuted |
| `CacheKey.KeysIff` | cache/cache.go:233-286 | for hosts without slash, paths from the root without question mark and no bar in path and query: two requests share a key exactly when host parts, paths, permuted query parts and Vary parts agree |
| `CacheKey.BarCollides` | cache/cache.go:270-282 | a bar in the path makes a request share its key with one of another path and header |
| `CacheKey.SuffixIff` | cache/cache.go:270-282 | if no value before the last holds the separator, two requests get the same Vary part exactly when they agree on every named header |
| `CacheKey.PairCollides` | cache/cache.go:270-282 | for every two names there are two different requests with the same Vary part |
| `CacheKey.ListCollides` | cache/cache.go:270-282 | so there are for every list of at least two names whose last name occurs once |
| `CacheKey.OnceCollides` | cache/cache.go:270-282 | so there are for every list with a name that occurs once and another whose places come later and follow each other |
| `CacheKey.OddTwiceCollides` | cache/cache.go:270-282 | so there are for lists with a name written an odd number of times, at least three, and the next one twice |
| `CacheKey.SeparatesIff` | cache/cache.go:270-282 | a list tells all requests apart if it names one header only, and only then if its last name, or in a sorted list any name, occurs once |
| `CacheKey.SameVariantIff` | cache/cache.go:233-286 | for a fixed Vary header, if no named value before the last holds the separator, two requests share a key exactly when they agree on every named header |
| `CacheKey.VariantsSeparateIff` | cache/cache.go:233-286 | the key tells all requests apart if the Vary header names one header only, and only then if it names some header once |
| `CacheKey.VaryOrderIrrelevant` | cache/cache.go:318-331 | another order of the comma-separated parts, other letter case and blanks around them change no name |
| `CacheKey.OneName` | cache/cache.go:318-331 | a single name is lower-cased and canonicalised, a blank one dropped |
| `CacheKey.BlankNamesNothing` | cache/cache.go:318-331 | a blank part between others names nothing |
| `CacheKey.StarNamesNothing` | cache/cache.go:318-331 | `*` names nothing and adds nothing to the key |
| `CacheKey.HostCaseIff` | cache/cache.go:233-256 | a host and its ASCII lower case share a key exactly when there is a query or Vary, no ASCII capital, or no other character that the library lower-cases |
| `CacheKey.HostCaseFails` | cache/cache.go:235-240 | a host of an ASCII and an accented capital does not share its key with its ASCII lower case |
| `CacheKey.HostsIff` | cache/cache.go:233-256 | two hosts share the keys of one path exactly when their ASCII lower case agrees, or without query and Vary what the library makes of them |
| `CacheKey.HostsCollide` | cache/cache.go:235-240 | without query and Vary an ASCII capital before the Kelvin sign shares its key with two ASCII letters |
| `CacheKey.LowerLetters` | cache/cache.go:247-256 | the ASCII capitals become the small letters in order and no other character changes |
| `CacheKey.WriteSortedQuery` | cache/cache.go:303-316 | the builder loop appends exactly the canonical query |
| `CacheKey.IsLowerAscii` | cache/cache.go:288-295 | the loop reports whether there is no ASCII capital |
| `CacheKey.ParseVary` | cache/cache.go:318-331 | the loop yields the normalised, non-blank names, sorted; none for `*` |
| `CacheKey.WriteVary` | cache/cache.go:270-282 | the builder loop appends exactly the Vary part |
| `CacheKey.NormalizeKey` | cache/cache.go:233-286 | both paths of the builder yield the specified key, Vary included |
| `Streaming.Entry.Write` | cache/streaming.go:51-60 | appends before Close and changes nothing after it |
| `Streaming.Entry.Close` | cache/streaming.go:64-74 | only the first close takes effect |
| `Streaming.Reader.Read` | cache/streaming.go:142-165 | returns the next bytes, end of file or the close error, or blocks; advances by exactly what it returned |
| `Streaming.StreamBody` | handler/handler.go:211-224 | the chunk loop leaves a complete entry holding exactly the body |
| `Streaming.ServeStreaming` | handler/handler.go:266-295 | the reader loop has sent the whole buffer when it stops or blocks, and blocks only on an open entry |
| `Streaming.EntryHolds` | cache/streaming.go:51-74 | after any writes and closes an entry holds what was written before the first close, with that close's error |
| `Streaming.Converts` | cache/streaming.go:99-121 | the permanent entry has exactly those bytes, and there is none after a failed download |
| `Stampede.StepKeepsInv` | cache/stampede.go:67-136 | every step of every request preserves the protocol invariant |
| `Stampede.ReachableInv` | handler/handler.go:157-295 | the invariant holds in every state of every interleaving |
| `Stampede.OneFetcherPerKey` | cache/stampede.go:104-136 | at most one fetcher per key holds the lock, and the lock map has its entry |
| `Stampede.LockHasFetcher` | cache/stampede.go:67-79 | every key in the lock map has a live fetcher |
| `Stampede.NeverPanics` | cache/stampede.go:67-94 | no run closes `done` or `streamReady` twice, converts an open streaming entry or caches a missing one |
| `StampedeRuns.JoinsCurrentFetch` | cache/stampede.go:104-125 | a waiter joins the fetch that holds its key's lock at that moment |
| `StampedeRuns.WaiterOutcome` | handler/handler.go:157-183 | a waiter that joined a cacheable fetch serves exactly its body; any other serves an error or a body another fetch or a revalidation cached under the same key |
| `StampedeRuns.FallsBackIff` | cache/stampede.go:112-125 | a woken waiter turns to the cache exactly when the fetch it joined was not cacheable |
| `StampedeRuns.ServesAnotherIff` | handler/handler.go:169-178 | there it serves a stale body exactly when the key is cached, never the joined fetch's own |
| `StampedeRuns.RunSourced` | handler/handler.go:235-245 | in every run each cached or stale body was sent by the origin to a fetch that put it under that key, its own or the Vary-aware one, or stored there by a revalidation |
| `StampedeRuns.StoreChanges` | handler/handler.go:241 | a kept put stores the fetched body under the primary key and touches no other |
| `StampedeRuns.StoreVariantChanges` | handler/handler.go:242-244 | a kept put stores it under the Vary-aware key exactly if that is another one |
| `StampedeRuns.LaterFetchCanBeServed` | handler/handler.go:157-183 | for any key and body there is a run in which a waiter of a failed fetch serves the body of a fetch that began after it |
| `StampedeRuns.FetcherCanFinish` | handler/handler.go:187-261 | from every reachable state a fetcher alone can run to closing `done`, leaving the others in place and a cacheable body in the cache |
| `StampedeRuns.WaiterCanFinish` | handler/handler.go:157-183 | every reachable state extends to one in which a given waiter is done |
| `StampedeRuns.StreamedIsPrefix` | handler/handler.go:266-295 | whatever a waiter has streamed is a prefix of the body the origin sent to the fetch it joined |
| `StampedeRuns.ReleasedEntryIsBody` | handler/handler.go:226-248 | the entry cached and released carries exactly the origin's body, and an error exactly when there is nothing to cache |
| `StampedeRuns.SleepersHaveWriter` | cache/streaming.go:142-165 | a sleeping reader has read everything, its entry is open and its fetcher is still writing |
| `StampedeRuns.FetcherAdvances` | handler/handler.go:187-261 | a live fetcher can always step and each step brings it closer to closing `done` |
| `StampedeRuns.WaiterAdvances` | handler/handler.go:157-183 | once the joined fetch has closed `done`, a waiter can always step and each step brings it closer to its end |
| `SingleFlight.StepKeepsInv` | proxy/origin.go:88-132 | every step of every call preserves the protocol invariant |
| `SingleFlight.ReachableInv` | proxy/origin.go:88-132 | the invariant holds in every state of every interleaving |
| `SingleFlight.OneFetchPerKey` | proxy/origin.go:93-114 | at most one origin fetch per key is in progress |
| `SingleFlight.TableIsLiveFlights` | proxy/origin.go:93-129 | the flight map holds exactly the flights whose leader has not deleted them |
| `SingleFlight.RecordedExactlyOnce` | proxy/origin.go:114-131 | each completed fetch is recorded once with its own outcome, followers record nothing, the breaker state is that of its history, no channel is closed twice |
| `SingleFlight.RecordedNow` | proxy/origin.go:117-123 | an error or a status of 500 and above is recorded as a failure at that time, anything else as a success |
| `SingleFlight.BadRepliesOpen` | proxy/origin.go:117-123 | after the failure threshold of such replies in a row the breaker is not closed, right after the last it is open |
| `SingleFlight.TurnedAwayIff` | proxy/origin.go:88-92 | a call is turned away exactly when the breaker is open and the timeout since the latest failure has not passed |
| `SingleFlight.OutcomeHasCause` | proxy/origin.go:88-132 | a call ends as circuit open, cancelled or timed out only because it was, and with a reply only as leader or follower |
| `SingleFlight.FollowerOutcome` | proxy/origin.go:94-108 | a follower returns the joined flight's result, or its own cancellation or timeout |
| `SingleFlight.FollowerIsServed` | proxy/origin.go:94-125 | a follower's result is ready or its leader has a step left towards closing `done` |
| `SingleFlight.LeaderCanSignal` | proxy/origin.go:110-125 | from every reachable state a leader alone can run to closing `done` |
| `SingleFlight.FollowerCanReturn` | proxy/origin.go:94-125 | every reachable state extends to one in which a given follower has returned the reply of the flight it joined |
| `Breaker.CountersExact` | proxy/circuit.go:65-89 | after any history `failures` is the trailing failure run, `lastFailure` the latest failure, and closed means a run below the threshold |
| `Breaker.AdmitsIff` | proxy/circuit.go:44-62 | a closed or half-open breaker admits, an open one exactly after the timeout |
| `Breaker.PhaseAfter` | proxy/circuit.go:44-89 | what each event does to the phase after any history: a closed breaker opens exactly at the threshold of consecutive failures |
| `Breaker.FailuresOpen` | proxy/circuit.go:79-89 | the latest of enough consecutive failures opens the breaker |
| `Breaker.ClosedAllAlongIff` | proxy/circuit.go:44-89 | the breaker was closed all along exactly when no run of failures reached the threshold |
| `Breaker.OpenAdmitsAfterTimeout` | proxy/circuit.go:44-62 | an open breaker admits exactly when more than the timeout has passed since the latest failure, and only then turns half-open |
| `Breaker.HalfOpenHasEntry` | proxy/circuit.go:44-76 | every half-open state was entered by such an admission, with no failure and too few successes since |
| `Breaker.ClosingStep` | proxy/circuit.go:65-76 | closing takes exactly successThreshold successes in one half-open phase without a failure |
| `Breaker.RecoveryOnlyThroughHalfOpen` | proxy/circuit.go:44-89 | between any open and any later closed state lies such a half-open phase |
| `Breaker.RecoverySuffices` | proxy/circuit.go:44-89 | such a phase closes the breaker as soon as the successes suffice |
| `Breaker.CircuitBreaker.AllowRequest` | proxy/circuit.go:44-62 | the in-place method is one step of the history model |
| `Breaker.CircuitBreaker.RecordSuccess` | proxy/circuit.go:65-76 | the in-place method is one step of the history model |
| `Breaker.CircuitBreaker.RecordFailure` | proxy/circuit.go:79-89 | the in-place method is one step of the history model |
| `Handshake.ChannelsStep` | handshake/offload.go:120-195 | every step keeps the channel discipline: no send on a closed channel, no double close |
| `Handshake.ConservedStep` | handshake/offload.go:120-195 | every step keeps the balance of accepted connections and the queue gauge |
| `Handshake.OwnedStep` | handshake/offload.go:120-262 | every step keeps each accepted connection in exactly one place |
| `Handshake.RunSafe` | handshake/offload.go:120-262 | all three hold in every interleaving of any number of workers over channels of any capacity |
| `Handshake.LoopNeverWaits` | handshake/offload.go:120-165 | in every run the accept loop can queue or drop what it holds, and drops for want of room only when the inbox is full |
| `Handshake.WorkerBlockedIff` | handshake/offload.go:171-195 | in every reachable state a worker is blocked exactly when it is gone, waits on an empty open inbox, or on a full outbox before shutdown |
| `Handshake.ForwardingBlockedIff` | handshake/offload.go:144-149 | a forwarded accept error waits exactly for room in a full outbox before shutdown |
| `Handshake.ChannelsAreFifo` | handshake/offload.go:120-262 | in every run connections are taken up in the order queued and come out in the order handed over |
| `HandshakeShutdown.StrandedNeedsMore` | handshake/offload.go:171-195 | a finished shutdown with a non-empty inbox accepted more connections than there are workers |
| `HandshakeShutdown.AfterShutdown` | handshake/offload.go:243-262 | after shutdown a connection was delivered or closed exactly once, or sits in the inbox; never the latter with at most as many connections as workers |
| `HandshakeShutdown.ShutdownCanStrand` | handshake/offload.go:188-193 | for every pool and every set of more connections than workers, a run accepts exactly those and strands one |
| `HandshakeShutdown.StrandsIff` | handshake/offload.go:120-262 | a shutdown after accepting a set of connections can strand one exactly when they are more than the workers |
| `Predictor.SizingTerminatesIff` | cache/predictor.go:58-71 | the 32-bit doubling loop terminates exactly for capacities that are not positive or at most 2^28 modulo 2^29 |
| `Predictor.CapacitiesUpTo28Terminate` | cache/predictor.go:58-71 | it does for every capacity up to 2^28 |
| `Predictor.NextCapacityDiverges` | cache/predictor.go:58-71 | for 2^28 + 1 no number of doublings reaches the target |
| `Predictor.ComputeBits` | cache/predictor.go:58-71 | the loop yields the least suitable power of two |
| `Predictor.TargetIs` | cache/predictor.go:58-66 | the target is eight counters per key, for 1024 keys by default |
| `Predictor.PositionsDiffer` | cache/predictor.go:86-103 | a key's two cells are always different |
| `Predictor.PositionsAreMod` | cache/predictor.go:86-103 | they are the halves of the hash modulo the number of counters, the second moved on if they are equal |
| `Predictor.RunKeepsInv` | cache/predictor.go:112-196 | in every interleaving each active and shadow cell is min(255, increments of its epoch that hit it) |
| `Predictor.LookupAnswers` | cache/predictor.go:146-174 | a lookup begun after two finished marks reports the key, and a report means each cell reached the threshold |
| `Predictor.OneMarkIsNotReported` | cache/predictor.go:146-174 | no lookup reports a key one of whose cells at most one mark ever had a position at |
| `Predictor.CellsCount` | cache/predictor.go:105-140 | every cell counts the increments of its epoch and stops at 255 |
| `Predictor.TwoMarksPersist` | cache/predictor.go:181-196 | two finished marks stay on record until the second rotation after them |
| `Predictor.MarkedIsReported` | cache/predictor.go:112-196 | any lookup begun after two finished marks of its key, with at most one rotation between, reports the key in every interleaving |
| `Predictor.TwoQuietRotationsClear` | cache/predictor.go:181-196 | two rotations without marks between them clear every cell |
| `Predictor.QuietReportsNothing` | cache/predictor.go:146-196 | after them, until the next mark begins, no lookup reports any key |
| `Predictor.IncrementAlone` | cache/predictor.go:112-140 | a mark that meets no contention performs one saturating increment per cell |
| `Predictor.Filter.MarkUncacheable` | cache/predictor.go:112-140 | in place, bumps exactly the key's two cells of the active bucket |
| `Predictor.Filter.IsLikelyUncacheable` | cache/predictor.go:146-174 | reports exactly when at both cells one of the buckets reaches the threshold |
| `Predictor.Filter.Rotate` | cache/predictor.go:181-196 | clears the bucket that becomes active and keeps the other |
| `RateLimit.SweepUnobservable` | ratelimit/ratelimit.go:36-75 | if 300 seconds refill a bucket, the sweep changes no answer of any run |
| `RateLimit.SweepObservable` | ratelimit/ratelimit.go:62-75 | otherwise an ordered run exists on which it does |
| `RateLimit.SweepUnobservableIff` | ratelimit/ratelimit.go:36-75 | the sweep is unobservable exactly under that condition, or when the burst allows nothing |
| `RateLimit.RateBound` | ratelimit/ratelimit.go:36-75 | for every IP and interval, allowed requests number at most burst + rps * elapsed under that condition |
| `RateLimit.AllowedExactly` | ratelimit/ratelimit.go:36-75 | a request is allowed exactly when over every stretch of the run that ends with it the allowed requests of its IP and this one number at most burst + rps * elapsed |
| `RateLimit.SweptIff` | ratelimit/ratelimit.go:62-75 | the sweep deletes exactly the buckets idle for more than 300 seconds |
| `RateLimit.Limiter.Allow` | ratelimit/ratelimit.go:36-60 | answer and new bucket are those of the model |
| `RateLimit.Limiter.Cleanup` | ratelimit/ratelimit.go:62-75 | the loop deletes exactly the buckets idle for more than 300 seconds |
| `Balancer.ExpandedByWeight` | proxy/balancer.go:72-80 | the weighted list holds each backend exactly Weight times, at least once |
| `Balancer.ErrorIffNoneHealthy` | proxy/balancer.go:95-110 | with a counter that does not wrap the error is returned exactly when no backend is healthy |
| `Balancer.WordErrorIff` | proxy/balancer.go:95-110 | with the 64-bit counter it is exactly when no backend at a drawn position is; which positions a wrap leaves out, and that it leaves out none exactly without a wrap or for a list length dividing 2^64 |
| `Balancer.WrapSkipsHealthy` | proxy/balancer.go:95-110 | at the last counter value three backends, the last one healthy, yield the error |
| `Balancer.PicksAgree` | proxy/balancer.go:95-110 | until the wrap, and for a list length dividing 2^64 for ever, picks with the 64-bit counter are those with an unbounded one |
| `Balancer.PicksFilterTheCycle` | proxy/balancer.go:95-110 | with fixed health and a counter that does not wrap, consecutive picks are the healthy-filtered cyclic reading of the list |
| `Balancer.OneTurnIsFair` | proxy/balancer.go:72-110 | any H consecutive calls, H the healthy weight, choose each healthy backend exactly Weight times and no other, with the 64-bit counter unless it wraps among them |
| `Balancer.HealthFollowsProbes` | proxy/healthcheck.go:103-125 | a backend is healthy exactly when its last `threshold` probes did not all fail |
| `Balancer.DefaultIsThree` | proxy/healthcheck.go:32-46 | without a threshold of its own that is the last three |
| `Balancer.NextAvoidsFailing` | proxy/balancer.go:84-110 | Next never returns a backend whose last `threshold` probes all failed |
| `BalancerRace.RunHistory` | proxy/balancer.go:95-129 | in every interleaving with marks at any moment, a pick was healthy when its call looked and what it found before was not; an error means as many looks as the list is long, each at a backend unhealthy at that moment |
| `BalancerRace.AloneErrorSawAllDown` | proxy/balancer.go:95-129 | if no other call draws meanwhile and the counter does not wrap, an error means that every backend of the list was found unhealthy, however health changed |
| `BalancerRace.RunOk` | proxy/balancer.go:95-110 | with fixed health, in every interleaving a pick is a healthy backend of the list, and an error means that some backend is not healthy or that there is none |
| `BalancerRace.AloneIsNext` | proxy/balancer.go:95-110 | a call whose draws no other interrupts ends as the sequential search, so unless the counter wraps it errs exactly when none is healthy |
| `BalancerRace.CanExhaust` | proxy/balancer.go:95-110 | from every reachable state the other calls can make a call draw one unhealthy position until it gives up |
| `BalancerRace.CanFailIff` | proxy/balancer.go:95-110 | with fixed health some interleaving makes a call err exactly when the list is empty or one backend in it is not healthy |
| `Balancer.Pool.BuildWeightedList` | proxy/balancer.go:72-80 | the nested loops build the weighted list |
| `Balancer.Pool.NextRoundRobin` | proxy/balancer.go:95-110 | the retry loop is the specified bounded search with the 64-bit counter, new counter included |
| `Balancer.HealthChecker.RecordFailure` | proxy/healthcheck.go:103-113 | in place, one failed probe of the history model |
| `Balancer.HealthChecker.RecordSuccess` | proxy/healthcheck.go:115-125 | in place, one successful probe of the history model |
| `RangeHeader.ParseRange` | handler/range.go:15-83 | every accepted range satisfies 0 <= start <= end < length |
| `RangeHeader.RefusedHeaders` | handler/range.go:15-40 | a header without `bytes=`, with a comma or without a dash is refused |
| `RangeHeader.BlanksIgnored` | handler/range.go:28-43 | blanks around the numbers and the dash change nothing |
| `RangeHeader.AtoiItoa` | handler/range.go:46-75 | printed numbers parse back, exactly up to the largest int |
| `RangeHeader.AtoiShape` | handler/range.go:46-75 | a number is digits with at most one sign |
| `RangeHeader.AtoiSigned` | handler/range.go:46-75 | a plus changes nothing and a minus negates, within the int range |
| `RangeHeader.ParseBounded` | handler/range.go:58-83 | `bytes=a-b` is accepted exactly when a is inside and a <= b, and selects a to b clamped |
| `RangeHeader.ParseOpen` | handler/range.go:58-70 | `bytes=a-` is accepted exactly when a is inside, and selects a to the end |
| `RangeHeader.ParseSuffix` | handler/range.go:42-56 | `bytes=-k` selects the last k bytes or the whole body |
| `RangeHeader.ServedLength` | handler/range.go:86-106 | Content-Length parses to the length of the body written |
| `RangeHeader.ContentRangeNames` | handler/range.go:86-106 | status 206 and a Content-Range whose range parses back to the one served and whose total is the body length |
| `RangeHeader.PartitionReassembles` | handler/range.go:86-106 | for any partition of a body into consecutive ranges the served bodies concatenate to it |
| `ControlPlane.RulesNameDomains` | controlplane/store/store.go:132-290 | in every reachable store every cache rule names an existing domain |
| `ControlPlane.CarefulRuns` | controlplane/store/store.go:167-255 | while updates keep hostname and tenant, every domain has an existing tenant and hostnames are unique |
| `ControlPlane.TenantCascade` | controlplane/store/store.go:132-151 | deleting a tenant removes exactly its domains and exactly their rules |
| `ControlPlane.DomainCascade` | controlplane/store/store.go:241-255 | deleting a domain removes it and exactly its rules |
| `ControlPlane.EqualVersionsEqualStores` | controlplane/store/store.go:73-80 | versions never decrease and equal versions mean equal stores |
| `ControlPlane.RefusedIff` | controlplane/store/store.go:96-335 | a call fails and changes nothing exactly when what it names is missing or a new hostname is taken; any other takes the next version |
| `ControlPlane.StaysUntouched` | controlplane/store/store.go:96-335 | in every run a rule or domain stays as it is until a call names it or deletes its domain or tenant |
| `ControlPlane.PublishedIsSound` | controlplane/store/store.go:340-369 | every published domain is active with an existing active tenant, each such domain's name is published, every rule is listed under an existing domain |
| `ControlPlane.CreatedIsPublished` | controlplane/store/store.go:167-195 | a domain accepted for an active tenant is what every snapshot publishes under its hostname, with its defaults |
| `ControlPlane.DeletedIsUnpublished` | controlplane/store/store.go:241-255 | while hostnames are unique, no snapshot after a deletion publishes the hostname or lists the rules |
| `ControlPlane.UpdateShown` | controlplane/store/store.go:230-239 | every snapshot shows an updated domain with its new content and name only, exactly if it and its tenant are active; nothing else changes |
| `ControlPlane.RuleShown` | controlplane/store/store.go:340-369 | every snapshot lists exactly the stored rules, each under its domain |
| `ControlPlane.RuleCreated` | controlplane/store/store.go:259-268 | a new rule is stored with its content and listed in every snapshot, nothing else changes |
| `ControlPlane.RuleDeleted` | controlplane/store/store.go:282-290 | a deleted rule is gone from the store and from every snapshot, nothing else changes |
| `ControlPlane.TenantCreated` | controlplane/store/store.go:96-110 | a tenant is stored active with its name and key beside the others |
| `ControlPlane.EdgeRegistered` | controlplane/store/store.go:294-307 | an edge is stored active with its clock reading beside the others |
| `ControlPlane.HeartbeatMoves` | controlplane/store/store.go:319-328 | a heartbeat moves the last-seen time of one edge only |
| `ControlPlane.EdgeDeleted` | controlplane/store/store.go:330-335 | deleting an edge removes it only |
| `ControlPlane.UnambiguousSnapshots` | controlplane/store/store.go:340-369 | two snapshots of a store without shared hostnames are equal up to rule order |
| `ControlPlane.SnapshotDeterminedIff` | controlplane/store/store.go:340-369 | a store determines its snapshot up to rule order exactly when no two publishable domains share a hostname |
| `ControlPlane.UpdateCanClash` | controlplane/store/store.go:230-239 | an update taking another published hostname is accepted and makes the snapshot ambiguous |
| `ControlPlane.ThreeCallsToTwoDomains` | controlplane/store/store.go:96-195 | a new store reaches two publishable domains in three calls |
| `ControlPlane.Store.AddTenant` | controlplane/store/store.go:96-110 | the new store is that of the model |
| `ControlPlane.Store.RemoveTenant` | controlplane/store/store.go:132-151 | the nested cascading loops compute the specified deletion; a missing tenant changes nothing |
| `ControlPlane.Store.AddDomain` | controlplane/store/store.go:167-195 | fails exactly for a missing tenant or taken hostname; otherwise stores the domain with its defaults |
| `ControlPlane.Store.ReplaceDomain` | controlplane/store/store.go:230-239 | replaces the domain, failing exactly when it is missing |
| `ControlPlane.Store.RemoveDomain` | controlplane/store/store.go:241-255 | removes the domain and exactly its rules |
| `ControlPlane.Store.AddRule` | controlplane/store/store.go:259-268 | stores the rule, failing exactly for a missing domain |
| `ControlPlane.Store.RemoveRule` | controlplane/store/store.go:282-290 | removes the rule, failing exactly when it is missing |
| `ControlPlane.Store.AddNode` | controlplane/store/store.go:294-307 | registers an edge and takes the next version |
| `ControlPlane.Store.TouchNode` | controlplane/store/store.go:319-328 | records a heartbeat, failing exactly for an unknown edge |
| `ControlPlane.Store.RemoveNode` | controlplane/store/store.go:330-335 | removes an edge; succeeds and saves even if it is unknown |
| `ControlPlane.Store.BuildEdgeConfig` | controlplane/store/store.go:340-369 | the loops return a snapshot of the store, whatever the iteration order |
| `EdgePoller.EdgeVersionMonotone` | handler/multitenant.go:456-493 | in a poll-only run the edge's version never decreases |
| `EdgePoller.EdgeHoldsSnapshot` | handler/multitenant.go:456-493 | the edge always holds a snapshot of a store of its version, the current one if the versions agree |
| `EdgePoller.EdgeAnswers` | handler/multitenant.go:356-376 | a lookup finds a domain for exactly the names publishable in the store the edge holds, as stored, and for every domain its stored rules, each once |
| `EdgePoller.PollCatchesUp` | handler/multitenant.go:456-493 | a poll that no store call overtakes leaves the edge with the current store |
| `EdgePoller.DeliveryAgrees` | handler/multitenant.go:356-376 | after a delivered poll the edge answers every lookup as the fetched snapshot, if it was newer or its store unambiguous |
| `EdgePoller.PollAgreesIff` | handler/multitenant.go:456-493 | every possible poll does so exactly under that condition |
| `EdgePoller.CarefulPollsReplicate` | handler/multitenant.go:456-493 | while updates keep hostname and tenant, every delivered poll does so |
| `EdgePoller.Edge.Poll` | handler/multitenant.go:456-493 | does to the edge what a delivery does in the poll machine: a newer response is applied, any other changes nothing |

## Left out

- CacheStore.Cache.Get: the object is used sequentially, and the laws of whole runs in CacheRuns, CacheRecency and CacheAdmission are about sequential runs; CacheRace treats the overlap of lookups, puts and deletes, without Purge. Hit and miss counters are not modelled.
- CacheKey.NormalizeKey: text is a sequence of characters; a byte that is not valid UTF-8 can only be taken as a character of its own, which the library's lower case maps to U+FFFD. How such bytes sort, and that they may join across the parts of a key, is not modelled.
- CacheKey.SeparatesIff: does not decide Vary headers that name several headers and each of them at least twice. Some of these collide (`CacheKey.OddTwiceCollides`); in general it is a question about word equations such as x^m y^k = u^m v^k.
- CacheModel.Spill: the disk is a map from key to entry with injective paths and working removal; zstd, gob, JSON and SHA-256 are not modelled, so the size of an encoded file is a parameter.
- RateLimit.RateBound: tokens and time are reals; floating-point rounding is not modelled.
- Balancer.Pool.NextRoundRobin: backends are identified by position, and the random strategy is left out.
- Stampede.ReachableInv: the lock, the entries, the streams and the cache are one value changed by steps rather than objects; separation of Vary variants is not claimed, since lock and flight keys ignore Vary.
- StampedeRuns.WaiterOutcome: only waiters are followed to what they serve; a fetcher that fails also turns to the cache, which is not modelled, and the age of a stale entry is left to the cache model.
- SingleFlight.ReachableInv: flights and calls are one value changed by steps rather than objects.
- Handshake.RunSafe: channels and counters are one value changed by steps rather than objects; the TLS handshake itself is a choice of outcome.
- Predictor.RunKeepsInv: the compare-and-swap interleavings are a state machine on values; the class `Filter` models calls that do not overlap.
- EdgePoller.EdgeVersionMonotone: configuration pushed by the control plane applies any version and is not part of the run.
- ControlPlane.RulesNameDomains: reloading the store file and callers that mutate returned pointers are not modelled.
- Header compression, ETags and waiter counts: foreign codecs and counters only.
- `main`, configuration, logging, tracing, compression, middleware, upgrades, metrics, analytics, certificates, dashboard, purge and warm handlers: plumbing.
