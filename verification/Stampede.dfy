/** Request collapsing in the handler: the stampede lock, the streaming entry the fetcher
    publishes through it, the waiters that read along, and the cache they fall back to, under
    every interleaving of any number of requests for any number of keys. */
module Stampede {
  import opened Common
  import opened Streaming

  /** How the origin fetch ended for the handler. */
  datatype Origin = FetchFailed | Uncacheable | Cacheable(body: string)

  /** A cached body and the request whose fetch stored it; none if a background revalidation did. */
  datatype Cached = Cached(body: string, writer: Option<nat>)

  /** What a waiter served: the bytes it streamed, a finished entry, an entry found in the cache after a
      failed fetch, or an error. */
  datatype Served = Streamed(bytes: string, clean: bool) | Whole(body: string) | Stale(found: Cached) | Nothing

  /** Program counters. The first group is the fetcher's, in order; `lock` is the lock entry it created. */
  datatype Pc =
    | Fetching(lock: nat)
    | Fetched(lock: nat, origin: Origin)
    | Publishing(lock: nat, stream: nat, body: string, found: Option<nat>)
    | Readying(lock: nat, stream: nat, body: string, target: nat)
    | Writing(lock: nat, stream: nat, body: string, off: nat)
    | Closed(lock: nat, stream: nat)
    | Caching(lock: nat, entry: Option<string>)
    | Varying(lock: nat, stored: string)
    | Releasing(lock: nat, entry: Option<string>, err: bool)
    | Signalling(lock: nat, target: nat)
    | FetcherDone(lock: nat)
    | Arrived
    | Waiting(lock: nat)
    | Reading(lock: nat, stream: nat, out: string)
    | FallingBack(lock: nat)
    | WaiterDone(lock: nat, served: Served)

  datatype Request = Request(key: string, pc: Pc)

  /** A lock entry. `owner` and `origin` record who created it and how its fetch ended. */
  datatype LockEntry = LockEntry(
    key: string, owner: nat, origin: Option<Origin>,
    done: bool, ready: bool, entry: Option<string>, stream: Option<nat>, err: bool)

  /** `maker` is the lock entry each stream was opened under, `asleep` holds the readers inside the condition wait;
      `panicked` is set by a double close, an early ToEntry or a missing entry. */
  datatype State = State(
    requests: map<nat, Request>,
    locks: map<string, nat>,
    entries: map<nat, LockEntry>,
    streams: map<nat, Stream>,
    maker: map<nat, nat>,
    asleep: set<nat>,
    cache: map<string, Cached>,
    panicked: bool)

  const INITIAL: State := State(map[], map[], map[], map[], map[], {}, map[], false)

  /** A step of one request, or of the cache: a background revalidation stores a body, or an entry disappears
      (evicted, expired, deleted). `kept` is whether the cache accepted a put. The key of a `StoreVariant` is the one
      that the Vary header of the response and the request's headers yield, whatever it is. */
  datatype Step =
    | Arrive(req: nat, key: string)
    | Acquire(req: nat, id: nat)
    | OriginReply(req: nat, origin: Origin)
    | GiveUp(req: nat)
    | OpenStream(req: nat, id: nat)
    | Publish(req: nat)
    | MakeReady(req: nat)
    | WriteChunk(req: nat)
    | CloseStream(req: nat)
    | Convert(req: nat)
    | Store(req: nat, kept: bool)
    | StoreVariant(req: nat, key: string, kept: bool)
    | Release(req: nat)
    | SignalDone(req: nat)
    | WakeReady(req: nat)
    | WakeDone(req: nat)
    | Read(req: nat)
    | Fallback(req: nat)
    | Revalidate(key: string, body: string)
    | Evict(key: string)

  predicate EarlyStep(step: Step) {
    step.OriginReply? || step.GiveUp? || step.OpenStream? || step.Publish? || step.MakeReady?
  }

  predicate LateStep(step: Step) {
    || step.WriteChunk? || step.CloseStream? || step.Convert? || step.Store? || step.StoreVariant? || step.Release?
    || step.SignalDone?
  }

  predicate CacheStep(step: Step) {
    step.Revalidate? || step.Evict?
  }

  predicate Enabled(s: State, step: Step) {
    if CacheStep(step) then true
    else if step.Arrive? then step.req !in s.requests
    else
      && step.req in s.requests
      && var pc := s.requests[step.req].pc;
         match step
         case Acquire(_, id) => pc.Arrived? && id !in s.entries
         case OriginReply(_, _) => pc.Fetching? && pc.lock in s.entries
         case GiveUp(_) => pc.Fetched? && !pc.origin.Cacheable?
         case OpenStream(_, id) => pc.Fetched? && pc.origin.Cacheable? && id !in s.streams
         case Publish(_) => pc.Publishing? && (pc.found.Some? ==> pc.found.value in s.entries)
         case MakeReady(_) => pc.Readying? && pc.target in s.entries
         case WriteChunk(_) => pc.Writing? && pc.off < |pc.body| && pc.stream in s.streams
         case CloseStream(_) => pc.Writing? && pc.off >= |pc.body| && pc.stream in s.streams
         case Convert(_) => pc.Closed? && pc.stream in s.streams
         case Store(_, _) => pc.Caching?
         case StoreVariant(_, _, _) => pc.Varying?
         case Release(_) =>
           pc.Releasing? && (s.requests[step.req].key in s.locks ==> s.locks[s.requests[step.req].key] in s.entries)
         case SignalDone(_) => pc.Signalling? && pc.target in s.entries
         case WakeReady(_) => pc.Waiting? && pc.lock in s.entries && s.entries[pc.lock].ready
         case WakeDone(_) => pc.Waiting? && pc.lock in s.entries && s.entries[pc.lock].done
         case Read(_) => pc.Reading? && pc.stream in s.streams && step.req !in s.asleep
         case Fallback(_) => pc.FallingBack?
  }

  function Goto(s: State, r: nat, pc: Pc): (t: State)
    requires r in s.requests
  {
    s.(requests := s.requests[r := s.requests[r].(pc := pc)])
  }

  predicate ReadsFrom(s: State, r: nat, stream: nat) {
    r in s.requests && s.requests[r].pc.Reading? && s.requests[r].pc.stream == stream
  }

  /** Replaces a stream and wakes every reader waiting on it. */
  function Broadcast(s: State, id: nat, stream: Stream): (t: State) {
    s.(streams := s.streams[id := stream], asleep := set r | r in s.asleep && !ReadsFrom(s, r, id))
  }

  function ChunkEnd(off: nat, total: nat): (r: nat) {
    if off + CHUNK > total then total else off + CHUNK
  }

  /** What a woken waiter does with the stream and entry it was handed. */
  function Receive(lock: nat, stream: Option<nat>, entry: Option<string>): (pc: Pc) {
    if stream.Some? then Reading(lock, stream.value, "")
    else if entry.Some? then WaiterDone(lock, Whole(entry.value))
    else FallingBack(lock)
  }

  function AfterArrive(s: State, r: nat, key: string): (t: State)
    requires Enabled(s, Arrive(r, key))
  {
    s.(requests := s.requests[r := Request(key, Arrived)])
  }

  /** AcquireStreaming: join the key's lock entry, or create one. */
  function AfterAcquire(s: State, r: nat, id: nat): (t: State)
    requires Enabled(s, Acquire(r, id))
  {
    var key := s.requests[r].key;
    if key in s.locks then Goto(s, r, Waiting(s.locks[key]))
    else
      var e := LockEntry(key, r, None, false, false, None, None, false);
      Goto(s.(locks := s.locks[key := id], entries := s.entries[id := e]), r, Fetching(id))
  }

  function AfterOriginReply(s: State, r: nat, o: Origin): (t: State)
    requires Enabled(s, OriginReply(r, o))
  {
    var l := s.requests[r].pc.lock;
    Goto(s.(entries := s.entries[l := s.entries[l].(origin := Some(o))]), r, Fetched(l, o))
  }

  function AfterGiveUp(s: State, r: nat): (t: State)
    requires Enabled(s, GiveUp(r))
  {
    Goto(s, r, Releasing(s.requests[r].pc.lock, None, true))
  }

  /** A new streaming entry, and the lookup under the lock in SetStreaming. */
  function AfterOpenStream(s: State, r: nat, id: nat): (t: State)
    requires Enabled(s, OpenStream(r, id))
  {
    var pc, key := s.requests[r].pc, s.requests[r].key;
    Goto(s.(streams := s.streams[id := EMPTY], maker := s.maker[id := pc.lock]), r,
         Publishing(pc.lock, id, pc.origin.body, if key in s.locks then Some(s.locks[key]) else None))
  }

  function AfterPublish(s: State, r: nat): (t: State)
    requires Enabled(s, Publish(r))
  {
    var pc := s.requests[r].pc;
    if pc.found.None? then Goto(s, r, Writing(pc.lock, pc.stream, pc.body, 0))
    else
      var l := pc.found.value;
      Goto(s.(entries := s.entries[l := s.entries[l].(stream := Some(pc.stream))]), r,
           Readying(pc.lock, pc.stream, pc.body, l))
  }

  /** Closes `streamReady`. */
  function AfterMakeReady(s: State, r: nat): (t: State)
    requires Enabled(s, MakeReady(r))
  {
    var pc := s.requests[r].pc;
    var e := s.entries[pc.target];
    Goto(s.(entries := s.entries[pc.target := e.(ready := true)], panicked := s.panicked || e.ready), r,
         Writing(pc.lock, pc.stream, pc.body, 0))
  }

  function AfterWriteChunk(s: State, r: nat): (t: State)
    requires Enabled(s, WriteChunk(r))
  {
    var pc := s.requests[r].pc;
    var end := ChunkEnd(pc.off, |pc.body|);
    Goto(Broadcast(s, pc.stream, AfterWrite(s.streams[pc.stream], pc.body[pc.off..end])), r,
         Writing(pc.lock, pc.stream, pc.body, end))
  }

  function AfterCloseStream(s: State, r: nat): (t: State)
    requires Enabled(s, CloseStream(r))
  {
    var pc := s.requests[r].pc;
    Goto(Broadcast(s, pc.stream, AfterClose(s.streams[pc.stream], None)), r, Closed(pc.lock, pc.stream))
  }

  function AfterConvert(s: State, r: nat): (t: State)
    requires Enabled(s, Convert(r))
  {
    var pc := s.requests[r].pc;
    var stream := s.streams[pc.stream];
    if !stream.complete then s.(panicked := true)
    else Goto(s, r, Caching(pc.lock, ToEntry(stream)))
  }

  function AfterStore(s: State, r: nat, kept: bool): (t: State)
    requires Enabled(s, Store(r, kept))
  {
    var pc, key := s.requests[r].pc, s.requests[r].key;
    if pc.entry.None? then s.(panicked := true)
    else
      var cache := if kept then s.cache[key := Cached(pc.entry.value, Some(r))] else s.cache;
      Goto(s.(cache := cache), r, Varying(pc.lock, pc.entry.value))
  }

  /** The second put, if the key that takes Vary into account is another one. */
  function AfterStoreVariant(s: State, r: nat, key: string, kept: bool): (t: State)
    requires Enabled(s, StoreVariant(r, key, kept))
  {
    var pc := s.requests[r].pc;
    var put := kept && key != s.requests[r].key;
    var cache := if put then s.cache[key := Cached(pc.stored, Some(r))] else s.cache;
    Goto(s.(cache := cache), r, Releasing(pc.lock, Some(pc.stored), false))
  }

  /** Publishes the result and removes the lock. */
  function AfterRelease(s: State, r: nat): (t: State)
    requires Enabled(s, Release(r))
  {
    var pc, key := s.requests[r].pc, s.requests[r].key;
    if key !in s.locks then Goto(s, r, FetcherDone(pc.lock))
    else
      var l := s.locks[key];
      Goto(s.(entries := s.entries[l := s.entries[l].(entry := pc.entry, err := pc.err)], locks := s.locks - {key}), r,
           Signalling(pc.lock, l))
  }

  /** Closes `done`. */
  function AfterSignalDone(s: State, r: nat): (t: State)
    requires Enabled(s, SignalDone(r))
  {
    var pc := s.requests[r].pc;
    var e := s.entries[pc.target];
    Goto(s.(entries := s.entries[pc.target := e.(done := true)], panicked := s.panicked || e.done), r,
         FetcherDone(pc.lock))
  }

  function AfterWakeReady(s: State, r: nat): (t: State)
    requires Enabled(s, WakeReady(r))
  {
    var l := s.requests[r].pc.lock;
    Goto(s, r, Receive(l, s.entries[l].stream, None))
  }

  function AfterWakeDone(s: State, r: nat): (t: State)
    requires Enabled(s, WakeDone(r))
  {
    var l := s.requests[r].pc.lock;
    var e := s.entries[l];
    Goto(s, r, if e.err then FallingBack(l) else Receive(l, e.stream, e.entry))
  }

  /** One pass of the reader's loop; a blocked reader sleeps until the next broadcast. */
  function AfterRead(s: State, r: nat): (t: State)
    requires Enabled(s, Read(r))
  {
    var pc := s.requests[r].pc;
    match ReadAt(s.streams[pc.stream], |pc.out|, CHUNK)
    case Data(bytes) => Goto(s, r, Reading(pc.lock, pc.stream, pc.out + bytes))
    case Eof => Goto(s, r, WaiterDone(pc.lock, Streamed(pc.out, true)))
    case Failed(_) => Goto(s, r, WaiterDone(pc.lock, Streamed(pc.out, false)))
    case Block => s.(asleep := s.asleep + {r})
  }

  /** The cache lookup of a waiter that was handed nothing. */
  function AfterFallback(s: State, r: nat): (t: State)
    requires Enabled(s, Fallback(r))
  {
    var l, key := s.requests[r].pc.lock, s.requests[r].key;
    Goto(s, r, WaiterDone(l, if key in s.cache then Stale(s.cache[key]) else Nothing))
  }

  function Apply(s: State, step: Step): (t: State)
    requires Enabled(s, step)
  {
    match step
    case Arrive(r, key) => AfterArrive(s, r, key)
    case Acquire(r, id) => AfterAcquire(s, r, id)
    case OriginReply(r, o) => AfterOriginReply(s, r, o)
    case GiveUp(r) => AfterGiveUp(s, r)
    case OpenStream(r, id) => AfterOpenStream(s, r, id)
    case Publish(r) => AfterPublish(s, r)
    case MakeReady(r) => AfterMakeReady(s, r)
    case WriteChunk(r) => AfterWriteChunk(s, r)
    case CloseStream(r) => AfterCloseStream(s, r)
    case Convert(r) => AfterConvert(s, r)
    case Store(r, kept) => AfterStore(s, r, kept)
    case StoreVariant(r, key, kept) => AfterStoreVariant(s, r, key, kept)
    case Release(r) => AfterRelease(s, r)
    case SignalDone(r) => AfterSignalDone(s, r)
    case WakeReady(r) => AfterWakeReady(s, r)
    case WakeDone(r) => AfterWakeDone(s, r)
    case Read(r) => AfterRead(s, r)
    case Fallback(r) => AfterFallback(s, r)
    case Revalidate(key, body) => s.(cache := s.cache[key := Cached(body, None)])
    case Evict(key) => s.(cache := s.cache - {key})
  }

  /** The state after a sequence of steps, if each was enabled in turn. */
  function Run(steps: seq<Step>): (r: Option<State>) {
    if steps == [] then Some(INITIAL)
    else
      var n := |steps| - 1;
      var t := Run(steps[..n]);
      if t.Some? && Enabled(t.value, steps[n]) then Some(Apply(t.value, steps[n])) else None
  }

  // ---------- Invariant ----------

  /** A fetcher that has not yet released the lock. */
  predicate Holds(pc: Pc) {
    || pc.Fetching? || pc.Fetched? || pc.Publishing? || pc.Readying? || pc.Writing? || pc.Closed? || pc.Caching?
    || pc.Varying? || pc.Releasing?
  }

  predicate IsFetcher(pc: Pc) {
    Holds(pc) || pc.Signalling? || pc.FetcherDone?
  }

  /** The stream holds the first `off` bytes of the body. */
  predicate Streams(s: State, id: nat, body: string, off: nat, complete: bool) {
    id in s.streams && off <= |body| && s.streams[id] == Stream(body[..off], complete, None)
  }

  /** What an entry looks like at each position of its owner. */
  ghost predicate Phase(s: State, l: nat, e: LockEntry, pc: Pc) {
    && (e.done <==> pc.FetcherDone?)
    && (Holds(pc) ==> e.entry.None? && !e.err)
    && (pc.Fetching? ==> e.origin.None?)
    && (pc.Fetched? ==> e.origin == Some(pc.origin))
    && (pc.Publishing? ==>
          e.origin == Some(Cacheable(pc.body)) && pc.found == Some(l) && Streams(s, pc.stream, pc.body, 0, false))
    && (pc.Readying? ==>
          e.origin == Some(Cacheable(pc.body)) && pc.target == l && e.stream == Some(pc.stream) &&
          Streams(s, pc.stream, pc.body, 0, false))
    && (pc.Writing? ==>
          e.origin == Some(Cacheable(pc.body)) && e.stream == Some(pc.stream) &&
          Streams(s, pc.stream, pc.body, pc.off, false))
    && (pc.Closed? ==> e.stream == Some(pc.stream))
    && (pc.Fetching? || pc.Fetched? || pc.Publishing? ==> e.stream.None? && !e.ready)
    && (pc.Readying? ==> !e.ready)
    && (pc.Writing? || pc.Closed? ==> e.ready)
    && (pc.Signalling? ==> pc.target == l)
    && (pc.Closed? || pc.Caching? || pc.Varying? || pc.Releasing? || pc.Signalling? || pc.FetcherDone? ==>
          e.origin.Some? && Settled(s, e))
    && (pc.Caching? ==> e.origin.value.Cacheable? && pc.entry == Some(e.origin.value.body))
    && (pc.Varying? ==> e.origin.value == Cacheable(pc.stored))
    && (pc.Releasing? ==> pc.err == !e.origin.value.Cacheable?)
    && (pc.Releasing? && e.origin.value.Cacheable? ==> pc.entry == Some(e.origin.value.body))
    && (pc.Releasing? && !e.origin.value.Cacheable? ==> pc.entry.None?)
    && (pc.Signalling? || pc.FetcherDone? ==>
          e.err == !e.origin.value.Cacheable? &&
          e.entry == if e.origin.value.Cacheable? then Some(e.origin.value.body) else None)
  }

  /** A cacheable fetch has its whole body in a complete, published stream; any other published none. */
  ghost predicate Settled(s: State, e: LockEntry)
    requires e.origin.Some?
  {
    match e.origin.value
    case Cacheable(body) => e.ready && e.stream.Some? && Streams(s, e.stream.value, body, |body|, true)
    case FetchFailed => !e.ready && e.stream.None?
    case Uncacheable => !e.ready && e.stream.None?
  }

  ghost predicate EntryOk(s: State, l: nat)
    requires l in s.entries
  {
    var e := s.entries[l];
    && e.owner in s.requests && s.requests[e.owner].key == e.key
    && var pc := s.requests[e.owner].pc;
       && IsFetcher(pc) && pc.lock == l
       && (Holds(pc) <==> e.key in s.locks && s.locks[e.key] == l)
       && Phase(s, l, e, pc)
  }

  /** The outcome a waiter of entry e may report. */
  ghost predicate ServedOk(e: LockEntry, served: Served) {
    match served
    case Streamed(bytes, clean) => clean && e.origin == Some(Cacheable(bytes))
    case Whole(body) => e.origin == Some(Cacheable(body))
    case Stale(_) => e.origin.Some? && !e.origin.value.Cacheable?
    case Nothing => e.origin.Some? && !e.origin.value.Cacheable?
  }

  /** Requests refer to the entry they created or joined, and a reader has a prefix of its stream. */
  ghost predicate RequestOk(s: State, r: nat)
    requires r in s.requests
  {
    var q := s.requests[r];
    && (IsFetcher(q.pc) ==> q.pc.lock in s.entries && s.entries[q.pc.lock].owner == r)
    && (q.pc.Waiting? || q.pc.Reading? || q.pc.FallingBack? || q.pc.WaiterDone? ==>
          q.pc.lock in s.entries && s.entries[q.pc.lock].key == q.key)
    && (q.pc.Reading? ==>
          && s.entries[q.pc.lock].stream == Some(q.pc.stream) && s.entries[q.pc.lock].ready
          && q.pc.stream in s.streams && q.pc.out <= s.streams[q.pc.stream].buf)
    && (q.pc.FallingBack? ==> ServedOk(s.entries[q.pc.lock], Nothing))
    && (q.pc.WaiterDone? ==> ServedOk(s.entries[q.pc.lock], q.pc.served))
    && (r in s.asleep ==> q.pc.Reading? && q.pc.out == s.streams[q.pc.stream].buf && !s.streams[q.pc.stream].complete)
  }

  /** Streams are published through one entry only, the one their maker holds. */
  ghost predicate MakerOk(s: State, l: nat)
    requires l in s.entries
  {
    && (s.entries[l].stream.Some? ==> Made(s, s.entries[l].stream.value, l))
    && (s.entries[l].owner in s.requests && s.requests[s.entries[l].owner].pc.Publishing? ==>
          Made(s, s.requests[s.entries[l].owner].pc.stream, l))
  }

  predicate Made(s: State, stream: nat, lock: nat) {
    stream in s.streams && stream in s.maker && s.maker[stream] == lock
  }

  ghost predicate LockOk(s: State, key: string)
    requires key in s.locks
  {
    s.locks[key] in s.entries && s.entries[s.locks[key]].key == key
  }

  ghost predicate Inv(s: State) {
    && (forall r :: r in s.requests ==> RequestOk(s, r))
    && (forall l :: l in s.entries ==> EntryOk(s, l))
    && (forall l :: l in s.entries ==> MakerOk(s, l))
    && (forall key :: key in s.locks ==> LockOk(s, key))
    && s.asleep <= s.requests.Keys
    && !s.panicked
  }

  // ---------- What a step leaves alone ----------

  /** From s to t only request r moved, and it is no fetcher. */
  ghost predicate WaiterMoved(s: State, t: State, r: nat) {
    && r in t.requests && !IsFetcher(t.requests[r].pc)
    && (r in s.requests ==> !IsFetcher(s.requests[r].pc))
    && (r in s.requests ==> t.requests[r].key == s.requests[r].key)
    && (r in s.requests && !s.requests[r].pc.Arrived? ==>
          !t.requests[r].pc.Arrived? && t.requests[r].pc.lock == s.requests[r].pc.lock)
    && t.requests == s.requests[r := t.requests[r]]
    && t == s.(requests := t.requests, asleep := t.asleep)
    && t.asleep <= s.asleep + {r}
  }

  lemma {:induction false} WaiterFrame(s: State, t: State, r: nat)
    requires Inv(s) && WaiterMoved(s, t, r) && RequestOk(t, r)
    ensures Inv(t)
  {
    hide ServedOk;
    forall q | q in t.requests ensures RequestOk(t, q) {
      if q != r { assert RequestOk(s, q); }
    }
    WaiterFrameEntries(s, t, r);
    forall key | key in t.locks ensures LockOk(t, key) { assert LockOk(s, key); }
  }

  lemma {:induction false} WaiterFrameEntries(s: State, t: State, r: nat)
    requires Inv(s) && WaiterMoved(s, t, r)
    ensures forall l :: l in t.entries ==> EntryOk(t, l) && MakerOk(t, l)
  {
    hide RequestOk;
    forall l | l in t.entries ensures EntryOk(t, l) && MakerOk(t, l) {
      assert EntryOk(s, l) && MakerOk(s, l);
    }
  }

  /** From s to t only request r, the lock entry l, its stream and its place in the lock map moved. */
  ghost predicate FetcherMoved(s: State, t: State, r: nat, l: nat) {
    && r in s.requests && r in t.requests && l in t.entries
    && t.requests == s.requests[r := t.requests[r]] && t.requests[r].key == s.requests[r].key
    && t.entries == s.entries[l := t.entries[l]] && t.entries[l].owner == r && t.entries[l].key == s.requests[r].key
    && IsFetcher(t.requests[r].pc) && t.requests[r].pc.lock == l
    && (IsFetcher(s.requests[r].pc) ==> l in s.entries && s.requests[r].pc.lock == l)
    && (l in s.entries ==> IsFetcher(s.requests[r].pc) && s.entries[l].owner == r)
    && (forall id :: id in s.streams && id in s.maker && s.maker[id] != l ==>
          id in t.streams && id in t.maker && t.streams[id] == s.streams[id] && t.maker[id] == s.maker[id])
    && (forall key :: key in s.locks && s.locks[key] != l ==> key in t.locks && t.locks[key] == s.locks[key])
    && (forall key :: key in t.locks && t.locks[key] != l ==> key in s.locks && s.locks[key] == t.locks[key])
    && (forall key :: key in t.locks && t.locks[key] == l ==> key == s.requests[r].key)
    && t.asleep <= s.asleep && r !in t.asleep
  }

  /** Entries other than l. */
  lemma {:induction false} OtherEntries(s: State, t: State, r: nat, l: nat, m: nat)
    requires Inv(s) && FetcherMoved(s, t, r, l) && m in s.entries && m != l
    ensures m in t.entries && EntryOk(t, m) && MakerOk(t, m)
  {
    hide RequestOk, ServedOk;
    assert EntryOk(s, m) && MakerOk(s, m);
  }

  /** Entry l keeps its outcome and its stream, which only grows; growing or completing wakes its readers. */
  ghost predicate EntryGrows(s: State, t: State, l: nat) {
    l in s.entries ==>
      && l in t.entries
      && var d, e := s.entries[l], t.entries[l];
         && e.key == d.key && (d.origin.Some? ==> e.origin == d.origin)
         && (d.ready ==> e.ready)
         && (d.stream.Some? ==>
               && e.stream == d.stream && d.stream.value in s.streams && d.stream.value in t.streams
               && s.streams[d.stream.value].buf <= t.streams[d.stream.value].buf
               && (s.streams[d.stream.value] == t.streams[d.stream.value] ||
                   (forall q :: q in t.asleep ==> !ReadsFrom(s, q, d.stream.value))))
  }

  lemma {:induction false} OtherRequests(s: State, t: State, r: nat, l: nat, q: nat)
    requires Inv(s) && FetcherMoved(s, t, r, l) && EntryGrows(s, t, l) && q in s.requests && q != r
    ensures q in t.requests && RequestOk(t, q)
  {
    hide EntryOk, Phase;
    assert RequestOk(s, q);
    var pc := s.requests[q].pc;
    if pc.Reading? {
      assert MakerOk(s, pc.lock);
      assert pc.out <= t.streams[pc.stream].buf;
    }
  }

  /** A fetcher's step keeps the invariant once its own entry, its own request and those that joined it are in order. */
  lemma {:induction false} FetcherFrame(s: State, t: State, r: nat, l: nat)
    requires Inv(s) && FetcherMoved(s, t, r, l) && !t.panicked
    requires EntryOk(t, l) && MakerOk(t, l) && RequestOk(t, r) && EntryGrows(s, t, l)
    ensures Inv(t)
  {
    forall q | q in t.requests ensures RequestOk(t, q) {
      if q != r { OtherRequests(s, t, r, l, q); }
    }
    hide RequestOk, EntryOk, MakerOk;
    forall m | m in t.entries ensures EntryOk(t, m) && MakerOk(t, m) {
      if m != l { OtherEntries(s, t, r, l, m); }
    }
    FetcherFrameLocks(s, t, r, l);
  }

  lemma {:induction false} FetcherFrameLocks(s: State, t: State, r: nat, l: nat)
    requires Inv(s) && FetcherMoved(s, t, r, l)
    ensures forall key :: key in t.locks ==> LockOk(t, key)
  {
    hide RequestOk, EntryOk, MakerOk;
    forall key | key in t.locks ensures LockOk(t, key) {
      if key in s.locks { assert LockOk(s, key); }
    }
  }

  /** A fetcher, its entry, and what the invariant says of both. */
  ghost predicate Own(s: State, r: nat, l: nat) {
    && r in s.requests && IsFetcher(s.requests[r].pc) && s.requests[r].pc.lock == l
    && l in s.entries && s.entries[l].owner == r
    && RequestOk(s, r) && EntryOk(s, l) && MakerOk(s, l)
    && (forall key :: key in s.locks && s.locks[key] == l ==> key == s.requests[r].key)
  }

  lemma {:induction false} OwnsEntry(s: State, r: nat)
    requires Inv(s) && r in s.requests && IsFetcher(s.requests[r].pc)
    ensures Own(s, r, s.requests[r].pc.lock)
  {
    hide Phase, ServedOk;
    assert RequestOk(s, r);
    var l := s.requests[r].pc.lock;
    assert EntryOk(s, l) && MakerOk(s, l);
    forall key | key in s.locks && s.locks[key] == l ensures key == s.requests[r].key { assert LockOk(s, key); }
  }

  /** A fetcher's step in order. */
  ghost predicate FetcherStepOk(s: State, t: State, r: nat, l: nat) {
    && FetcherMoved(s, t, r, l) && EntryGrows(s, t, l)
    && EntryOk(t, l) && MakerOk(t, l) && RequestOk(t, r)
    && (!s.panicked ==> !t.panicked)
  }

  lemma {:induction false} OriginReplyMoves(s: State, r: nat, o: Origin, l: nat)
    requires Enabled(s, OriginReply(r, o)) && Own(s, r, l)
    ensures FetcherMoved(s, AfterOriginReply(s, r, o), r, l) && EntryGrows(s, AfterOriginReply(s, r, o), l)
  {
  }

  lemma {:induction false} OriginReplySettles(s: State, r: nat, o: Origin, l: nat)
    requires Enabled(s, OriginReply(r, o)) && Own(s, r, l)
    ensures var t := AfterOriginReply(s, r, o);
            && r in t.requests && l in t.entries && EntryOk(t, l) && MakerOk(t, l) && RequestOk(t, r) &&
               (!s.panicked ==> !t.panicked)
  {
  }

  lemma {:induction false} OriginReplyOk(s: State, r: nat, o: Origin, l: nat)
    requires Enabled(s, OriginReply(r, o)) && Own(s, r, l)
    ensures FetcherStepOk(s, AfterOriginReply(s, r, o), r, l)
  {
    hide Enabled, Own, AfterOriginReply, FetcherMoved, EntryGrows, EntryOk, MakerOk, RequestOk;
    OriginReplyMoves(s, r, o, l);
    OriginReplySettles(s, r, o, l);
  }

  lemma {:induction false} GiveUpOk(s: State, r: nat, l: nat)
    requires Enabled(s, GiveUp(r)) && Own(s, r, l)
    ensures FetcherStepOk(s, AfterGiveUp(s, r), r, l)
  {
  }

  lemma {:induction false} OpenStreamMoves(s: State, r: nat, id: nat, l: nat)
    requires Enabled(s, OpenStream(r, id)) && Own(s, r, l)
    ensures FetcherMoved(s, AfterOpenStream(s, r, id), r, l) && EntryGrows(s, AfterOpenStream(s, r, id), l)
  {
  }

  lemma {:induction false} OpenStreamSettles(s: State, r: nat, id: nat, l: nat)
    requires Enabled(s, OpenStream(r, id)) && Own(s, r, l)
    ensures var t := AfterOpenStream(s, r, id);
            && r in t.requests && l in t.entries && EntryOk(t, l) && MakerOk(t, l) && RequestOk(t, r) &&
               (!s.panicked ==> !t.panicked)
  {
  }

  lemma {:induction false} OpenStreamOk(s: State, r: nat, id: nat, l: nat)
    requires Enabled(s, OpenStream(r, id)) && Own(s, r, l)
    ensures FetcherStepOk(s, AfterOpenStream(s, r, id), r, l)
  {
    hide Enabled, Own, AfterOpenStream, FetcherMoved, EntryGrows, EntryOk, MakerOk, RequestOk;
    OpenStreamMoves(s, r, id, l);
    OpenStreamSettles(s, r, id, l);
  }

  lemma {:induction false} PublishOk(s: State, r: nat, l: nat)
    requires Enabled(s, Publish(r)) && Own(s, r, l)
    ensures FetcherStepOk(s, AfterPublish(s, r), r, l)
  {
  }

  lemma {:induction false} MakeReadyOk(s: State, r: nat, l: nat)
    requires Enabled(s, MakeReady(r)) && Own(s, r, l)
    ensures FetcherStepOk(s, AfterMakeReady(s, r), r, l)
  {
  }

  lemma {:induction false} WriteChunkMoves(s: State, r: nat, l: nat)
    requires Enabled(s, WriteChunk(r)) && Own(s, r, l)
    ensures FetcherMoved(s, AfterWriteChunk(s, r), r, l) && EntryGrows(s, AfterWriteChunk(s, r), l)
  {
    var pc := s.requests[r].pc;
    var end := ChunkEnd(pc.off, |pc.body|);
    assert pc.body[..pc.off] + pc.body[pc.off..end] == pc.body[..end];
    var grown := Stream(pc.body[..end], false, None);
    assert AfterWriteChunk(s, r) == Goto(Broadcast(s, pc.stream, grown), r, Writing(pc.lock, pc.stream, pc.body, end));
  }

  lemma {:induction false} WriteChunkSettles(s: State, r: nat, l: nat)
    requires Enabled(s, WriteChunk(r)) && Own(s, r, l)
    ensures var t := AfterWriteChunk(s, r);
            && r in t.requests && l in t.entries && EntryOk(t, l) && MakerOk(t, l) && RequestOk(t, r) &&
               (!s.panicked ==> !t.panicked)
  {
    var pc := s.requests[r].pc;
    var end := ChunkEnd(pc.off, |pc.body|);
    assert pc.body[..pc.off] + pc.body[pc.off..end] == pc.body[..end];
    var grown := Stream(pc.body[..end], false, None);
    assert AfterWriteChunk(s, r) == Goto(Broadcast(s, pc.stream, grown), r, Writing(pc.lock, pc.stream, pc.body, end));
  }

  lemma {:induction false} WriteChunkOk(s: State, r: nat, l: nat)
    requires Enabled(s, WriteChunk(r)) && Own(s, r, l)
    ensures FetcherStepOk(s, AfterWriteChunk(s, r), r, l)
  {
    hide Enabled, Own, AfterWriteChunk, FetcherMoved, EntryGrows, EntryOk, MakerOk, RequestOk;
    WriteChunkMoves(s, r, l);
    WriteChunkSettles(s, r, l);
  }

  lemma {:induction false} CloseStreamMoves(s: State, r: nat, l: nat)
    requires Enabled(s, CloseStream(r)) && Own(s, r, l)
    ensures FetcherMoved(s, AfterCloseStream(s, r), r, l) && EntryGrows(s, AfterCloseStream(s, r), l)
  {
  }

  lemma {:induction false} CloseStreamSettles(s: State, r: nat, l: nat)
    requires Enabled(s, CloseStream(r)) && Own(s, r, l)
    ensures var t := AfterCloseStream(s, r);
            && r in t.requests && l in t.entries && EntryOk(t, l) && MakerOk(t, l) && RequestOk(t, r) &&
               (!s.panicked ==> !t.panicked)
  {
  }

  lemma {:induction false} CloseStreamOk(s: State, r: nat, l: nat)
    requires Enabled(s, CloseStream(r)) && Own(s, r, l)
    ensures FetcherStepOk(s, AfterCloseStream(s, r), r, l)
  {
    hide Enabled, Own, AfterCloseStream, FetcherMoved, EntryGrows, EntryOk, MakerOk, RequestOk;
    CloseStreamMoves(s, r, l);
    CloseStreamSettles(s, r, l);
  }

  lemma {:induction false} ConvertOk(s: State, r: nat, l: nat)
    requires Enabled(s, Convert(r)) && Own(s, r, l)
    ensures FetcherStepOk(s, AfterConvert(s, r), r, l)
  {
    var body := s.entries[l].origin.value.body;
    assert body[..|body|] == body;
  }

  lemma {:induction false} StoreMoves(s: State, r: nat, kept: bool, l: nat)
    requires Enabled(s, Store(r, kept)) && Own(s, r, l)
    ensures FetcherMoved(s, AfterStore(s, r, kept), r, l) && EntryGrows(s, AfterStore(s, r, kept), l)
  {
  }

  lemma {:induction false} StoreSettles(s: State, r: nat, kept: bool, l: nat)
    requires Enabled(s, Store(r, kept)) && Own(s, r, l)
    ensures var t := AfterStore(s, r, kept);
            && r in t.requests && l in t.entries && EntryOk(t, l) && MakerOk(t, l) && RequestOk(t, r) &&
               (!s.panicked ==> !t.panicked)
  {
  }

  lemma {:induction false} StoreOk(s: State, r: nat, kept: bool, l: nat)
    requires Enabled(s, Store(r, kept)) && Own(s, r, l)
    ensures FetcherStepOk(s, AfterStore(s, r, kept), r, l)
  {
    hide Enabled, Own, AfterStore, FetcherMoved, EntryGrows, EntryOk, MakerOk, RequestOk;
    StoreMoves(s, r, kept, l);
    StoreSettles(s, r, kept, l);
  }

  lemma {:induction false} StoreVariantMoves(s: State, r: nat, key: string, kept: bool, l: nat)
    requires Enabled(s, StoreVariant(r, key, kept)) && Own(s, r, l)
    ensures FetcherMoved(s, AfterStoreVariant(s, r, key, kept), r, l) &&
            EntryGrows(s, AfterStoreVariant(s, r, key, kept), l)
  {
  }

  lemma {:induction false} StoreVariantSettles(s: State, r: nat, key: string, kept: bool, l: nat)
    requires Enabled(s, StoreVariant(r, key, kept)) && Own(s, r, l)
    ensures var t := AfterStoreVariant(s, r, key, kept);
            && r in t.requests && l in t.entries && EntryOk(t, l) && MakerOk(t, l) && RequestOk(t, r) &&
               (!s.panicked ==> !t.panicked)
  {
  }

  lemma {:induction false} StoreVariantOk(s: State, r: nat, key: string, kept: bool, l: nat)
    requires Enabled(s, StoreVariant(r, key, kept)) && Own(s, r, l)
    ensures FetcherStepOk(s, AfterStoreVariant(s, r, key, kept), r, l)
  {
    hide Enabled, Own, AfterStoreVariant, FetcherMoved, EntryGrows, EntryOk, MakerOk, RequestOk;
    StoreVariantMoves(s, r, key, kept, l);
    StoreVariantSettles(s, r, key, kept, l);
  }

  lemma {:induction false} ReleaseMoves(s: State, r: nat, l: nat)
    requires Enabled(s, Release(r)) && Own(s, r, l)
    ensures FetcherMoved(s, AfterRelease(s, r), r, l) && EntryGrows(s, AfterRelease(s, r), l)
  {
  }

  lemma {:induction false} ReleaseSettles(s: State, r: nat, l: nat)
    requires Enabled(s, Release(r)) && Own(s, r, l)
    ensures var t := AfterRelease(s, r);
            && r in t.requests && l in t.entries && EntryOk(t, l) && MakerOk(t, l) && RequestOk(t, r) &&
               (!s.panicked ==> !t.panicked)
  {
  }

  lemma {:induction false} ReleaseOk(s: State, r: nat, l: nat)
    requires Enabled(s, Release(r)) && Own(s, r, l)
    ensures FetcherStepOk(s, AfterRelease(s, r), r, l)
  {
    hide Enabled, Own, AfterRelease, FetcherMoved, EntryGrows, EntryOk, MakerOk, RequestOk;
    ReleaseMoves(s, r, l);
    ReleaseSettles(s, r, l);
  }

  lemma {:induction false} SignalDoneMoves(s: State, r: nat, l: nat)
    requires Enabled(s, SignalDone(r)) && Own(s, r, l)
    ensures FetcherMoved(s, AfterSignalDone(s, r), r, l) && EntryGrows(s, AfterSignalDone(s, r), l)
  {
  }

  lemma {:induction false} SignalDoneSettles(s: State, r: nat, l: nat)
    requires Enabled(s, SignalDone(r)) && Own(s, r, l)
    ensures var t := AfterSignalDone(s, r);
            && r in t.requests && l in t.entries && EntryOk(t, l) && MakerOk(t, l) && RequestOk(t, r) &&
               (!s.panicked ==> !t.panicked)
  {
  }

  lemma {:induction false} SignalDoneOk(s: State, r: nat, l: nat)
    requires Enabled(s, SignalDone(r)) && Own(s, r, l)
    ensures FetcherStepOk(s, AfterSignalDone(s, r), r, l)
  {
    hide Enabled, Own, AfterSignalDone, FetcherMoved, EntryGrows, EntryOk, MakerOk, RequestOk;
    SignalDoneMoves(s, r, l);
    SignalDoneSettles(s, r, l);
  }

  /** A request that finds no lock creates one. */
  lemma {:induction false} LeadOk(s: State, r: nat, id: nat)
    requires Enabled(s, Acquire(r, id)) && s.requests[r].key !in s.locks && RequestOk(s, r)
    requires forall key :: key in s.locks ==> s.locks[key] in s.entries
    ensures FetcherStepOk(s, AfterAcquire(s, r, id), r, id)
  {
    var e := LockEntry(s.requests[r].key, r, None, false, false, None, None, false);
    assert r !in s.asleep;
    hide RequestOk, FetcherStepOk;
    LeadMoves(s, r, id, e);
  }

  lemma {:induction false} LeadMoves(s: State, r: nat, id: nat, e: LockEntry)
    requires r in s.requests && s.requests[r].pc.Arrived? && id !in s.entries && s.requests[r].key !in s.locks &&
             r !in s.asleep
    requires forall key :: key in s.locks ==> s.locks[key] in s.entries
    requires e == LockEntry(s.requests[r].key, r, None, false, false, None, None, false)
    ensures FetcherStepOk(s, Goto(s.(locks := s.locks[e.key := id], entries := s.entries[id := e]), r,
                                  Fetching(id)), r, id)
  {
  }

  /** A waiter's step in order. */
  ghost predicate WaiterStepOk(s: State, t: State, r: nat) {
    WaiterMoved(s, t, r) && RequestOk(t, r)
  }

  /** A waiter and the entry it joined. */
  ghost predicate Joins(s: State, r: nat) {
    && r in s.requests && RequestOk(s, r)
    && (s.requests[r].pc.Waiting? || s.requests[r].pc.Reading? || s.requests[r].pc.FallingBack?)
    && s.requests[r].pc.lock in s.entries && EntryOk(s, s.requests[r].pc.lock) && MakerOk(s, s.requests[r].pc.lock)
  }

  lemma {:induction false} JoinsEntry(s: State, r: nat)
    requires Inv(s) && r in s.requests
    requires s.requests[r].pc.Waiting? || s.requests[r].pc.Reading? || s.requests[r].pc.FallingBack?
    ensures Joins(s, r)
  {
    hide Phase, ServedOk;
    assert RequestOk(s, r);
    assert EntryOk(s, s.requests[r].pc.lock) && MakerOk(s, s.requests[r].pc.lock);
  }

  lemma {:induction false} ArriveOk(s: State, r: nat, key: string)
    requires Enabled(s, Arrive(r, key)) && r !in s.asleep
    ensures WaiterStepOk(s, AfterArrive(s, r, key), r)
  {
  }

  lemma {:induction false} JoinOk(s: State, r: nat, id: nat)
    requires Enabled(s, Acquire(r, id)) && s.requests[r].key in s.locks && RequestOk(s, r) &&
             LockOk(s, s.requests[r].key)
    ensures WaiterStepOk(s, AfterAcquire(s, r, id), r)
  {
  }

  lemma {:induction false} WakeReadyOk(s: State, r: nat)
    requires Enabled(s, WakeReady(r)) && Joins(s, r)
    ensures WaiterStepOk(s, AfterWakeReady(s, r), r)
  {
  }

  lemma {:induction false} WakeDoneOk(s: State, r: nat)
    requires Enabled(s, WakeDone(r)) && Joins(s, r)
    ensures WaiterStepOk(s, AfterWakeDone(s, r), r)
  {
  }

  /** A reader at the end of a complete stream has exactly the origin's body. */
  lemma {:induction false} ReadToEnd(s: State, r: nat)
    requires Joins(s, r) && s.requests[r].pc.Reading?
    requires s.streams[s.requests[r].pc.stream].complete
    requires |s.requests[r].pc.out| >= |s.streams[s.requests[r].pc.stream].buf|
    ensures s.streams[s.requests[r].pc.stream].err == None
    ensures s.entries[s.requests[r].pc.lock].origin == Some(Cacheable(s.requests[r].pc.out))
  {
    var pc := s.requests[r].pc;
    var body := s.entries[pc.lock].origin.value.body;
    assert body[..|body|] == body;
    assert pc.out == s.streams[pc.stream].buf;
  }

  lemma {:induction false} ReaderMoves(s: State, r: nat, pc: Pc)
    requires Joins(s, r) && s.requests[r].pc.Reading? && r !in s.asleep && !IsFetcher(pc) && !pc.Arrived?
    requires pc.lock == s.requests[r].pc.lock
    requires || (pc.Reading? && pc.stream == s.requests[r].pc.stream && pc.out <= s.streams[pc.stream].buf)
             || (pc.WaiterDone? && ServedOk(s.entries[pc.lock], pc.served))
    ensures WaiterStepOk(s, Goto(s, r, pc), r)
  {
    hide EntryOk, MakerOk, ServedOk;
  }

  lemma {:induction false} ReaderSleeps(s: State, r: nat)
    requires Joins(s, r) && s.requests[r].pc.Reading?
    requires !s.streams[s.requests[r].pc.stream].complete &&
             |s.requests[r].pc.out| >= |s.streams[s.requests[r].pc.stream].buf|
    ensures WaiterStepOk(s, s.(asleep := s.asleep + {r}), r)
  {
    hide EntryOk, MakerOk, ServedOk;
    assert s.requests[r].pc.out == s.streams[s.requests[r].pc.stream].buf;
    assert s.requests == s.requests[r := s.requests[r]];
  }

  lemma {:induction false} ReadOk(s: State, r: nat)
    requires Enabled(s, Read(r)) && Joins(s, r)
    ensures WaiterStepOk(s, AfterRead(s, r), r)
  {
    var pc := s.requests[r].pc;
    assert pc.stream in s.streams && pc.out <= s.streams[pc.stream].buf && r !in s.asleep;
    hide Joins, WaiterStepOk;
    var stream := s.streams[pc.stream];
    match ReadAt(stream, |pc.out|, CHUNK)
    case Data(bytes) =>
      assert pc.out + bytes <= stream.buf;
      ReaderMoves(s, r, Reading(pc.lock, pc.stream, pc.out + bytes));
    case Eof =>
      ReadToEnd(s, r);
      ReaderMoves(s, r, WaiterDone(pc.lock, Streamed(pc.out, true)));
    case Failed(_) =>
      ReadToEnd(s, r);
      assert false;
    case Block => ReaderSleeps(s, r);
  }

  lemma {:induction false} FallbackOk(s: State, r: nat)
    requires Enabled(s, Fallback(r)) && Joins(s, r)
    ensures WaiterStepOk(s, AfterFallback(s, r), r)
  {
    hide EntryOk, MakerOk;
  }

  lemma {:induction false} CacheOnly(s: State, step: Step)
    requires Enabled(s, step) && CacheStep(step)
    ensures Apply(s, step) == s.(cache := Apply(s, step).cache)
  {
  }

  // ---------- Every step ----------

  /** A request that creates a lock entry with its Acquire. */
  predicate Leads(s: State, step: Step) {
    step.Acquire? && step.req in s.requests && s.requests[step.req].key !in s.locks
  }

  /** The entry a fetcher's step is about. */
  function LockOf(s: State, step: Step): (l: nat)
    requires Enabled(s, step) && (EarlyStep(step) || LateStep(step) || Leads(s, step))
  {
    if step.Acquire? then step.id else s.requests[step.req].pc.lock
  }

  /** Each step moves one fetcher with its entry, one waiter, or the cache. */
  ghost predicate StepOk(s: State, step: Step)
    requires Enabled(s, step)
  {
    var t := Apply(s, step);
    if CacheStep(step) then t == s.(cache := t.cache)
    else if EarlyStep(step) || LateStep(step) || Leads(s, step) then FetcherStepOk(s, t, step.req, LockOf(s, step))
    else WaiterStepOk(s, t, step.req)
  }

  lemma {:induction false} EarlySteps(s: State, step: Step, r: nat, l: nat)
    requires Enabled(s, step) && EarlyStep(step) && r == step.req && Own(s, r, l)
    ensures FetcherStepOk(s, Apply(s, step), r, l)
  {
    hide Own, FetcherStepOk, Enabled,
         AfterArrive, AfterAcquire, AfterOriginReply, AfterGiveUp, AfterOpenStream, AfterPublish,
         AfterMakeReady, AfterWriteChunk, AfterCloseStream, AfterConvert, AfterStore, AfterStoreVariant, AfterRelease,
         AfterSignalDone, AfterWakeReady, AfterWakeDone, AfterRead, AfterFallback;
    match step
    case OriginReply(_, o) => OriginReplyOk(s, r, o, l);
    case GiveUp(_) => GiveUpOk(s, r, l);
    case OpenStream(_, id) => OpenStreamOk(s, r, id, l);
    case Publish(_) => PublishOk(s, r, l);
    case MakeReady(_) => MakeReadyOk(s, r, l);
  }

  lemma {:induction false} LateSteps(s: State, step: Step, r: nat, l: nat)
    requires Enabled(s, step) && LateStep(step) && r == step.req && Own(s, r, l)
    ensures FetcherStepOk(s, Apply(s, step), r, l)
  {
    hide Own, FetcherStepOk, Enabled,
         AfterArrive, AfterAcquire, AfterOriginReply, AfterGiveUp, AfterOpenStream, AfterPublish,
         AfterMakeReady, AfterWriteChunk, AfterCloseStream, AfterConvert, AfterStore, AfterStoreVariant, AfterRelease,
         AfterSignalDone, AfterWakeReady, AfterWakeDone, AfterRead, AfterFallback;
    match step
    case WriteChunk(_) => WriteChunkOk(s, r, l);
    case CloseStream(_) => CloseStreamOk(s, r, l);
    case Convert(_) => ConvertOk(s, r, l);
    case Store(_, kept) => StoreOk(s, r, kept, l);
    case StoreVariant(_, key, kept) => StoreVariantOk(s, r, key, kept, l);
    case Release(_) => ReleaseOk(s, r, l);
    case SignalDone(_) => SignalDoneOk(s, r, l);
  }

  lemma {:induction false} FetcherSteps(s: State, step: Step)
    requires Inv(s) && Enabled(s, step) && (EarlyStep(step) || LateStep(step))
    ensures FetcherStepOk(s, Apply(s, step), step.req, s.requests[step.req].pc.lock)
  {
    var r := step.req;
    var l := s.requests[r].pc.lock;
    hide Inv, Apply, Own, FetcherStepOk;
    OwnsEntry(s, r);
    if EarlyStep(step) { EarlySteps(s, step, r, l); } else { LateSteps(s, step, r, l); }
  }

  lemma {:induction false} AcquireSteps(s: State, r: nat, id: nat)
    requires Inv(s) && Enabled(s, Acquire(r, id))
    ensures StepOk(s, Acquire(r, id))
  {
    AcquireFacts(s, r, id);
    hide Inv, Enabled, WaiterStepOk, FetcherStepOk, RequestOk,
         AfterArrive, AfterAcquire, AfterOriginReply, AfterGiveUp, AfterOpenStream, AfterPublish,
         AfterMakeReady, AfterWriteChunk, AfterCloseStream, AfterConvert, AfterStore, AfterStoreVariant, AfterRelease,
         AfterSignalDone, AfterWakeReady, AfterWakeDone, AfterRead, AfterFallback;
    if s.requests[r].key in s.locks { JoinOk(s, r, id); } else { LeadOk(s, r, id); }
  }

  lemma {:induction false} AcquireFacts(s: State, r: nat, id: nat)
    requires Inv(s) && Enabled(s, Acquire(r, id))
    ensures r in s.requests && RequestOk(s, r) && (s.requests[r].key in s.locks ==> LockOk(s, s.requests[r].key))
    ensures forall key :: key in s.locks ==> s.locks[key] in s.entries
  {
    hide EntryOk, MakerOk;
    forall key | key in s.locks ensures s.locks[key] in s.entries { assert LockOk(s, key); }
  }

  lemma {:induction false} WaiterSteps(s: State, step: Step)
    requires Inv(s) && Enabled(s, step) && !EarlyStep(step) && !LateStep(step) && !step.Acquire?
    ensures StepOk(s, step)
  {
    if CacheStep(step) {
      CacheOnly(s, step);
    } else if step.Arrive? {
      assert step.req !in s.asleep;
      hide Inv, WaiterStepOk;
      ArriveOk(s, step.req, step.key);
    } else {
      JoinsEntry(s, step.req);
      hide Inv, Joins, WaiterStepOk, Enabled,
           AfterArrive, AfterAcquire, AfterOriginReply, AfterGiveUp, AfterOpenStream, AfterPublish,
           AfterMakeReady, AfterWriteChunk, AfterCloseStream, AfterConvert, AfterStore, AfterStoreVariant, AfterRelease,
           AfterSignalDone, AfterWakeReady, AfterWakeDone, AfterRead, AfterFallback;
      match step
      case WakeReady(r) => WakeReadyOk(s, r);
      case WakeDone(r) => WakeDoneOk(s, r);
      case Read(r) => ReadOk(s, r);
      case Fallback(r) => FallbackOk(s, r);
    }
  }

  lemma {:induction false} EveryStepOk(s: State, step: Step)
    requires Inv(s) && Enabled(s, step)
    ensures StepOk(s, step)
  {
    hide Inv, Apply, FetcherStepOk, WaiterStepOk;
    if EarlyStep(step) || LateStep(step) { FetcherSteps(s, step); }
    else if step.Acquire? { AcquireSteps(s, step.req, step.id); }
    else { WaiterSteps(s, step); }
  }

  /** The invariant does not depend on the cache. */
  lemma {:induction false} CacheFrame(s: State, cache: map<string, Cached>)
    requires Inv(s)
    ensures Inv(s.(cache := cache))
  {
    var t := s.(cache := cache);
    forall r | r in t.requests ensures RequestOk(t, r) { assert RequestOk(s, r); }
    hide RequestOk;
    forall l | l in t.entries ensures EntryOk(t, l) && MakerOk(t, l) { assert EntryOk(s, l) && MakerOk(s, l); }
    forall key | key in t.locks ensures LockOk(t, key) { assert LockOk(s, key); }
  }

  lemma {:induction false} StepKeepsInv(s: State, step: Step)
    requires Inv(s) && Enabled(s, step)
    ensures Inv(Apply(s, step))
  {
    EveryStepOk(s, step);
    var t := Apply(s, step);
    hide Inv, Apply, FetcherMoved, WaiterMoved, EntryGrows, EntryOk, MakerOk, RequestOk;
    if CacheStep(step) {
      CacheFrame(s, t.cache);
    } else if EarlyStep(step) || LateStep(step) || Leads(s, step) {
      NotPanicked(s);
      FetcherFrame(s, t, step.req, LockOf(s, step));
    } else {
      WaiterFrame(s, t, step.req);
    }
  }

  lemma {:induction false} NotPanicked(s: State)
    requires Inv(s)
    ensures !s.panicked
  {
  }

  lemma {:induction false} ReachableInv(steps: seq<Step>)
    requires Run(steps).Some?
    ensures Inv(Run(steps).value)
  {
    hide Apply, Enabled;
    if steps == [] { return; }
    var n := |steps| - 1;
    ReachableInv(steps[..n]);
    hide Inv;
    StepKeepsInv(Run(steps[..n]).value, steps[n]);
  }

  // ---------- Safety over every run ----------

  /** At most one fetcher per key holds the lock, and the lock map holds exactly the entries of those fetchers. */
  lemma {:induction false} OneFetcherPerKey(steps: seq<Step>, r: nat, q: nat)
    requires Run(steps).Some?
    requires r in Run(steps).value.requests && Holds(Run(steps).value.requests[r].pc)
    ensures Run(steps).value.requests[r].key in Run(steps).value.locks
    ensures Run(steps).value.locks[Run(steps).value.requests[r].key] == Run(steps).value.requests[r].pc.lock
    ensures (&& q in Run(steps).value.requests && Holds(Run(steps).value.requests[q].pc)
             && Run(steps).value.requests[q].key == Run(steps).value.requests[r].key) ==> q == r
  {
    ReachableInv(steps);
    var s := Run(steps).value;
    hide Run, Phase;
    assert RequestOk(s, r);
    assert EntryOk(s, s.requests[r].pc.lock);
    if q in s.requests && Holds(s.requests[q].pc) {
      assert RequestOk(s, q);
      assert EntryOk(s, s.requests[q].pc.lock);
    }
  }

  /** Every key in the lock map has a live fetcher. */
  lemma {:induction false} LockHasFetcher(steps: seq<Step>, key: string) returns (r: nat)
    requires Run(steps).Some? && key in Run(steps).value.locks
    ensures r in Run(steps).value.requests && Run(steps).value.requests[r].key == key
    ensures Holds(Run(steps).value.requests[r].pc) &&
            Run(steps).value.requests[r].pc.lock == Run(steps).value.locks[key]
  {
    ReachableInv(steps);
    var s := Run(steps).value;
    hide Run, Phase, RequestOk;
    assert LockOk(s, key);
    assert EntryOk(s, s.locks[key]);
    r := s.entries[s.locks[key]].owner;
  }

  /** `done` and `streamReady` are never closed twice and ToEntry never runs before Close. */
  lemma {:induction false} NeverPanics(steps: seq<Step>)
    requires Run(steps).Some?
    ensures !Run(steps).value.panicked
  {
    ReachableInv(steps);
  }
}
