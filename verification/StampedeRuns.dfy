/** What whole runs of the request-collapsing protocol guarantee: whose outcome a waiter serves, where a
    stale answer comes from, and that every fetcher and every waiter can always finish. */
module StampedeRuns {
  import opened Common
  import opened Streaming
  import opened Stampede

  lemma {:induction false} Extend(steps: seq<Step>, step: Step)
    requires Run(steps).Some? && Enabled(Run(steps).value, step)
    ensures Run(steps + [step]) == Some(Apply(Run(steps).value, step))
  {
    assert (steps + [step])[..|steps|] == steps;
  }

  // ---------- One step at a time ----------

  // Each lemma names when one kind of step is enabled and what Apply does for it, so that no proof unfolds the others.

  lemma {:induction false} IsArrive(s: State, r: nat, key: string)
    requires Enabled(s, Arrive(r, key))
    ensures r !in s.requests
    ensures Apply(s, Arrive(r, key)) == AfterArrive(s, r, key)
  {
  }

  lemma {:induction false} IsAcquire(s: State, r: nat, id: nat)
    requires Enabled(s, Acquire(r, id))
    ensures r in s.requests && s.requests[r].pc.Arrived? && id !in s.entries
    ensures Apply(s, Acquire(r, id)) == AfterAcquire(s, r, id)
  {
  }

  lemma {:induction false} IsOriginReply(s: State, r: nat, o: Origin)
    requires Enabled(s, OriginReply(r, o))
    ensures r in s.requests && s.requests[r].pc.Fetching? && s.requests[r].pc.lock in s.entries
    ensures Apply(s, OriginReply(r, o)) == AfterOriginReply(s, r, o)
  {
  }

  lemma {:induction false} IsGiveUp(s: State, r: nat)
    requires Enabled(s, GiveUp(r))
    ensures r in s.requests && s.requests[r].pc.Fetched? && !s.requests[r].pc.origin.Cacheable?
    ensures Apply(s, GiveUp(r)) == AfterGiveUp(s, r)
  {
  }

  lemma {:induction false} IsOpenStream(s: State, r: nat, id: nat)
    requires Enabled(s, OpenStream(r, id))
    ensures r in s.requests && s.requests[r].pc.Fetched? && s.requests[r].pc.origin.Cacheable? && id !in s.streams
    ensures Apply(s, OpenStream(r, id)) == AfterOpenStream(s, r, id)
  {
  }

  lemma {:induction false} IsPublish(s: State, r: nat)
    requires Enabled(s, Publish(r))
    ensures r in s.requests && s.requests[r].pc.Publishing? &&
            (s.requests[r].pc.found.Some? ==> s.requests[r].pc.found.value in s.entries)
    ensures Apply(s, Publish(r)) == AfterPublish(s, r)
  {
  }

  lemma {:induction false} IsMakeReady(s: State, r: nat)
    requires Enabled(s, MakeReady(r))
    ensures r in s.requests && s.requests[r].pc.Readying? && s.requests[r].pc.target in s.entries
    ensures Apply(s, MakeReady(r)) == AfterMakeReady(s, r)
  {
  }

  lemma {:induction false} IsWriteChunk(s: State, r: nat)
    requires Enabled(s, WriteChunk(r))
    ensures r in s.requests && s.requests[r].pc.Writing? && s.requests[r].pc.off < |s.requests[r].pc.body| &&
            s.requests[r].pc.stream in s.streams
    ensures Apply(s, WriteChunk(r)) == AfterWriteChunk(s, r)
  {
  }

  lemma {:induction false} IsCloseStream(s: State, r: nat)
    requires Enabled(s, CloseStream(r))
    ensures r in s.requests && s.requests[r].pc.Writing? && s.requests[r].pc.off >= |s.requests[r].pc.body| &&
            s.requests[r].pc.stream in s.streams
    ensures Apply(s, CloseStream(r)) == AfterCloseStream(s, r)
  {
  }

  lemma {:induction false} IsConvert(s: State, r: nat)
    requires Enabled(s, Convert(r))
    ensures r in s.requests && s.requests[r].pc.Closed? && s.requests[r].pc.stream in s.streams
    ensures Apply(s, Convert(r)) == AfterConvert(s, r)
  {
  }

  lemma {:induction false} IsStore(s: State, r: nat, kept: bool)
    requires Enabled(s, Store(r, kept))
    ensures r in s.requests && s.requests[r].pc.Caching?
    ensures Apply(s, Store(r, kept)) == AfterStore(s, r, kept)
  {
  }

  lemma {:induction false} IsStoreVariant(s: State, r: nat, key: string, kept: bool)
    requires Enabled(s, StoreVariant(r, key, kept))
    ensures r in s.requests && s.requests[r].pc.Varying?
    ensures Apply(s, StoreVariant(r, key, kept)) == AfterStoreVariant(s, r, key, kept)
  {
  }

  lemma {:induction false} IsRelease(s: State, r: nat)
    requires Enabled(s, Release(r))
    ensures r in s.requests && s.requests[r].pc.Releasing? &&
            (s.requests[r].key in s.locks ==> s.locks[s.requests[r].key] in s.entries)
    ensures Apply(s, Release(r)) == AfterRelease(s, r)
  {
  }

  lemma {:induction false} IsSignalDone(s: State, r: nat)
    requires Enabled(s, SignalDone(r))
    ensures r in s.requests && s.requests[r].pc.Signalling? && s.requests[r].pc.target in s.entries
    ensures Apply(s, SignalDone(r)) == AfterSignalDone(s, r)
  {
  }

  lemma {:induction false} IsWakeReady(s: State, r: nat)
    requires Enabled(s, WakeReady(r))
    ensures r in s.requests && s.requests[r].pc.Waiting? && s.requests[r].pc.lock in s.entries
    ensures Apply(s, WakeReady(r)) == AfterWakeReady(s, r)
  {
  }

  lemma {:induction false} IsWakeDone(s: State, r: nat)
    requires Enabled(s, WakeDone(r))
    ensures r in s.requests && s.requests[r].pc.Waiting? && s.requests[r].pc.lock in s.entries &&
            s.entries[s.requests[r].pc.lock].done
    ensures Apply(s, WakeDone(r)) == AfterWakeDone(s, r)
  {
  }

  lemma {:induction false} IsRead(s: State, r: nat)
    requires Enabled(s, Read(r))
    ensures r in s.requests && s.requests[r].pc.Reading? && s.requests[r].pc.stream in s.streams && r !in s.asleep
    ensures Apply(s, Read(r)) == AfterRead(s, r)
  {
  }

  lemma {:induction false} IsFallback(s: State, r: nat)
    requires Enabled(s, Fallback(r))
    ensures r in s.requests && s.requests[r].pc.FallingBack?
    ensures Apply(s, Fallback(r)) == AfterFallback(s, r)
  {
  }

  // ---------- What any step does to requests and entries ----------

  /** A request keeps its key and, once attached, its lock entry and its role. */
  ghost predicate Continues(s: State, t: State, q: nat) {
    && q in s.requests && q in t.requests && t.requests[q].key == s.requests[q].key
    && (!s.requests[q].pc.Arrived? ==> !t.requests[q].pc.Arrived? && t.requests[q].pc.lock == s.requests[q].pc.lock)
    && (IsFetcher(s.requests[q].pc) ==> IsFetcher(t.requests[q].pc))
  }

  lemma {:induction false} FetcherContinues(s: State, t: State, r: nat, l: nat, q: nat)
    requires FetcherMoved(s, t, r, l) && q in s.requests && (s.requests[r].pc.Arrived? || IsFetcher(s.requests[r].pc))
    ensures Continues(s, t, q) && (q != r ==> t.requests[q] == s.requests[q])
  {
  }

  lemma {:induction false} WaiterContinues(s: State, t: State, r: nat, q: nat)
    requires WaiterMoved(s, t, r) && q in s.requests
    ensures Continues(s, t, q) && (q != r ==> t.requests[q] == s.requests[q])
  {
  }

  lemma {:induction false} StepPc(s: State, step: Step)
    requires Enabled(s, step)
    ensures EarlyStep(step) || LateStep(step) ==> step.req in s.requests && IsFetcher(s.requests[step.req].pc)
    ensures step.Acquire? ==> step.req in s.requests && s.requests[step.req].pc.Arrived?
  {
  }

  lemma {:induction false} StepRequest(s: State, step: Step, q: nat)
    requires Inv(s) && Enabled(s, step) && q in s.requests
    ensures Continues(s, Apply(s, step), q)
    ensures CacheStep(step) || step.req != q ==> Apply(s, step).requests[q] == s.requests[q]
  {
    hide Inv, Apply, FetcherMoved, WaiterMoved, EntryGrows, EntryOk, MakerOk, RequestOk, Enabled;
    EveryStepOk(s, step);
    StepPc(s, step);
    var t := Apply(s, step);
    if EarlyStep(step) || LateStep(step) || Leads(s, step) {
      FetcherContinues(s, t, step.req, LockOf(s, step), q);
    } else if !CacheStep(step) {
      WaiterContinues(s, t, step.req, q);
    }
  }

  lemma {:induction false} FetcherKeepsEntry(s: State, t: State, r: nat, l: nat, m: nat)
    requires FetcherMoved(s, t, r, l) && EntryGrows(s, t, l) && m in s.entries
    ensures m in t.entries && t.entries[m].key == s.entries[m].key && t.entries[m].owner == s.entries[m].owner
  {
  }

  lemma {:induction false} WaiterKeepsEntries(s: State, t: State, r: nat)
    requires WaiterMoved(s, t, r)
    ensures t.entries == s.entries
  {
  }

  /** Entries keep key and owner. */
  lemma {:induction false} StepEntry(s: State, step: Step, l: nat)
    requires Inv(s) && Enabled(s, step) && l in s.entries
    ensures var t := Apply(s, step);
            l in t.entries && t.entries[l].key == s.entries[l].key && t.entries[l].owner == s.entries[l].owner
  {
    hide Inv, Apply, FetcherMoved, WaiterMoved, EntryGrows, EntryOk, MakerOk, RequestOk, Enabled;
    EveryStepOk(s, step);
    if EarlyStep(step) || LateStep(step) || Leads(s, step) {
      FetcherKeepsEntry(s, Apply(s, step), step.req, LockOf(s, step), l);
    } else if !CacheStep(step) {
      WaiterKeepsEntries(s, Apply(s, step), step.req);
    }
  }

  lemma {:induction false} AcquireMakes(s: State, r: nat, id: nat, l: nat)
    requires Enabled(s, Acquire(r, id)) && l !in s.entries && l in Apply(s, Acquire(r, id)).entries
    ensures Apply(s, Acquire(r, id)).entries[l].owner == r && Apply(s, Acquire(r, id)).entries[l].origin.None?
  {
    hide Apply, Enabled;
    IsAcquire(s, r, id);
  }

  lemma {:induction false} FetcherMakesOne(s: State, t: State, r: nat, l: nat, m: nat)
    requires FetcherMoved(s, t, r, l) && m !in s.entries && m in t.entries
    ensures !IsFetcher(s.requests[r].pc)
  {
  }

  /** A new entry belongs to the request that creates it. */
  lemma {:induction false} StepNewEntry(s: State, step: Step, l: nat)
    requires Inv(s) && Enabled(s, step) && l !in s.entries && l in Apply(s, step).entries
    ensures step.Acquire? && Apply(s, step).entries[l].owner == step.req && Apply(s, step).entries[l].origin.None?
    ensures step.req in s.requests && s.requests[step.req].pc.Arrived?
  {
    hide Inv, Apply, FetcherMoved, EntryGrows, EntryOk, MakerOk, RequestOk, Enabled;
    EveryStepOk(s, step);
    StepPc(s, step);
    if EarlyStep(step) || LateStep(step) || Leads(s, step) {
      FetcherMakesOne(s, Apply(s, step), step.req, LockOf(s, step), l);
    }
    assert step.Acquire?;
    AcquireMakes(s, step.req, step.id, l);
  }

  lemma {:induction false} EarlyKeepsOrigin(s: State, step: Step, l: nat)
    requires Enabled(s, step) && EarlyStep(step) && !step.OriginReply? && l in s.entries
    ensures l in Apply(s, step).entries && Apply(s, step).entries[l].origin == s.entries[l].origin
  {
    hide Apply, Enabled;
    match step
    case GiveUp(r) => IsGiveUp(s, r);
    case OpenStream(r, id) => IsOpenStream(s, r, id);
    case Publish(r) => IsPublish(s, r);
    case MakeReady(r) => IsMakeReady(s, r);
  }

  lemma {:induction false} LateKeepsOrigin(s: State, step: Step, l: nat)
    requires Enabled(s, step) && LateStep(step) && l in s.entries
    ensures l in Apply(s, step).entries && Apply(s, step).entries[l].origin == s.entries[l].origin
  {
    hide Apply, Enabled;
    match step
    case WriteChunk(r) => IsWriteChunk(s, r);
    case CloseStream(r) => IsCloseStream(s, r);
    case Convert(r) => IsConvert(s, r);
    case Store(r, kept) => IsStore(s, r, kept);
    case StoreVariant(r, key, kept) => IsStoreVariant(s, r, key, kept);
    case Release(r) => IsRelease(s, r);
    case SignalDone(r) => IsSignalDone(s, r);
  }

  lemma {:induction false} ReplyOrigin(s: State, r: nat, o: Origin, l: nat)
    requires Enabled(s, OriginReply(r, o)) && l in s.entries
    ensures l in Apply(s, OriginReply(r, o)).entries
    ensures Apply(s, OriginReply(r, o)).entries[l].origin ==
            if l == s.requests[r].pc.lock then Some(o) else s.entries[l].origin
  {
    hide Apply;
    IsOriginReply(s, r, o);
  }

  lemma {:induction false} WaiterKeepsOrigin(s: State, step: Step, l: nat)
    requires Enabled(s, step) && !EarlyStep(step) && !LateStep(step) && !CacheStep(step) && l in s.entries
    ensures l in Apply(s, step).entries && Apply(s, step).entries[l].origin == s.entries[l].origin
  {
    hide Apply, Enabled;
    match step
    case Arrive(r, key) => IsArrive(s, r, key);
    case Acquire(r, id) => IsAcquire(s, r, id);
    case WakeReady(r) => IsWakeReady(s, r);
    case WakeDone(r) => IsWakeDone(s, r);
    case Read(r) => IsRead(s, r);
    case Fallback(r) => IsFallback(s, r);
  }

  /** The outcome of an entry changes only when the origin replies to its owner. */
  lemma {:induction false} StepOrigin(s: State, step: Step, l: nat)
    requires Enabled(s, step) && l in s.entries
    ensures l in Apply(s, step).entries
    ensures Apply(s, step).entries[l].origin ==
            if step.OriginReply? && l == s.requests[step.req].pc.lock then Some(step.origin) else s.entries[l].origin
  {
    hide Apply, Enabled;
    if step.OriginReply? { ReplyOrigin(s, step.req, step.origin, l); }
    else if EarlyStep(step) { EarlyKeepsOrigin(s, step, l); }
    else if LateStep(step) { LateKeepsOrigin(s, step, l); }
    else if CacheStep(step) { CacheOnly(s, step); }
    else { WaiterKeepsOrigin(s, step, l); }
  }

  // ---------- The history of a run ----------

  /** The origin's answer to a request in a run. */
  function ReplyTo(steps: seq<Step>, r: nat): (o: Option<Origin>) {
    if steps == [] then None
    else
      var n := |steps| - 1;
      if steps[n].OriginReply? && steps[n].req == r then Some(steps[n].origin) else ReplyTo(steps[..n], r)
  }

  ghost predicate Recorded(s: State, steps: seq<Step>) {
    && (forall l :: l in s.entries ==> s.entries[l].origin == ReplyTo(steps, s.entries[l].owner))
    && (forall r :: (r in s.requests ==> !IsFetcher(s.requests[r].pc)) ==> ReplyTo(steps, r).None?)
  }

  lemma {:induction false} ReplyExtends(steps: seq<Step>, step: Step, r: nat)
    ensures ReplyTo(steps + [step], r) ==
            if step.OriginReply? && step.req == r then Some(step.origin) else ReplyTo(steps, r)
  {
    assert (steps + [step])[..|steps|] == steps;
  }

  lemma {:induction false} RecordedStep(s: State, steps: seq<Step>, step: Step)
    requires Inv(s) && Enabled(s, step) && Recorded(s, steps)
    ensures Recorded(Apply(s, step), steps + [step])
  {
    hide Apply, ReplyTo;
    var t := Apply(s, step);
    forall l | l in t.entries ensures t.entries[l].origin == ReplyTo(steps + [step], t.entries[l].owner) {
      ReplyExtends(steps, step, t.entries[l].owner);
      if l !in s.entries {
        StepNewEntry(s, step, l);
      } else {
        StepEntry(s, step, l);
        StepOrigin(s, step, l);
        if step.OriginReply? { RepliesToOwner(s, step, l); }
      }
    }
    hide Inv, Enabled;
    forall r | r in t.requests ==> !IsFetcher(t.requests[r].pc) ensures ReplyTo(steps + [step], r).None? {
      NoReplyYet(s, steps, step, r);
    }
  }

  lemma {:induction false} RepliesToOwner(s: State, step: Step, l: nat)
    requires Inv(s) && Enabled(s, step) && l in s.entries && step.OriginReply?
    ensures l == s.requests[step.req].pc.lock <==> s.entries[l].owner == step.req
  {
    hide Phase, ServedOk, MakerOk;
    assert EntryOk(s, l) && RequestOk(s, step.req);
  }

  lemma {:induction false} NoReplyYet(s: State, steps: seq<Step>, step: Step, r: nat)
    requires Inv(s) && Enabled(s, step) && Recorded(s, steps)
    requires r in Apply(s, step).requests ==> !IsFetcher(Apply(s, step).requests[r].pc)
    ensures ReplyTo(steps + [step], r).None?
  {
    hide ReplyTo, Inv, Apply;
    ReplyExtends(steps, step, r);
    if r in s.requests { StepRequest(s, step, r); }
  }

  lemma {:induction false} RunRecorded(steps: seq<Step>)
    requires Run(steps).Some?
    ensures Recorded(Run(steps).value, steps)
  {
    hide Apply, Enabled;
    if steps == [] { return; }
    var n := |steps| - 1;
    RunRecorded(steps[..n]);
    ReachableInv(steps[..n]);
    assert steps == steps[..n] + [steps[n]];
    hide Inv, Recorded;
    RecordedStep(Run(steps[..n]).value, steps[..n], steps[n]);
  }

  /** Once the origin has replied to a request, no later step changes that reply. */
  lemma {:induction false} ReplyStands(s: State, steps: seq<Step>, step: Step, q: nat)
    requires Inv(s) && Enabled(s, step) && Recorded(s, steps) && ReplyTo(steps, q).Some?
    ensures q in s.requests && IsFetcher(s.requests[q].pc) && ReplyTo(steps + [step], q) == ReplyTo(steps, q)
  {
    hide ReplyTo, Apply;
    ReplyExtends(steps, step, q);
    OwnsEntry(s, q);
    hide Inv, RequestOk, MakerOk;
  }

  // ---------- Where cached bodies come from ----------

  /** Request q puts what it fetched under a key: its own, or the one its response's Vary header yields. */
  ghost predicate PutsUnder(s: State, steps: seq<Step>, q: nat, key: string) {
    q in s.requests && (s.requests[q].key == key || StoreVariant(q, key, true) in steps)
  }

  /** A cached body was sent by the origin to a fetch that puts it under that key, or stored by a revalidation of it. */
  ghost predicate Sourced(s: State, steps: seq<Step>, key: string, c: Cached) {
    match c.writer
    case Some(q) => PutsUnder(s, steps, q, key) && ReplyTo(steps, q) == Some(Cacheable(c.body))
    case None => Revalidate(key, c.body) in steps
  }

  ghost predicate ServesStale(s: State, r: nat) {
    r in s.requests && s.requests[r].pc.WaiterDone? && s.requests[r].pc.served.Stale?
  }

  /** Every body in the cache, and every stale body served, has such a source. */
  ghost predicate AllSourced(s: State, steps: seq<Step>) {
    && (forall key :: key in s.cache ==> Sourced(s, steps, key, s.cache[key]))
    && (forall r :: ServesStale(s, r) ==> Sourced(s, steps, s.requests[r].key, s.requests[r].pc.served.found))
  }

  lemma {:induction false} SourceStands(s: State, steps: seq<Step>, step: Step, key: string, c: Cached)
    requires Inv(s) && Enabled(s, step) && Recorded(s, steps) && Sourced(s, steps, key, c)
    ensures Sourced(Apply(s, step), steps + [step], key, c)
  {
    hide Inv, Recorded, ReplyTo, Apply, Enabled;
    if c.writer.Some? {
      ReplyStands(s, steps, step, c.writer.value);
      StepRequest(s, step, c.writer.value);
    }
  }

  /** A fetcher about to store its entry holds the body the origin sent it. */
  lemma {:induction false} StoresItsBody(s: State, steps: seq<Step>, r: nat)
    requires Inv(s) && Recorded(s, steps) && r in s.requests && (s.requests[r].pc.Caching? || s.requests[r].pc.Varying?)
    ensures var pc := s.requests[r].pc;
            && (pc.Caching? ==> pc.entry.Some? && ReplyTo(steps, r) == Some(Cacheable(pc.entry.value)))
            && (pc.Varying? ==> ReplyTo(steps, r) == Some(Cacheable(pc.stored)))
  {
    hide ReplyTo;
    OwnsEntry(s, r);
    hide Inv, RequestOk, MakerOk;
  }

  lemma {:induction false} StoreChanges(s: State, r: nat, kept: bool)
    requires Enabled(s, Store(r, kept)) && s.requests[r].pc.entry.Some?
    ensures Apply(s, Store(r, kept)).cache ==
            if kept then s.cache[s.requests[r].key := Cached(s.requests[r].pc.entry.value, Some(r))] else s.cache
  {
    hide Apply, Enabled;
    IsStore(s, r, kept);
  }

  lemma {:induction false} StoreVariantChanges(s: State, r: nat, key: string, kept: bool)
    requires Enabled(s, StoreVariant(r, key, kept))
    ensures s.requests[r].pc.Varying?
    ensures Apply(s, StoreVariant(r, key, kept)).cache ==
            if kept && key != s.requests[r].key then s.cache[key := Cached(s.requests[r].pc.stored, Some(r))]
            else s.cache
  {
    hide Apply, Enabled;
    IsStoreVariant(s, r, key, kept);
  }

  lemma {:induction false} EarlyKeepsCache(s: State, step: Step)
    requires Enabled(s, step) && EarlyStep(step)
    ensures Apply(s, step).cache == s.cache
  {
    hide Apply, Enabled;
    match step
    case OriginReply(r, o) => IsOriginReply(s, r, o);
    case GiveUp(r) => IsGiveUp(s, r);
    case OpenStream(r, id) => IsOpenStream(s, r, id);
    case Publish(r) => IsPublish(s, r);
    case MakeReady(r) => IsMakeReady(s, r);
  }

  lemma {:induction false} LateKeepsCache(s: State, step: Step)
    requires Enabled(s, step) && LateStep(step) && !step.Store? && !step.StoreVariant?
    ensures Apply(s, step).cache == s.cache
  {
    hide Apply, Enabled;
    match step
    case WriteChunk(r) => IsWriteChunk(s, r);
    case CloseStream(r) => IsCloseStream(s, r);
    case Convert(r) => IsConvert(s, r);
    case Release(r) => IsRelease(s, r);
    case SignalDone(r) => IsSignalDone(s, r);
  }

  lemma {:induction false} OthersKeepCache(s: State, step: Step)
    requires Enabled(s, step) && !step.Store? && !step.StoreVariant? && !CacheStep(step)
    ensures Apply(s, step).cache == s.cache
  {
    hide Apply, Enabled;
    if EarlyStep(step) {
      EarlyKeepsCache(s, step);
    } else if LateStep(step) {
      LateKeepsCache(s, step);
    } else {
      match step
      case Arrive(r, key) => IsArrive(s, r, key);
      case Acquire(r, id) => IsAcquire(s, r, id);
      case WakeReady(r) => IsWakeReady(s, r);
      case WakeDone(r) => IsWakeDone(s, r);
      case Read(r) => IsRead(s, r);
      case Fallback(r) => IsFallback(s, r);
    }
  }

  lemma {:induction false} CacheSourcedStep(s: State, steps: seq<Step>, step: Step, key: string)
    requires Inv(s) && Enabled(s, step) && Recorded(s, steps) && AllSourced(s, steps) && key in Apply(s, step).cache
    ensures Sourced(Apply(s, step), steps + [step], key, Apply(s, step).cache[key])
  {
    hide Inv, Recorded, ReplyTo, Sourced;
    if key in s.cache { SourceStands(s, steps, step, key, s.cache[key]); }
    if step.Store? {
      NewlyStored(s, steps, step.req, step.kept, key);
    } else if step.StoreVariant? {
      NewlyVaried(s, steps, step.req, step.key, step.kept, key);
    } else if CacheStep(step) {
      NewlyRevalidated(s, steps, step, key);
    } else {
      OthersKeepCache(s, step);
    }
  }

  lemma {:induction false} NewlyStored(s: State, steps: seq<Step>, r: nat, kept: bool, key: string)
    requires Inv(s) && Enabled(s, Store(r, kept)) && Recorded(s, steps) && key in Apply(s, Store(r, kept)).cache
    ensures var t := Apply(s, Store(r, kept));
            || (key in s.cache && t.cache[key] == s.cache[key])
            || Sourced(t, steps + [Store(r, kept)], key, t.cache[key])
  {
    hide Inv, Recorded, ReplyTo, Apply;
    StoresItsBody(s, steps, r);
    StoreChanges(s, r, kept);
    StepRequest(s, Store(r, kept), r);
    ReplyExtends(steps, Store(r, kept), r);
  }

  lemma {:induction false} NewlyVaried(s: State, steps: seq<Step>, r: nat, other: string, kept: bool, key: string)
    requires Inv(s) && Enabled(s, StoreVariant(r, other, kept)) && Recorded(s, steps)
    requires key in Apply(s, StoreVariant(r, other, kept)).cache
    ensures var t := Apply(s, StoreVariant(r, other, kept));
            || (key in s.cache && t.cache[key] == s.cache[key])
            || Sourced(t, steps + [StoreVariant(r, other, kept)], key, t.cache[key])
  {
    hide Inv, Recorded, ReplyTo, Apply;
    var step := StoreVariant(r, other, kept);
    StoresItsBody(s, steps, r);
    StoreVariantChanges(s, r, other, kept);
    StepRequest(s, step, r);
    ReplyExtends(steps, step, r);
    assert step in steps + [step];
  }

  lemma {:induction false} NewlyRevalidated(s: State, steps: seq<Step>, step: Step, key: string)
    requires Enabled(s, step) && CacheStep(step) && key in Apply(s, step).cache
    ensures var t := Apply(s, step);
            || (key in s.cache && t.cache[key] == s.cache[key])
            || Sourced(t, steps + [step], key, t.cache[key])
  {
    hide ReplyTo;
  }

  /** A stale answer was found in the cache by the step that served it. */
  lemma {:induction false} StaleSourcedStep(s: State, steps: seq<Step>, step: Step, r: nat)
    requires Inv(s) && Enabled(s, step) && Recorded(s, steps) && AllSourced(s, steps) && ServesStale(Apply(s, step), r)
    ensures var t := Apply(s, step);
            Sourced(t, steps + [step], t.requests[r].key, t.requests[r].pc.served.found)
  {
    hide Inv, Recorded, ReplyTo, Sourced;
    var t := Apply(s, step);
    BecomesStale(s, step, r);
    if ServesStale(s, r) && t.requests[r] == s.requests[r] {
      SourceStands(s, steps, step, s.requests[r].key, s.requests[r].pc.served.found);
    } else {
      SourceStands(s, steps, step, s.requests[r].key, s.cache[s.requests[r].key]);
    }
  }

  lemma {:induction false} ReadNotStale(s: State, r: nat)
    requires Enabled(s, Read(r))
    ensures r in Apply(s, Read(r)).requests && !ServesStale(Apply(s, Read(r)), r)
  {
    hide Apply, Enabled;
    IsRead(s, r);
  }

  lemma {:induction false} WakingNotStale(s: State, step: Step)
    requires Enabled(s, step) && (step.WakeReady? || step.WakeDone?)
    ensures step.req in Apply(s, step).requests && !ServesStale(Apply(s, step), step.req)
  {
    hide Apply, Enabled;
    match step
    case WakeReady(r) => IsWakeReady(s, r);
    case WakeDone(r) => IsWakeDone(s, r);
  }

  lemma {:induction false} AcquireNotStale(s: State, r: nat, id: nat)
    requires Enabled(s, Acquire(r, id))
    ensures r in Apply(s, Acquire(r, id)).requests && !ServesStale(Apply(s, Acquire(r, id)), r)
  {
    hide Apply, Enabled;
    IsAcquire(s, r, id);
  }

  /** No step of a waiter but its fallback ends in a stale answer. */
  lemma {:induction false} NotStale(s: State, step: Step)
    requires Enabled(s, step) && !EarlyStep(step) && !LateStep(step) && !CacheStep(step) && !step.Fallback? &&
             !step.Arrive?
    ensures step.req in Apply(s, step).requests && !ServesStale(Apply(s, step), step.req)
  {
    hide Apply, Enabled, ServesStale;
    match step
    case Acquire(r, id) => AcquireNotStale(s, r, id);
    case WakeReady(r) => WakingNotStale(s, step);
    case WakeDone(r) => WakingNotStale(s, step);
    case Read(r) => ReadNotStale(s, r);
  }

  lemma {:induction false} WaitersAreNotDone(s: State, step: Step)
    requires Enabled(s, step) && !EarlyStep(step) && !LateStep(step) && !CacheStep(step) && !step.Arrive?
    ensures step.req in s.requests && !ServesStale(s, step.req) &&
            (step.Fallback? ==> s.requests[step.req].pc.FallingBack?)
  {
  }

  lemma {:induction false} BecomesStale(s: State, step: Step, r: nat)
    requires Inv(s) && Enabled(s, step) && ServesStale(Apply(s, step), r)
    ensures r in s.requests && Apply(s, step).requests[r].key == s.requests[r].key
    ensures || (ServesStale(s, r) && Apply(s, step).requests[r] == s.requests[r])
            || (s.requests[r].key in s.cache &&
                Apply(s, step).requests[r].pc.served.found == s.cache[s.requests[r].key])
  {
    hide Inv, Apply, Enabled;
    StepPc(s, step);
    KnownBefore(s, step, r);
    StepRequest(s, step, r);
    if !CacheStep(step) && step.req == r && !EarlyStep(step) && !LateStep(step) && !step.Arrive? {
      WaitersAreNotDone(s, step);
      if step.Fallback? { FallbackServes(s, r); } else { NotStale(s, step); }
    } else if step.Arrive? {
      Arrives(s, step.req, step.key);
    }
  }

  /** Only an arrival adds a request. */
  lemma {:induction false} KnownBefore(s: State, step: Step, r: nat)
    requires Inv(s) && Enabled(s, step) && r in Apply(s, step).requests && !Apply(s, step).requests[r].pc.Arrived?
    ensures r in s.requests
  {
    hide Inv, Apply, FetcherMoved, EntryGrows, EntryOk, MakerOk, RequestOk, Enabled;
    EveryStepOk(s, step);
    if EarlyStep(step) || LateStep(step) || Leads(s, step) {
      FetcherAddsNone(s, Apply(s, step), step.req, LockOf(s, step), r);
    } else if step.Arrive? {
      Arrives(s, step.req, step.key);
    } else if !CacheStep(step) {
      StepPresent(s, step);
    }
  }

  lemma {:induction false} FetcherAddsNone(s: State, t: State, r: nat, l: nat, q: nat)
    requires FetcherMoved(s, t, r, l) && q in t.requests
    ensures q in s.requests
  {
  }

  lemma {:induction false} Arrives(s: State, r: nat, key: string)
    requires Enabled(s, Arrive(r, key))
    ensures Apply(s, Arrive(r, key)).requests == s.requests[r := Request(key, Arrived)]
  {
    hide Apply, Enabled;
    IsArrive(s, r, key);
  }

  lemma {:induction false} StepPresent(s: State, step: Step)
    requires Enabled(s, step) && !step.Arrive? && !CacheStep(step)
    ensures step.req in s.requests
  {
  }

  lemma {:induction false} RunSourced(steps: seq<Step>)
    requires Run(steps).Some?
    ensures AllSourced(Run(steps).value, steps)
  {
    hide Apply, Enabled;
    if steps == [] { return; }
    var n := |steps| - 1;
    RunSourced(steps[..n]);
    RunRecorded(steps[..n]);
    ReachableInv(steps[..n]);
    assert steps == steps[..n] + [steps[n]];
    hide Inv, Recorded, Sourced, ServesStale;
    var s, step := Run(steps[..n]).value, steps[n];
    var t := Apply(s, step);
    forall key | key in t.cache
      ensures Sourced(t, steps, key, t.cache[key])
    {
      CacheSourcedStep(s, steps[..n], step, key);
    }
    forall r | ServesStale(t, r) ensures Sourced(t, steps, t.requests[r].key, t.requests[r].pc.served.found) {
      StaleSourcedStep(s, steps[..n], step, r);
    }
  }

  // ---------- Whose outcome a waiter serves ----------

  /** A request that has joined or created an entry stays with it, and the entry with its owner. */
  lemma {:induction false} Attached(before: seq<Step>, after: seq<Step>, r: nat)
    requires Run(before).Some? && Run(before + after).Some?
    requires r in Run(before).value.requests && !Run(before).value.requests[r].pc.Arrived?
    ensures var s, t := Run(before).value, Run(before + after).value;
            && Continues(s, t, r)
            && s.requests[r].pc.lock in s.entries && s.requests[r].pc.lock in t.entries
            && t.entries[s.requests[r].pc.lock].owner == s.entries[s.requests[r].pc.lock].owner
  {
    ReachableInv(before);
    assert RequestOk(Run(before).value, r);
    hide RequestOk, Inv, Apply, Enabled;
    if after == [] {
      assert before + after == before;
    } else {
      var n := |after| - 1;
      var all := before + after;
      assert all[..|all| - 1] == before + after[..n];
      Attached(before, after[..n], r);
      ReachableInv(before + after[..n]);
      var u := Run(before + after[..n]).value;
      StepRequest(u, all[|all| - 1], r);
      StepEntry(u, all[|all| - 1], u.requests[r].pc.lock);
    }
  }

  /** What a waiter may serve, given how the fetch it joined was answered. */
  predicate OutcomeOf(reply: Option<Origin>, served: Served) {
    && reply.Some?
    && if reply.value.Cacheable? then served == Streamed(reply.value.body, true) || served == Whole(reply.value.body)
       else served.Stale? || served.Nothing?
  }

  /** A waiter that joined a cacheable fetch serves exactly that fetch's body, whatever other fetches of the key do.
      One that joined any other fetch serves an error, or a body that another fetch or a revalidation put into
      the cache under the same key. */
  lemma {:induction false} WaiterOutcome(before: seq<Step>, after: seq<Step>, r: nat)
    requires Run(before).Some? && Run(before + after).Some?
    requires r in Run(before).value.requests && Run(before).value.requests[r].pc.Waiting?
    ensures var s, t := Run(before).value, Run(before + after).value;
            && var l := s.requests[r].pc.lock;
               && l in s.entries && r in t.requests
               && (t.requests[r].pc.WaiterDone? ==>
                     && var served := t.requests[r].pc.served;
                        && OutcomeOf(ReplyTo(before + after, s.entries[l].owner), served)
                        && (served.Stale? ==>
                              && Sourced(t, before + after, s.requests[r].key, served.found)
                              && served.found.writer != Some(s.entries[l].owner)))
  {
    var steps := before + after;
    Attached(before, after, r);
    ReachableInv(steps);
    RunRecorded(steps);
    RunSourced(steps);
    var t := Run(steps).value;
    hide Run, ReplyTo, Phase;
    assert RequestOk(t, r);
    hide Inv, RequestOk;
    assert t.requests[r].pc.WaiterDone? && t.requests[r].pc.served.Stale? ==> ServesStale(t, r);
  }

  /** A waiter falls back to the cache exactly when the fetch it joined ended without a cacheable response. */
  lemma {:induction false} FallsBackIff(steps: seq<Step>, r: nat)
    requires Run(steps).Some? && Enabled(Run(steps).value, WakeDone(r))
    ensures var s := Run(steps).value;
            && var reply := ReplyTo(steps, s.entries[s.requests[r].pc.lock].owner);
               && reply.Some?
               && (Apply(s, WakeDone(r)).requests[r].pc.FallingBack? <==> !reply.value.Cacheable?)
  {
    hide Run, ReplyTo, Inv, Apply;
    ReachableInv(steps);
    RunRecorded(steps);
    var s := Run(steps).value;
    JoinsEntry(s, r);
    WakeEffect(s, r);
    hide Enabled, MakerOk;
  }

  lemma {:induction false} WakeEffect(s: State, r: nat)
    requires Enabled(s, WakeDone(r))
    ensures r in s.requests && s.requests[r].pc.Waiting? && s.requests[r].pc.lock in s.entries
    ensures var l := s.requests[r].pc.lock;
            && var e := s.entries[l];
               Apply(s, WakeDone(r)) == Goto(s, r, if e.err then FallingBack(l) else Receive(l, e.stream, e.entry))
  {
    hide Apply, Enabled;
    IsWakeDone(s, r);
  }

  /** At the fallback another fetch's body is served exactly when the key is cached at that moment; the waiter is there
      only because the fetch it joined was not cacheable, so the body is never that fetch's. */
  lemma {:induction false} ServesAnotherIff(steps: seq<Step>, r: nat)
    requires Run(steps).Some? && r in Run(steps).value.requests && Run(steps).value.requests[r].pc.FallingBack?
    ensures var s := Run(steps).value;
            && var l, key := s.requests[r].pc.lock, s.requests[r].key;
               && l in s.entries && Enabled(s, Fallback(r))
               && var reply := ReplyTo(steps, s.entries[l].owner);
                  && reply.Some? && !reply.value.Cacheable?
                  && var pc := Apply(s, Fallback(r)).requests[r].pc;
                     && pc.WaiterDone?
                     && (pc.served.Stale? <==> key in s.cache)
                     && (key !in s.cache ==> pc.served == Nothing)
                     && (key in s.cache ==>
                           && pc.served == Stale(s.cache[key]) && Sourced(s, steps, key, s.cache[key])
                           && s.cache[key].writer != Some(s.entries[l].owner))
  {
    hide Run, ReplyTo, Apply, Enabled;
    ReachableInv(steps);
    RunRecorded(steps);
    RunSourced(steps);
    var s := Run(steps).value;
    FallbackServes(s, r);
    JoinsEntry(s, r);
    hide Inv, EntryOk, MakerOk;
  }

  lemma {:induction false} FallbackServes(s: State, r: nat)
    requires r in s.requests && s.requests[r].pc.FallingBack?
    ensures Enabled(s, Fallback(r)) && r in Apply(s, Fallback(r)).requests
    ensures Apply(s, Fallback(r)).requests[r].pc ==
            WaiterDone(s.requests[r].pc.lock,
                       if s.requests[r].key in s.cache then Stale(s.cache[s.requests[r].key]) else Nothing)
  {
    hide Apply;
    assert Enabled(s, Fallback(r));
    IsFallback(s, r);
  }

  /** A request joins the fetch that holds the lock when it acquires. */
  lemma {:induction false} JoinsCurrentFetch(steps: seq<Step>, r: nat, id: nat) returns (owner: nat)
    requires Run(steps).Some? && Enabled(Run(steps).value, Acquire(r, id))
    requires Run(steps).value.requests[r].key in Run(steps).value.locks
    ensures var s := Run(steps).value;
            && var t := Apply(s, Acquire(r, id));
               && t.requests[r].pc.Waiting? && t.requests[r].pc.lock in t.entries
               && t.entries[t.requests[r].pc.lock].owner == owner
               && owner in s.requests && s.requests[owner].key == s.requests[r].key && Holds(s.requests[owner].pc)
  {
    ReachableInv(steps);
    var s := Run(steps).value;
    hide Run, Phase;
    owner := LockHasFetcher(steps, s.requests[r].key);
    assert LockOk(s, s.requests[r].key);
    assert RequestOk(s, owner);
    hide Inv, RequestOk;
  }

  /** Whatever a reader has streamed so far is a prefix of the body the origin sent to the fetch it joined. */
  lemma {:induction false} StreamedIsPrefix(steps: seq<Step>, r: nat)
    requires Run(steps).Some?
    requires r in Run(steps).value.requests && Run(steps).value.requests[r].pc.Reading?
    ensures var s := Run(steps).value;
            && var pc := s.requests[r].pc;
               && pc.lock in s.entries
               && var reply := ReplyTo(steps, s.entries[pc.lock].owner);
                  reply.Some? && reply.value.Cacheable? && pc.out <= reply.value.body
  {
    ReachableInv(steps);
    RunRecorded(steps);
    hide Run, ReplyTo;
    JoinsEntry(Run(steps).value, r);
    hide Inv, MakerOk;
  }

  /** The entry a fetcher caches and releases carries the origin's body, so it equals what clean readers streamed. */
  lemma {:induction false} ReleasedEntryIsBody(steps: seq<Step>, r: nat)
    requires Run(steps).Some?
    requires r in Run(steps).value.requests && Run(steps).value.requests[r].pc.Releasing?
    ensures var pc, reply := Run(steps).value.requests[r].pc, ReplyTo(steps, r);
            && reply.Some? && pc.err == !reply.value.Cacheable?
            && pc.entry == if reply.value.Cacheable? then Some(reply.value.body) else None
  {
    ReachableInv(steps);
    RunRecorded(steps);
    hide Run, ReplyTo;
    OwnsEntry(Run(steps).value, r);
    hide Inv, MakerOk, RequestOk;
  }

  // ---------- Progress ----------

  /** No reader sleeps on a complete entry, or while unread bytes are buffered; its fetcher is still writing. */
  lemma {:induction false} SleepersHaveWriter(steps: seq<Step>, r: nat)
    requires Run(steps).Some? && r in Run(steps).value.asleep
    ensures var s := Run(steps).value;
            && r in s.requests
            && var pc := s.requests[r].pc;
               && pc.Reading? && pc.stream in s.streams && pc.lock in s.entries
               && !s.streams[pc.stream].complete && pc.out == s.streams[pc.stream].buf
               && var owner := s.entries[pc.lock].owner;
                  owner in s.requests && s.requests[owner].pc.Writing? && s.requests[owner].pc.stream == pc.stream
  {
    ReachableInv(steps);
    var s := Run(steps).value;
    hide Run;
    assert RequestOk(s, r);
    JoinsEntry(s, r);
    hide Inv, MakerOk;
  }

  /** The step a live fetcher takes next, given the origin's answer and a fresh stream. */
  function NextStep(pc: Pc, r: nat, o: Origin, id: nat): (step: Step)
    requires IsFetcher(pc) && !pc.FetcherDone?
    ensures EarlyStep(step) || LateStep(step)
    ensures step.req == r && (step.OriginReply? ==> step.origin == o) && (step.OriginReply? <==> pc.Fetching?)
  {
    match pc
    case Fetching(_) => OriginReply(r, o)
    case Fetched(_, origin) => if origin.Cacheable? then OpenStream(r, id) else GiveUp(r)
    case Publishing(_, _, _, _) => Publish(r)
    case Readying(_, _, _, _) => MakeReady(r)
    case Writing(_, _, body, off) => if off < |body| then WriteChunk(r) else CloseStream(r)
    case Closed(_, _) => Convert(r)
    case Caching(_, _) => Store(r, true)
    case Varying(_, _) => StoreVariant(r, "", false)
    case Releasing(_, _, _) => Release(r)
    case Signalling(_, _) => SignalDone(r)
  }

  /** Steps left to a fetcher, with the origin's answer still to come or known. */
  function Rank(pc: Pc, o: Origin): (n: nat) {
    match pc
    case Fetching(_) => 11 + Size(o)
    case Fetched(_, origin) => 10 + Size(origin)
    case Publishing(_, _, body, _) => 9 + |body|
    case Readying(_, _, body, _) => 8 + |body|
    case Writing(_, _, body, off) => 7 + (if off < |body| then |body| - off else 0)
    case Closed(_, _) => 6
    case Caching(_, _) => 5
    case Varying(_, _) => 4
    case Releasing(_, _, _) => 3
    case Signalling(_, _) => 2
    case _ => 0
  }

  function Size(o: Origin): (n: nat) {
    if o.Cacheable? then |o.body| else 0
  }

  /** A live fetcher is never blocked. */
  lemma {:induction false} FetcherEnabled(s: State, r: nat, l: nat, o: Origin, id: nat)
    requires Own(s, r, l) && !s.requests[r].pc.FetcherDone? && id !in s.streams
    ensures Enabled(s, NextStep(s.requests[r].pc, r, o, id))
    ensures s.requests[r].pc.Closed? ==>
              s.requests[r].pc.stream in s.streams && s.streams[s.requests[r].pc.stream].complete
    ensures s.requests[r].pc.Caching? ==> s.requests[r].pc.entry.Some?
  {
    hide RequestOk, MakerOk;
  }

  lemma {:induction false} FetchRankDrops(s: State, step: Step, o: Origin)
    requires Enabled(s, step) && (step.OriginReply? || step.GiveUp? || step.OpenStream?) &&
             (step.OriginReply? ==> step.origin == o)
    ensures step.req in Apply(s, step).requests &&
            Rank(Apply(s, step).requests[step.req].pc, o) < Rank(s.requests[step.req].pc, o)
  {
    hide Apply, Enabled;
    match step
    case OriginReply(r, origin) => IsOriginReply(s, r, origin);
    case GiveUp(r) => IsGiveUp(s, r);
    case OpenStream(r, id) => IsOpenStream(s, r, id);
  }

  lemma {:induction false} PublishRankDrops(s: State, step: Step, o: Origin)
    requires Enabled(s, step) && (step.Publish? || step.MakeReady?)
    ensures step.req in Apply(s, step).requests &&
            Rank(Apply(s, step).requests[step.req].pc, o) < Rank(s.requests[step.req].pc, o)
  {
    hide Apply, Enabled;
    match step
    case Publish(r) => IsPublish(s, r);
    case MakeReady(r) => IsMakeReady(s, r);
  }

  lemma {:induction false} StreamRankDrops(s: State, step: Step, o: Origin)
    requires Enabled(s, step) && (step.WriteChunk? || step.CloseStream? || step.Convert?)
    requires step.Convert? ==> s.streams[s.requests[step.req].pc.stream].complete
    ensures step.req in Apply(s, step).requests &&
            Rank(Apply(s, step).requests[step.req].pc, o) < Rank(s.requests[step.req].pc, o)
  {
    hide Apply, Enabled;
    match step
    case WriteChunk(r) => IsWriteChunk(s, r);
    case CloseStream(r) => IsCloseStream(s, r);
    case Convert(r) => IsConvert(s, r);
  }

  lemma {:induction false} StoreRankDrops(s: State, r: nat, kept: bool, o: Origin)
    requires Enabled(s, Store(r, kept)) && s.requests[r].pc.entry.Some?
    ensures var t := Apply(s, Store(r, kept)); r in t.requests && Rank(t.requests[r].pc, o) < Rank(s.requests[r].pc, o)
  {
    hide Apply, Enabled;
    IsStore(s, r, kept);
  }

  lemma {:induction false} VariantRankDrops(s: State, r: nat, key: string, kept: bool, o: Origin)
    requires Enabled(s, StoreVariant(r, key, kept))
    ensures var t := Apply(s, StoreVariant(r, key, kept));
            r in t.requests && Rank(t.requests[r].pc, o) < Rank(s.requests[r].pc, o)
  {
    hide Apply, Enabled;
    IsStoreVariant(s, r, key, kept);
  }

  lemma {:induction false} ReleaseRankDrops(s: State, step: Step, o: Origin)
    requires Enabled(s, step) && (step.Release? || step.SignalDone?)
    ensures step.req in Apply(s, step).requests &&
            Rank(Apply(s, step).requests[step.req].pc, o) < Rank(s.requests[step.req].pc, o)
  {
    hide Apply, Enabled;
    match step
    case Release(r) => IsRelease(s, r);
    case SignalDone(r) => IsSignalDone(s, r);
  }

  /** In every reachable state a live fetcher can step, and each of its steps brings it closer to closing `done`. */
  lemma {:induction false} FetcherAdvances(steps: seq<Step>, r: nat, o: Origin, id: nat)
    requires Run(steps).Some? && id !in Run(steps).value.streams
    requires r in Run(steps).value.requests
    requires IsFetcher(Run(steps).value.requests[r].pc) && !Run(steps).value.requests[r].pc.FetcherDone?
    ensures var s := Run(steps).value;
            && var step := NextStep(s.requests[r].pc, r, o, id);
               && Enabled(s, step) && r in Apply(s, step).requests
               && Rank(Apply(s, step).requests[r].pc, o) < Rank(s.requests[r].pc, o)
  {
    hide Run, Inv, Enabled, Apply, Rank, Own;
    ReachableInv(steps);
    var s := Run(steps).value;
    OwnsEntry(s, r);
    FetcherEnabled(s, r, s.requests[r].pc.lock, o, id);
    var step := NextStep(s.requests[r].pc, r, o, id);
    if step.Publish? || step.MakeReady? { PublishRankDrops(s, step, o); }
    else if EarlyStep(step) { FetchRankDrops(s, step, o); }
    else if step.Store? { StoreRankDrops(s, r, step.kept, o); }
    else if step.StoreVariant? { VariantRankDrops(s, r, step.key, step.kept, o); }
    else if step.WriteChunk? || step.CloseStream? || step.Convert? { StreamRankDrops(s, step, o); }
    else { ReleaseRankDrops(s, step, o); }
  }

  /** The fetch of r ends, or has ended, with the answer o, and a cacheable o is in the cache once stored. */
  ghost predicate Committed(s: State, r: nat, o: Origin) {
    && r in s.requests && IsFetcher(s.requests[r].pc)
    && (!s.requests[r].pc.Fetching? ==>
          s.requests[r].pc.lock in s.entries && s.entries[s.requests[r].pc.lock].origin == Some(o))
    && (o.Cacheable? && PastStore(s.requests[r].pc) ==>
          s.requests[r].key in s.cache && s.cache[s.requests[r].key] == Cached(o.body, Some(r)))
  }

  predicate PastStore(pc: Pc) {
    pc.Varying? || pc.Releasing? || pc.Signalling? || pc.FetcherDone?
  }

  lemma {:induction false} EarlyBeforeStore(s: State, step: Step)
    requires Enabled(s, step) && EarlyStep(step) && !step.GiveUp?
    ensures step.req in Apply(s, step).requests && !PastStore(Apply(s, step).requests[step.req].pc)
  {
    hide Apply, Enabled;
    match step
    case OriginReply(r, o) => IsOriginReply(s, r, o);
    case OpenStream(r, id) => IsOpenStream(s, r, id);
    case Publish(r) => IsPublish(s, r);
    case MakeReady(r) => IsMakeReady(s, r);
  }

  lemma {:induction false} LateBeforeStore(s: State, step: Step)
    requires Enabled(s, step) && (step.WriteChunk? || step.CloseStream? || step.Convert?)
    ensures step.req in Apply(s, step).requests && !PastStore(Apply(s, step).requests[step.req].pc)
  {
    hide Apply, Enabled;
    match step
    case WriteChunk(r) => IsWriteChunk(s, r);
    case CloseStream(r) => IsCloseStream(s, r);
    case Convert(r) => IsConvert(s, r);
  }

  lemma {:induction false} CommittedOrigin(s: State, r: nat, o: Origin, step: Step)
    requires Inv(s) && Committed(s, r, o) && Enabled(s, step) && (EarlyStep(step) || LateStep(step)) && step.req == r
    requires (step.OriginReply? ==> step.origin == o) && (step.OriginReply? <==> s.requests[r].pc.Fetching?)
    ensures var t := Apply(s, step);
            && Continues(s, t, r) && IsFetcher(t.requests[r].pc)
            && t.requests[r].pc.lock in t.entries && t.entries[t.requests[r].pc.lock].origin == Some(o)
  {
    hide Inv, Apply, Enabled, Own;
    var l := s.requests[r].pc.lock;
    OwnsEntry(s, r);
    OwnHasEntry(s, r, l);
    StepRequest(s, step, r);
    StepOrigin(s, step, l);
  }

  lemma {:induction false} OwnHasEntry(s: State, r: nat, l: nat)
    requires Own(s, r, l)
    ensures l in s.entries
  {
  }

  /** What is cached once a fetch that ends with o has stored its entry. */
  lemma {:induction false} CommittedCache(s: State, r: nat, o: Origin, step: Step)
    requires Inv(s) && Committed(s, r, o) && Enabled(s, step) && (EarlyStep(step) || LateStep(step)) && step.req == r
    requires step.GiveUp? ==> !o.Cacheable?
    requires step.Store? ==>
               step.kept && s.requests[r].pc.Caching? && s.requests[r].pc.entry == Some(o.body) && o.Cacheable?
    requires step.StoreVariant? || step.Release? || step.SignalDone? ==> PastStore(s.requests[r].pc)
    requires step.StoreVariant? ==> !step.kept
    ensures var t := Apply(s, step);
            && r in t.requests && t.requests[r].key == s.requests[r].key
            && (o.Cacheable? && PastStore(t.requests[r].pc) ==>
                  s.requests[r].key in t.cache && t.cache[s.requests[r].key] == Cached(o.body, Some(r)))
  {
    hide Inv, Apply, Enabled;
    StepRequest(s, step, r);
    if step.Store? {
      StoreChanges(s, r, true);
    } else if step.StoreVariant? {
      StoreVariantChanges(s, r, step.key, step.kept);
    } else {
      OthersKeepCache(s, step);
      if EarlyStep(step) && !step.GiveUp? { EarlyBeforeStore(s, step); }
      else if step.WriteChunk? || step.CloseStream? || step.Convert? { LateBeforeStore(s, step); }
    }
  }

  lemma {:induction false} CommittedFacts(s: State, r: nat, o: Origin)
    requires Inv(s) && Committed(s, r, o)
    ensures s.requests[r].pc.Fetched? ==> s.requests[r].pc.origin == o
    ensures s.requests[r].pc.Caching? ==> o.Cacheable? && s.requests[r].pc.entry == Some(o.body)
  {
    hide Inv;
    OwnsEntry(s, r);
    hide RequestOk, MakerOk;
  }

  lemma {:induction false} CommittedStep(s: State, r: nat, o: Origin, id: nat)
    requires Inv(s) && Committed(s, r, o) && !s.requests[r].pc.FetcherDone?
    requires Enabled(s, NextStep(s.requests[r].pc, r, o, id))
    ensures Committed(Apply(s, NextStep(s.requests[r].pc, r, o, id)), r, o)
  {
    hide Inv, Apply, Enabled;
    var step := NextStep(s.requests[r].pc, r, o, id);
    CommittedFacts(s, r, o);
    CommittedOrigin(s, r, o, step);
    CommittedCache(s, r, o, step);
  }

  /** From any reachable state a fetcher alone can run to its end, the origin answering o if it has not yet. Every other
      request keeps its place, and a cacheable answer is then in the cache. */
  lemma {:induction false} FetcherCanFinish(steps: seq<Step>, r: nat, o: Origin) returns (more: seq<Step>)
    requires Run(steps).Some? && r in Run(steps).value.requests && IsFetcher(Run(steps).value.requests[r].pc)
    ensures Run(steps + more).Some?
    ensures var s, t := Run(steps).value, Run(steps + more).value;
            && Continues(s, t, r) && t.requests[r].pc.FetcherDone? && (Committed(s, r, o) ==> Committed(t, r, o))
            && (forall q :: q in s.requests && q != r ==> q in t.requests && t.requests[q] == s.requests[q])
            && (forall q :: q in t.requests ==> q in s.requests)
    ensures forall q :: q != r ==> ReplyTo(steps + more, q) == ReplyTo(steps, q)
    decreases Rank(Run(steps).value.requests[r].pc, o)
  {
    hide Apply, Enabled, Inv, Committed;
    var s := Run(steps).value;
    if s.requests[r].pc.FetcherDone? {
      more := [];
      assert steps + more == steps;
    } else {
      var id := FreshId(s.streams.Keys);
      var step := NextStep(s.requests[r].pc, r, o, id);
      FetcherAdvances(steps, r, o, id);
      ReachableInv(steps);
      if Committed(s, r, o) { CommittedStep(s, r, o, id); }
      Extend(steps, step);
      AloneStep(s, step);
      var rest := FetcherCanFinish(steps + [step], r, o);
      more := [step] + rest;
      assert steps + [step] + rest == steps + more;
      forall q | q != r ensures ReplyTo(steps + more, q) == ReplyTo(steps, q) { ReplyExtends(steps, step, q); }
    }
  }

  /** A fetcher's step leaves the other requests where they are. */
  lemma {:induction false} AloneStep(s: State, step: Step)
    requires Inv(s) && Enabled(s, step) && (EarlyStep(step) || LateStep(step))
    ensures var t := Apply(s, step);
            && step.req in s.requests && Continues(s, t, step.req)
            && (forall q :: q in s.requests && q != step.req ==> q in t.requests && t.requests[q] == s.requests[q])
            && (forall q :: q in t.requests ==> q in s.requests)
  {
    hide Inv, Apply, Enabled, FetcherMoved, EntryGrows, EntryOk, MakerOk, RequestOk;
    StepPc(s, step);
    FetcherSteps(s, step);
    var t, l := Apply(s, step), s.requests[step.req].pc.lock;
    StepRequest(s, step, step.req);
    forall q | q in s.requests && q != step.req ensures q in t.requests && t.requests[q] == s.requests[q] {
      FetcherContinues(s, t, step.req, l, q);
    }
    forall q | q in t.requests ensures q in s.requests { FetcherAddsNone(s, t, step.req, l, q); }
  }

  /** Steps left to a waiter: one to wake, then at most one per unread byte and one for the end of file. */
  function Left(s: State, r: nat): (n: nat)
    requires r in s.requests
  {
    match s.requests[r].pc
    case Waiting(l) =>
      if l in s.entries && s.entries[l].stream.Some? && s.entries[l].stream.value in s.streams
      then 2 + |s.streams[s.entries[l].stream.value].buf| else 2
    case Reading(_, id, out) =>
      if id in s.streams && |out| < |s.streams[id].buf| then 1 + |s.streams[id].buf| - |out| else 1
    case FallingBack(_) => 1
    case _ => 0
  }

  predicate IsWaiter(pc: Pc) {
    pc.Waiting? || pc.Reading? || pc.FallingBack? || pc.WaiterDone?
  }

  /** The step a waiter takes next once the fetch it joined is done. */
  function WaiterStep(pc: Pc, r: nat): (step: Step) {
    if pc.Waiting? then WakeDone(r) else if pc.Reading? then Read(r) else Fallback(r)
  }

  lemma {:induction false} ReadAdvances(s: State, r: nat)
    requires Joins(s, r) && s.requests[r].pc.Reading? && s.entries[s.requests[r].pc.lock].done
    ensures Enabled(s, Read(r)) && r in Apply(s, Read(r)).requests && IsWaiter(Apply(s, Read(r)).requests[r].pc)
    ensures Apply(s, Read(r)).entries == s.entries && Left(Apply(s, Read(r)), r) < Left(s, r)
  {
    hide MakerOk, Apply;
    assert Enabled(s, Read(r));
    IsRead(s, r);
  }

  lemma {:induction false} WakeAdvances(s: State, r: nat)
    requires Joins(s, r) && s.requests[r].pc.Waiting? && s.entries[s.requests[r].pc.lock].done
    ensures Enabled(s, WakeDone(r)) && r in Apply(s, WakeDone(r)).requests &&
            IsWaiter(Apply(s, WakeDone(r)).requests[r].pc)
    ensures Apply(s, WakeDone(r)).entries == s.entries && Left(Apply(s, WakeDone(r)), r) < Left(s, r)
  {
    hide Apply;
    assert Enabled(s, WakeDone(r));
    WakeEffect(s, r);
    hide Enabled;
  }

  lemma {:induction false} WaiterAdvancesFrom(s: State, r: nat)
    requires Joins(s, r) && s.entries[s.requests[r].pc.lock].done
    ensures var step := WaiterStep(s.requests[r].pc, r);
            && Enabled(s, step) && r in Apply(s, step).requests && IsWaiter(Apply(s, step).requests[r].pc)
            && Apply(s, step).entries == s.entries && Left(Apply(s, step), r) < Left(s, r)
  {
    match s.requests[r].pc
    case Waiting(_) =>
      hide Apply, Enabled, Left, EntryOk, RequestOk;
      WakeAdvances(s, r);
    case Reading(_, _, _) =>
      hide Apply, Enabled, Left, EntryOk, RequestOk;
      ReadAdvances(s, r);
    case FallingBack(_) => hide EntryOk;
  }

  /** Once the fetch it joined has closed `done`, a waiter can step, is awake, and each step brings it closer to its
      end. */
  lemma {:induction false} WaiterAdvances(steps: seq<Step>, r: nat)
    requires Run(steps).Some? && r in Run(steps).value.requests
    requires IsWaiter(Run(steps).value.requests[r].pc) && !Run(steps).value.requests[r].pc.WaiterDone?
    ensures var s := Run(steps).value;
            && var pc := s.requests[r].pc;
               && pc.lock in s.entries
               && (s.entries[pc.lock].done ==>
                     && var step := WaiterStep(pc, r);
                        && Enabled(s, step) && r in Apply(s, step).requests && IsWaiter(Apply(s, step).requests[r].pc)
                        && Apply(s, step).entries == s.entries && Left(Apply(s, step), r) < Left(s, r))
  {
    hide Run, Inv, Apply, Enabled, Left, EntryOk, MakerOk, RequestOk;
    ReachableInv(steps);
    var s := Run(steps).value;
    JoinsEntry(s, r);
    if s.entries[s.requests[r].pc.lock].done { WaiterAdvancesFrom(s, r); }
  }

  /** Once the fetch it joined is done, a waiter alone can run to its end. */
  lemma {:induction false} ServedWaiterFinishes(steps: seq<Step>, r: nat) returns (more: seq<Step>)
    requires Run(steps).Some? && r in Run(steps).value.requests && IsWaiter(Run(steps).value.requests[r].pc)
    requires Run(steps).value.requests[r].pc.lock in Run(steps).value.entries
    requires Run(steps).value.entries[Run(steps).value.requests[r].pc.lock].done
    ensures Run(steps + more).Some? && r in Run(steps + more).value.requests
    ensures Run(steps + more).value.requests[r].pc.WaiterDone?
    decreases Left(Run(steps).value, r)
  {
    hide Apply, Enabled, Inv, Left;
    var s := Run(steps).value;
    if s.requests[r].pc.WaiterDone? {
      more := [];
      assert steps + more == steps;
    } else {
      var step := WaiterStep(s.requests[r].pc, r);
      WaiterAdvances(steps, r);
      ReachableInv(steps);
      StepRequest(s, step, r);
      Extend(steps, step);
      var rest := ServedWaiterFinishes(steps + [step], r);
      more := [step] + rest;
      assert steps + [step] + rest == steps + more;
    }
  }

  /** The entry of a finished fetcher is done. */
  lemma {:induction false} FinishedIsDone(steps: seq<Step>, r: nat)
    requires Run(steps).Some? && r in Run(steps).value.requests && Run(steps).value.requests[r].pc.FetcherDone?
    ensures var s := Run(steps).value;
            s.requests[r].pc.lock in s.entries && s.entries[s.requests[r].pc.lock].done &&
            s.entries[s.requests[r].pc.lock].owner == r
  {
    ReachableInv(steps);
    hide Run;
    OwnsEntry(Run(steps).value, r);
    hide Inv, RequestOk, MakerOk;
  }

  lemma {:induction false} OwnerOf(s: State, r: nat) returns (owner: nat)
    requires Inv(s) && r in s.requests && IsWaiter(s.requests[r].pc)
    ensures var l := s.requests[r].pc.lock;
            && l in s.entries && s.entries[l].owner == owner && owner in s.requests && owner != r
            && IsFetcher(s.requests[owner].pc) && s.requests[owner].pc.lock == l
  {
    hide Phase, MakerOk, ServedOk;
    assert RequestOk(s, r);
    assert EntryOk(s, s.requests[r].pc.lock);
    owner := s.entries[s.requests[r].pc.lock].owner;
  }

  /** Every reachable state extends to one where a given waiter is done: no interleaving can leave it stuck. */
  lemma {:induction false} WaiterCanFinish(steps: seq<Step>, r: nat) returns (more: seq<Step>)
    requires Run(steps).Some? && r in Run(steps).value.requests && IsWaiter(Run(steps).value.requests[r].pc)
    ensures Run(steps + more).Some? && r in Run(steps + more).value.requests
    ensures Run(steps + more).value.requests[r].pc.WaiterDone?
  {
    hide Run, Apply, Enabled, Inv, Committed, ReplyTo;
    ReachableInv(steps);
    var owner := OwnerOf(Run(steps).value, r);
    var first := FetcherCanFinish(steps, owner, FetchFailed);
    FinishedIsDone(steps + first, owner);
    var rest := ServedWaiterFinishes(steps + first, r);
    more := first + rest;
    assert steps + first + rest == steps + more;
  }

  // ---------- A later fetch's body can be served ----------

  lemma {:induction false} AcquireLeads(s: State, r: nat, id: nat)
    requires Enabled(s, Acquire(r, id)) && s.requests[r].key !in s.locks
    ensures var t := Apply(s, Acquire(r, id));
            t.requests == s.requests[r := Request(s.requests[r].key, Fetching(id))] &&
            t.locks == s.locks[s.requests[r].key := id]
            && id in t.entries && t.entries[id].owner == r
  {
    hide Apply, Enabled;
    IsAcquire(s, r, id);
  }

  lemma {:induction false} AcquireJoins(s: State, r: nat, id: nat)
    requires Enabled(s, Acquire(r, id)) && s.requests[r].key in s.locks
    ensures var t := Apply(s, Acquire(r, id));
            t.requests == s.requests[r := Request(s.requests[r].key, Waiting(s.locks[s.requests[r].key]))]
            && t.locks == s.locks && t.entries == s.entries
  {
    hide Apply, Enabled;
    IsAcquire(s, r, id);
  }

  lemma {:induction false} CanArrive(s: State, r: nat, key: string)
    requires r !in s.requests
    ensures Enabled(s, Arrive(r, key))
    ensures var t := Apply(s, Arrive(r, key));
            t.requests == s.requests[r := Request(key, Arrived)] && t.locks == s.locks && t.entries == s.entries
  {
  }

  lemma {:induction false} CanAcquire(s: State, r: nat, id: nat)
    requires r in s.requests && s.requests[r].pc.Arrived? && id !in s.entries
    ensures Enabled(s, Acquire(r, id))
  {
  }

  /** A new request arrives and acquires. */
  lemma {:induction false} Enter(steps: seq<Step>, r: nat, key: string) returns (more: seq<Step>)
    requires Run(steps).Some? && r !in Run(steps).value.requests
    ensures Run(steps + more).Some?
    ensures var s, t := Run(steps).value, Run(steps + more).value;
            && r in t.requests && t.requests == s.requests[r := t.requests[r]] && t.requests[r].key == key
            && (if key in s.locks
                then t.requests[r].pc == Waiting(s.locks[key]) && t.locks == s.locks && t.entries == s.entries
                else && t.requests[r].pc.Fetching? && t.requests[r].pc.lock in t.entries
                     && t.entries[t.requests[r].pc.lock].owner == r
                     && t.locks == s.locks[key := t.requests[r].pc.lock])
    ensures forall q :: ReplyTo(steps + more, q) == ReplyTo(steps, q)
  {
    hide Run, Apply, Enabled, ReplyTo;
    var s := Run(steps).value;
    CanArrive(s, r, key);
    Extend(steps, Arrive(r, key));
    var u := Run(steps + [Arrive(r, key)]).value;
    var id := FreshId(u.entries.Keys);
    CanAcquire(u, r, id);
    Extend(steps + [Arrive(r, key)], Acquire(r, id));
    if key in s.locks { AcquireJoins(u, r, id); } else { AcquireLeads(u, r, id); }
    more := [Arrive(r, key), Acquire(r, id)];
    assert steps + more == steps + [Arrive(r, key)] + [Acquire(r, id)];
    forall q ensures ReplyTo(steps + more, q) == ReplyTo(steps, q) {
      ReplyExtends(steps, Arrive(r, key), q);
      ReplyExtends(steps + [Arrive(r, key)], Acquire(r, id), q);
    }
  }

  /** A key none of whose requests holds the lock is free. */
  lemma {:induction false} KeyIsFree(steps: seq<Step>, key: string)
    requires Run(steps).Some?
    requires forall q :: q in Run(steps).value.requests && Run(steps).value.requests[q].key == key ==>
               !Holds(Run(steps).value.requests[q].pc)
    ensures key !in Run(steps).value.locks
  {
    hide Run;
    if key in Run(steps).value.locks {
      var r := LockHasFetcher(steps, key);
    }
  }

  /** From any state where a waiter is at its fallback and its key is free, a new request can fetch the key and the
      waiter then serve the body of that later fetch. */
  lemma {:induction false} FallbackCanServeLater(steps: seq<Step>, b: nat, c: nat, body: string)
    returns (more: seq<Step>)
    requires Run(steps).Some? && b in Run(steps).value.requests && Run(steps).value.requests[b].pc.FallingBack?
    requires c !in Run(steps).value.requests && Run(steps).value.requests[b].key !in Run(steps).value.locks
    ensures Run(steps + more).Some? && b in Run(steps + more).value.requests
    ensures Run(steps + more).value.requests[b].pc ==
            WaiterDone(Run(steps).value.requests[b].pc.lock, Stale(Cached(body, Some(c))))
    ensures forall q :: q != c ==> ReplyTo(steps + more, q) == ReplyTo(steps, q)
  {
    hide Run, Apply, Enabled, ReplyTo;
    var s := Run(steps).value;
    var key := s.requests[b].key;
    var entering := Enter(steps, c, key);
    var u := Run(steps + entering).value;
    assert u.requests[b] == s.requests[b];
    var fetching := FetcherCanFinish(steps + entering, c, Cacheable(body));
    var v := Run(steps + entering + fetching).value;
    assert v.requests[b] == s.requests[b] && v.cache[key] == Cached(body, Some(c));
    FallbackServes(v, b);
    Extend(steps + entering + fetching, Fallback(b));
    more := entering + fetching + [Fallback(b)];
    assert steps + more == steps + entering + fetching + [Fallback(b)];
    forall q | q != c ensures ReplyTo(steps + more, q) == ReplyTo(steps, q) {
      ReplyExtends(steps + entering + fetching, Fallback(b), q);
    }
  }

  lemma {:induction false} WakesToFallback(steps: seq<Step>, a: nat, b: nat, o: Origin)
    requires Run(steps).Some? && !o.Cacheable? && Committed(Run(steps).value, a, o) &&
             Run(steps).value.requests[a].pc.FetcherDone?
    requires b in Run(steps).value.requests &&
             Run(steps).value.requests[b].pc == Waiting(Run(steps).value.requests[a].pc.lock)
    ensures Run(steps + [WakeDone(b)]).Some?
    ensures var s, t := Run(steps).value, Run(steps + [WakeDone(b)]).value;
            && t.requests == s.requests[b := Request(s.requests[b].key, FallingBack(s.requests[a].pc.lock))]
            && t.locks == s.locks
  {
    FinishedIsDone(steps, a);
    ReachableInv(steps);
    RunRecorded(steps);
    var s := Run(steps).value;
    assert Enabled(s, WakeDone(b));
    Extend(steps, WakeDone(b));
    FallsBackIff(steps, b);
    hide Run, Inv, Recorded, ReplyTo;
  }

  /** Requests a and b for one key: a fetches, b waits for it. */
  lemma {:induction false} OneWaits(key: string, a: nat, b: nat) returns (steps: seq<Step>)
    requires a != b
    ensures Run(steps).Some?
    ensures var s := Run(steps).value;
            && s.requests.Keys == {a, b} && s.requests[a].key == key == s.requests[b].key
            && s.requests[a].pc.Fetching? && s.requests[b].pc == Waiting(s.requests[a].pc.lock)
  {
    assert Run([]) == Some(INITIAL);
    hide Run, Apply, Enabled, ReplyTo;
    var one := Enter([], a, key);
    assert [] + one == one;
    var two := Enter(one, b, key);
    steps := one + two;
  }

  /** Request a's fetch of a key fails while b waits on it, so that b is about to fall back and the key is free. */
  lemma {:induction false} FailsWhileWaiting(key: string, a: nat, b: nat, o: Origin) returns (steps: seq<Step>)
    requires a != b && !o.Cacheable?
    ensures Run(steps).Some?
    ensures var s := Run(steps).value;
            && s.requests.Keys == {a, b} && s.requests[a].key == key == s.requests[b].key && key !in s.locks
            && s.requests[a].pc.FetcherDone? && s.requests[b].pc == FallingBack(s.requests[a].pc.lock)
    ensures ReplyTo(steps, a) == Some(o)
  {
    hide Run, Apply, Enabled, ReplyTo;
    var two := OneWaits(key, a, b);
    var s := Run(two).value;
    assert Committed(s, a, o);
    var three := FetcherCanFinish(two, a, o);
    var t := Run(two + three).value;
    assert t.requests[b] == s.requests[b] && t.requests.Keys == {a, b};
    hide Committed;
    KeyIsFree(two + three, key);
    RepliedAs(two + three, a, o);
    WakesToFallback(two + three, a, b, o);
    steps := two + three + [WakeDone(b)];
    ReplyExtends(two + three, WakeDone(b), a);
  }

  lemma {:induction false} RepliedAs(steps: seq<Step>, r: nat, o: Origin)
    requires Run(steps).Some? && Committed(Run(steps).value, r, o) && !Run(steps).value.requests[r].pc.Fetching?
    ensures ReplyTo(steps, r) == Some(o)
  {
    ReachableInv(steps);
    RunRecorded(steps);
    hide Run, ReplyTo;
    OwnsEntry(Run(steps).value, r);
    hide Inv, RequestOk, EntryOk, MakerOk;
  }

  /** For any key and body there is a run in which b joins a's fetch, that fetch fails and is over before c arrives,
      and b serves the body c fetched. */
  lemma {:induction false} LaterFetchCanBeServed(key: string, body: string, a: nat, b: nat, c: nat, o: Origin)
      returns (before: seq<Step>, after: seq<Step>)
    requires a != b && b != c && a != c && !o.Cacheable?
    ensures Run(before).Some? && Run(before + after).Some?
    ensures var s, t := Run(before).value, Run(before + after).value;
            && s.requests.Keys == {a, b} && s.requests[a].pc.FetcherDone? && ReplyTo(before + after, a) == Some(o)
            && s.requests[b].pc == FallingBack(s.requests[a].pc.lock) && s.requests[b].key == key
            && b in t.requests && t.requests[b].pc == WaiterDone(s.requests[a].pc.lock, Stale(Cached(body, Some(c))))
  {
    hide Run, ReplyTo;
    before := FailsWhileWaiting(key, a, b, o);
    after := FallbackCanServeLater(before, b, c, body);
  }
}
