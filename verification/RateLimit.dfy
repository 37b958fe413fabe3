/** The per-IP token bucket with its idle sweep, over real-valued time and tokens. */
module RateLimit {

  const IDLE_CUTOFF: real := 300.0

  datatype Params = Params(rps: real, burst: int)
  datatype Bucket = Bucket(tokens: real, lastTime: real)
  type Buckets = map<string, Bucket>

  /** Tokens gained over a span of time. */
  function Gain(p: Params, span: real): (r: real) {
    span * p.rps
  }

  /** Tokens after the refill at `now`, capped at the burst. */
  function Refill(p: Params, b: Bucket, now: real): (r: real) {
    var t := b.tokens + Gain(p, now - b.lastTime);
    if t > p.burst as real then p.burst as real else t
  }

  function BucketAt(p: Params, m: Buckets, ip: string, now: real): (b: Bucket) {
    if ip in m then m[ip] else Bucket(p.burst as real, now)
  }

  predicate Allows(p: Params, m: Buckets, ip: string, now: real) {
    Refill(p, BucketAt(p, m, ip, now), now) >= 1.0
  }

  function AfterRequest(p: Params, m: Buckets, ip: string, now: real): (r: Buckets) {
    var t := Refill(p, BucketAt(p, m, ip, now), now);
    m[ip := Bucket(if t < 1.0 then t else t - 1.0, now)]
  }

  function AfterSweep(m: Buckets, now: real): (r: Buckets) {
    map ip | ip in m && !(m[ip].lastTime < now - IDLE_CUTOFF) :: m[ip]
  }

  // ---------- Runs ----------

  datatype Event = Request(ip: string, now: real) | Sweep(now: real)

  ghost predicate Ordered(events: seq<Event>) {
    forall i, j :: 0 <= i <= j < |events| ==> events[i].now <= events[j].now
  }

  /** The buckets after a run, with the sweep acting or switched off. */
  function After(p: Params, events: seq<Event>, sweeps: bool): (r: Buckets) {
    if events == [] then map[]
    else
      var m := After(p, events[..|events| - 1], sweeps);
      match events[|events| - 1]
      case Request(ip, now) => AfterRequest(p, m, ip, now)
      case Sweep(now) => if sweeps then AfterSweep(m, now) else m
  }

  /** The answer to the request at position k. */
  predicate AnswerAt(p: Params, events: seq<Event>, sweeps: bool, k: nat)
    requires k < |events| && events[k].Request?
  {
    Allows(p, After(p, events[..k], sweeps), events[k].ip, events[k].now)
  }

  /** Allowed requests of one IP from position `from` on. */
  function Allowed(p: Params, events: seq<Event>, sweeps: bool, ip: string, from: nat): (r: nat)
    requires from <= |events|
    decreases |events|
  {
    if from == |events| then 0
    else
      var n := |events| - 1;
      Allowed(p, events[..n], sweeps, ip, from) +
      (if events[n].Request? && events[n].ip == ip && AnswerAt(p, events, sweeps, n) then 1 else 0)
  }

  // ---------- The sweep is unobservable when 300 seconds refill a bucket ----------

  /** The deleted buckets would be full by now; the kept ones agree. */
  ghost predicate Sim(p: Params, swept: Buckets, kept: Buckets, now: real) {
    && (forall ip :: ip in swept ==> ip in kept && swept[ip] == kept[ip])
    && (forall ip :: ip in kept ==> kept[ip].lastTime <= now && kept[ip].tokens >= 0.0)
    && (forall ip :: ip in kept && ip !in swept ==> Full(p, kept[ip], now))
  }

  ghost predicate Full(p: Params, b: Bucket, now: real) {
    b.tokens + Gain(p, now - b.lastTime) >= p.burst as real
  }

  lemma {:induction false} StillFull(p: Params, b: Bucket, past: real, now: real)
    requires p.rps >= 0.0 && past <= now && Full(p, b, past)
    ensures Full(p, b, now)
  {
    hide Gain;
    GainMonotone(p, past - b.lastTime, now - b.lastTime);
  }

  /** 300 idle seconds refill a bucket, or the burst allows nothing. */
  ghost predicate SweepHarmless(p: Params) {
    p.burst < 1 || 300.0 * p.rps >= p.burst as real
  }

  /** The sweep deletes exactly the buckets that have been idle for more than 300 seconds, and changes no other. */
  lemma {:induction false} SweptIff(m: Buckets, now: real, ip: string)
    ensures ip in AfterSweep(m, now) <==> ip in m && now - m[ip].lastTime <= 300.0
    ensures ip in AfterSweep(m, now) ==> AfterSweep(m, now)[ip] == m[ip]
  {
  }

  // The only facts about the product that the proofs use.

  lemma {:induction false} GainMonotone(p: Params, a: real, b: real)
    requires p.rps >= 0.0 && a <= b
    ensures Gain(p, a) <= Gain(p, b)
  {
    assert (b - a) * p.rps >= 0.0;
  }

  lemma {:induction false} GainZero(p: Params)
    ensures Gain(p, 0.0) == 0.0
  {
  }

  lemma {:induction false} GainAdds(p: Params, a: real, b: real)
    ensures Gain(p, a + b) == Gain(p, a) + Gain(p, b)
  {
  }

  lemma {:induction false} SimLater(p: Params, swept: Buckets, kept: Buckets, past: real, now: real)
    requires p.rps >= 0.0 && past <= now && Sim(p, swept, kept, past)
    ensures Sim(p, swept, kept, now)
  {
    hide Gain;
    forall ip | ip in kept && ip !in swept
      ensures Full(p, kept[ip], now)
    {
      StillFull(p, kept[ip], past, now);
    }
  }

  lemma {:induction false} RefillRange(p: Params, b: Bucket, now: real)
    requires p.burst >= 1 && p.rps >= 0.0 && b.lastTime <= now && b.tokens >= 0.0
    ensures 0.0 <= Refill(p, b, now) <= p.burst as real
    ensures Refill(p, b, now) <= b.tokens + Gain(p, now - b.lastTime)
    ensures Full(p, b, now) ==> Refill(p, b, now) == p.burst as real
  {
    hide Gain;
    GainZero(p);
    GainMonotone(p, 0.0, now - b.lastTime);
  }

  /** A bucket refilled at the time it was last touched gains nothing. */
  lemma {:induction false} RefillSameTime(p: Params, x: real, now: real)
    requires x <= p.burst as real
    ensures Refill(p, Bucket(x, now), now) == x
  {
    hide Gain;
    GainZero(p);
    assert now - now == 0.0;
  }

  lemma {:induction false} SameRefill(p: Params, swept: Buckets, kept: Buckets, ip: string, now: real)
    requires p.burst >= 1 && p.rps >= 0.0 && Sim(p, swept, kept, now)
    ensures Refill(p, BucketAt(p, swept, ip, now), now) == Refill(p, BucketAt(p, kept, ip, now), now) >= 0.0
  {
    hide Gain;
    RefillSameTime(p, p.burst as real, now);
    RefillRange(p, BucketAt(p, kept, ip, now), now);
  }

  lemma {:induction false} RequestSim(p: Params, swept: Buckets, kept: Buckets, ip: string, now: real)
    requires p.burst >= 1 && p.rps >= 0.0 && Sim(p, swept, kept, now)
    ensures Allows(p, swept, ip, now) == Allows(p, kept, ip, now)
    ensures Sim(p, AfterRequest(p, swept, ip, now), AfterRequest(p, kept, ip, now), now)
  {
    hide Gain;
    SameRefill(p, swept, kept, ip, now);
    var t := Refill(p, BucketAt(p, kept, ip, now), now);
    SimUpdate(p, swept, kept, ip, Bucket(if t < 1.0 then t else t - 1.0, now), now);
  }

  lemma {:induction false} SimUpdate(p: Params, swept: Buckets, kept: Buckets, ip: string, b: Bucket, now: real)
    requires Sim(p, swept, kept, now) && b.lastTime == now && b.tokens >= 0.0
    ensures Sim(p, swept[ip := b], kept[ip := b], now)
  {
    hide Gain;
  }

  lemma {:induction false} SweepSim(p: Params, swept: Buckets, kept: Buckets, now: real)
    requires p.burst >= 1 && SweepHarmless(p) && Sim(p, swept, kept, now)
    ensures Sim(p, AfterSweep(swept, now), kept, now)
  {
    RateNonNegative(p);
    hide Gain;
    forall ip | ip in kept && ip !in AfterSweep(swept, now)
      ensures Full(p, kept[ip], now)
    {
      if ip in swept {
        GainMonotone(p, IDLE_CUTOFF, now - kept[ip].lastTime);
      }
    }
  }

  lemma {:induction false} RunSim(p: Params, events: seq<Event>, now: real)
    requires p.burst >= 1 && SweepHarmless(p) && Ordered(events)
    requires events != [] ==> events[|events| - 1].now <= now
    ensures p.rps >= 0.0 && Sim(p, After(p, events, true), After(p, events, false), now)
  {
    if events != [] {
      var before, e := events[..|events| - 1], events[|events| - 1];
      RunSim(p, before, e.now);
      var swept, kept := After(p, before, true), After(p, before, false);
      if e.Request? {
        RequestSim(p, swept, kept, e.ip, e.now);
      } else {
        SweepSim(p, swept, kept, e.now);
      }
      SimLater(p, After(p, events, true), After(p, events, false), e.now, now);
    }
  }

  /** If 300 idle seconds refill a bucket, a limiter with the sweep answers every run as one without it. */
  lemma SweepUnobservable(p: Params, events: seq<Event>, k: nat)
    requires SweepHarmless(p) && Ordered(events) && k < |events| && events[k].Request?
    ensures AnswerAt(p, events, true, k) == AnswerAt(p, events, false, k)
  {
    hide Gain;
    if p.burst >= 1 {
      RunSim(p, events[..k], events[k].now);
      RequestSim(p, After(p, events[..k], true), After(p, events[..k], false), events[k].ip, events[k].now);
    }
  }

  // ---------- Otherwise it is observable ----------

  function Repeat(ip: string, now: real, n: nat): (r: seq<Event>) {
    seq(n, i => Request(ip, now))
  }

  lemma {:induction false} OneMore(p: Params, m: Buckets, ip: string, now: real, x: real)
    requires Refill(p, BucketAt(p, m, ip, now), now) == x && Allows(p, m, ip, now)
    ensures Refill(p, BucketAt(p, AfterRequest(p, m, ip, now), ip, now), now) == x - 1.0
  {
    hide Gain;
    RefillSameTime(p, x - 1.0, now);
  }

  lemma {:induction false} AfterLast(p: Params, events: seq<Event>, ip: string, now: real, sweeps: bool)
    ensures After(p, events + [Request(ip, now)], sweeps) == AfterRequest(p, After(p, events, sweeps), ip, now)
  {
    assert (events + [Request(ip, now)])[..|events|] == events;
  }

  /** n requests at one time after a prefix that leaves x tokens at that time: while all are
      allowed, the bucket holds exactly x minus the requests made. */
  lemma {:induction false} Drain(p: Params, prefix: seq<Event>, sweeps: bool, ip: string, now: real, x: real, n: nat)
    requires x <= p.burst as real && Refill(p, BucketAt(p, After(p, prefix, sweeps), ip, now), now) == x
    requires forall k :: |prefix| <= k < |prefix| + n ==> AnswerAt(p, prefix + Repeat(ip, now, n), sweeps, k)
    ensures var m := After(p, prefix + Repeat(ip, now, n), sweeps);
      Refill(p, BucketAt(p, m, ip, now), now) == x - n as real
  {
    hide Gain, Refill, After, AfterRequest, BucketAt, Allows;
    var events := prefix + Repeat(ip, now, n);
    if n == 0 {
      assert events == prefix;
    } else {
      var shorter := prefix + Repeat(ip, now, n - 1);
      assert events[..|events| - 1] == shorter;
      forall k | |prefix| <= k < |prefix| + n - 1
        ensures AnswerAt(p, shorter, sweeps, k)
      {
        assert shorter[..k] == events[..k] && shorter[k] == events[k];
        assert AnswerAt(p, events, sweeps, k);
      }
      Drain(p, prefix, sweeps, ip, now, x, n - 1);
      assert AnswerAt(p, events, sweeps, |events| - 1);
      OneMore(p, After(p, shorter, sweeps), ip, now, x - (n - 1) as real);
      AfterLast(p, shorter, ip, now, sweeps);
      assert events == shorter + [Request(ip, now)];
    }
  }

  /** With x tokens at hand, x requests at one time are all allowed. */
  lemma {:induction false} FullBurst(p: Params, prefix: seq<Event>, sweeps: bool, ip: string, now: real, n: nat, k: nat)
    requires n as real <= p.burst as real && |prefix| <= k < |prefix| + n
    requires Refill(p, BucketAt(p, After(p, prefix, sweeps), ip, now), now) == p.burst as real
    ensures AnswerAt(p, prefix + Repeat(ip, now, n), sweeps, k)
    decreases k
  {
    hide Gain;
    var events := prefix + Repeat(ip, now, n);
    var m := k - |prefix|;
    var shorter := prefix + Repeat(ip, now, m);
    assert events[..k] == shorter;
    forall j | |prefix| <= j < |prefix| + m
      ensures AnswerAt(p, shorter, sweeps, j)
    {
      FullBurst(p, prefix, sweeps, ip, now, m, j);
    }
    Drain(p, prefix, sweeps, ip, now, p.burst as real, m);
    assert (p.burst - m) as real >= 1.0;
  }

  lemma {:induction false} Quotient(x: real, y: real)
    requires y > 0.0
    ensures (x / y) * y == x
  {
  }

  /** A sweep time after which an emptied bucket is still not full. */
  function SweepTime(p: Params): (t: real) {
    if p.rps <= 0.0 then 301.0 else (IDLE_CUTOFF + p.burst as real / p.rps) / 2.0
  }

  lemma {:induction false} SweepTimeTooSoon(p: Params)
    requires p.burst >= 1 && Gain(p, IDLE_CUTOFF) < p.burst as real
    ensures SweepTime(p) > IDLE_CUTOFF && Gain(p, SweepTime(p)) < p.burst as real
  {
    if p.rps <= 0.0 {
      assert Gain(p, 301.0) <= 0.0;
    } else {
      var q := p.burst as real / p.rps;
      var t := SweepTime(p);
      Quotient(p.burst as real, p.rps);
      assert Gain(p, q) == p.burst as real;
      hide Gain;
      if q <= IDLE_CUTOFF { GainMonotone(p, q, IDLE_CUTOFF); }
      assert t + t == IDLE_CUTOFF + q;
      GainAdds(p, t, t);
      GainAdds(p, IDLE_CUTOFF, q);
    }
  }

  /** Empty the bucket, sweep while it is still refilling, and ask for a full burst again. */
  ghost function Witness(p: Params): (events: seq<Event>)
    requires p.burst >= 1 && Gain(p, IDLE_CUTOFF) < p.burst as real
  {
    Repeat("a", 0.0, p.burst) + [Sweep(SweepTime(p))] + Repeat("a", SweepTime(p), p.burst)
  }

  lemma {:induction false} EmptiedBucket(p: Params, sweeps: bool)
    requires p.burst >= 1
    ensures After(p, Repeat("a", 0.0, p.burst), sweeps) == map["a" := Bucket(0.0, 0.0)]
  {
    var first := Repeat("a", 0.0, p.burst);
    assert [] + first == first;
    RefillSameTime(p, p.burst as real, 0.0);
    hide Gain;
    forall k | 0 <= k < p.burst
      ensures AnswerAt(p, [] + first, sweeps, k)
    {
      FullBurst(p, [], sweeps, "a", 0.0, p.burst, k);
    }
    Drain(p, [], sweeps, "a", 0.0, p.burst as real, p.burst);
    OnlyBucket(p, p.burst, sweeps);
  }

  lemma {:induction false} OnlyBucket(p: Params, n: nat, sweeps: bool)
    requires p.burst >= 1 && n >= 1
    ensures var m := After(p, Repeat("a", 0.0, n), sweeps);
      m.Keys == {"a"} && m["a"].lastTime == 0.0 && m["a"].tokens <= p.burst as real
      && Refill(p, m["a"], 0.0) == m["a"].tokens
  {
    var events := Repeat("a", 0.0, n);
    assert events[..n - 1] == Repeat("a", 0.0, n - 1);
    hide Gain;
    RefillSameTime(p, p.burst as real, 0.0);
    RefillSameTime(p, p.burst as real - 1.0, 0.0);
    if n > 1 {
      OnlyBucket(p, n - 1, sweeps);
      var m := After(p, Repeat("a", 0.0, n - 1), sweeps);
      RefillSameTime(p, m["a"].tokens, 0.0);
      RefillSameTime(p, m["a"].tokens - 1.0, 0.0);
    }
  }

  lemma {:induction false} WitnessOrdered(p: Params)
    requires p.burst >= 1 && Gain(p, IDLE_CUTOFF) < p.burst as real
    ensures Ordered(Witness(p))
  {
    SweepTimeTooSoon(p);
    hide Gain;
    var t := SweepTime(p);
    assert forall i :: 0 <= i < |Witness(p)| ==> Witness(p)[i].now == if i < p.burst then 0.0 else t;
  }

  /** The state before the second burst: the sweep has dropped the emptied bucket. */
  lemma {:induction false} BeforeSecondBurst(p: Params, t: real)
    requires p.burst >= 1 && t > IDLE_CUTOFF
    ensures var prefix := Repeat("a", 0.0, p.burst) + [Sweep(t)];
            After(p, prefix, true) == map[] && After(p, prefix, false) == map["a" := Bucket(0.0, 0.0)]
  {
    hide Gain;
    var prefix := Repeat("a", 0.0, p.burst) + [Sweep(t)];
    assert prefix[..|prefix| - 1] == Repeat("a", 0.0, p.burst);
    EmptiedBucket(p, true);
    EmptiedBucket(p, false);
  }

  /** If 300 idle seconds do not refill a bucket, there is an ordered run on which the sweep changes an answer. */
  lemma {:induction false} SweepObservable(p: Params) returns (k: nat)
    requires p.burst >= 1 && Gain(p, IDLE_CUTOFF) < p.burst as real
    ensures Ordered(Witness(p)) && k < |Witness(p)| && Witness(p)[k].Request?
    ensures AnswerAt(p, Witness(p), true, k) && !AnswerAt(p, Witness(p), false, k)
  {
    hide Gain, After, Refill;
    WitnessOrdered(p);
    SweepTimeTooSoon(p);
    var t, n := SweepTime(p), p.burst;
    var prefix := Repeat("a", 0.0, n) + [Sweep(t)];
    BeforeSecondBurst(p, t);
    assert Witness(p) == prefix + Repeat("a", t, n);
    k := SomeRefused(p, prefix, t, n);
    RefillSameTime(p, p.burst as real, t);
    FullBurst(p, prefix, true, "a", t, n, k);
  }

  /** A burst at time t from a bucket emptied at time 0 has a refused request. */
  lemma {:induction false} SomeRefused(p: Params, prefix: seq<Event>, t: real, n: nat) returns (k: nat)
    requires n == p.burst >= 1 && Gain(p, t) < p.burst as real
    requires After(p, prefix, false) == map["a" := Bucket(0.0, 0.0)]
    ensures |prefix| <= k < |prefix| + n && !AnswerAt(p, prefix + Repeat("a", t, n), false, k)
  {
    hide Gain, After;
    var events := prefix + Repeat("a", t, n);
    var shorter := prefix + Repeat("a", t, n - 1);
    if j :| |prefix| <= j < |prefix| + n - 1 && !AnswerAt(p, events, false, j) {
      k := j;
    } else {
      k := |prefix| + n - 1;
      assert events[..k] == shorter;
      forall j | |prefix| <= j < |prefix| + n - 1
        ensures AnswerAt(p, shorter, false, j)
      {
        assert shorter[..j] == events[..j] && shorter[j] == events[j];
        assert AnswerAt(p, events, false, j);
      }
      assert t - 0.0 == t;
      Drain(p, prefix, false, "a", t, Gain(p, t), n - 1);
    }
  }

  /** The sweep is unobservable on all ordered runs exactly when 300 seconds refill a bucket (or nothing is ever
      allowed). */
  lemma SweepUnobservableIff(p: Params)
    ensures SweepHarmless(p) <==>
      forall events: seq<Event>, k: nat :: Ordered(events) && k < |events| && events[k].Request? ==>
        AnswerAt(p, events, true, k) == AnswerAt(p, events, false, k)
  {
    if SweepHarmless(p) {
      forall events: seq<Event>, k: nat | Ordered(events) && k < |events| && events[k].Request?
        ensures AnswerAt(p, events, true, k) == AnswerAt(p, events, false, k)
      {
        SweepUnobservable(p, events, k);
      }
    } else {
      var k := SweepObservable(p);
      var events := Witness(p);
      assert AnswerAt(p, events, true, k) != AnswerAt(p, events, false, k);
    }
  }

  // ---------- The rate bound ----------

  /** n allowed requests since time `start`, and the tokens left, are paid for by the burst and the refill. */
  ghost predicate Paid(p: Params, m: Buckets, ip: string, start: real, n: nat) {
    n > 0 ==>
      && ip in m && start <= m[ip].lastTime
      && n as real + m[ip].tokens <= p.burst as real + Gain(p, m[ip].lastTime - start)
  }

  lemma {:induction false} Budget(p: Params, events: seq<Event>, ip: string, from: nat)
    requires p.burst >= 1 && p.rps >= 0.0 && Ordered(events) && from < |events|
    ensures Paid(p, After(p, events, false), ip, events[from].now, Allowed(p, events, false, ip, from))
  {
    hide Gain;
    var k := |events| - 1;
    var before, e := events[..k], events[k];
    TokensInRange(p, before, ip);
    if from < k {
      Budget(p, before, ip, from);
      assert before[from] == events[from];
    }
    assert k > 0 ==> before[k - 1] == events[k - 1];
    var m, n := After(p, before, false), Allowed(p, before, false, ip, from);
    if e.Request? && e.ip == ip {
      Spend(p, m, ip, e.now, events[from].now, n);
      assert Allowed(p, events, false, ip, from) == n + (if Allows(p, m, ip, e.now) then 1 else 0);
    } else {
      assert Allowed(p, events, false, ip, from) == n;
      PaidFrame(p, m, After(p, events, false), ip, events[from].now, n);
    }
  }

  lemma {:induction false} PaidFrame(p: Params, m: Buckets, m': Buckets, ip: string, start: real, n: nat)
    requires Paid(p, m, ip, start, n) && (ip in m ==> ip in m' && m'[ip] == m[ip])
    ensures Paid(p, m', ip, start, n)
  {
    hide Gain;
  }

  lemma {:induction false} TokensInRange(p: Params, events: seq<Event>, ip: string)
    requires p.burst >= 1 && p.rps >= 0.0 && Ordered(events)
    ensures var m := After(p, events, false);
      ip in m ==> events != [] && 0.0 <= m[ip].tokens <= p.burst as real && m[ip].lastTime <= events[|events| - 1].now
  {
    hide Gain, Refill;
    if events != [] {
      var before, e := events[..|events| - 1], events[|events| - 1];
      TokensInRange(p, before, ip);
      var m := After(p, before, false);
      if e.Request? && e.ip == ip {
        if ip in m { assert before[|before| - 1] == events[|before| - 1]; }
        RefillRange(p, BucketAt(p, m, ip, e.now), e.now);
      } else if ip in m {
        assert before[|before| - 1] == events[|before| - 1];
      }
    }
  }

  lemma {:induction false} Spend(p: Params, m: Buckets, ip: string, now: real, start: real, n: nat)
    requires p.burst >= 1 && p.rps >= 0.0 && start <= now && Paid(p, m, ip, start, n)
    requires ip in m ==> m[ip].lastTime <= now && m[ip].tokens >= 0.0
    ensures Paid(p, AfterRequest(p, m, ip, now), ip, start, n + (if Allows(p, m, ip, now) then 1 else 0))
  {
    var b := BucketAt(p, m, ip, now);
    hide Gain;
    RefillRange(p, b, now);
    GainZero(p);
    GainMonotone(p, 0.0, now - start);
    if n > 0 {
      assert (b.lastTime - start) + (now - b.lastTime) == now - start;
      GainAdds(p, b.lastTime - start, now - b.lastTime);
    }
    assert (n + 1) as real == n as real + 1.0;
  }

  lemma {:induction false} AllowedAgree(p: Params, events: seq<Event>, ip: string, from: nat)
    requires SweepHarmless(p) && Ordered(events) && from <= |events|
    ensures Allowed(p, events, true, ip, from) == Allowed(p, events, false, ip, from)
    decreases |events|
  {
    if from < |events| {
      var n := |events| - 1;
      AllowedAgree(p, events[..n], ip, from);
      if events[n].Request? { SweepUnobservable(p, events, n); }
    }
  }

  lemma {:induction false} NoBurstNothingAllowed(p: Params, events: seq<Event>, sweeps: bool, ip: string, from: nat)
    requires p.burst < 1 && from <= |events|
    ensures Allowed(p, events, sweeps, ip, from) == 0
    decreases |events|
  {
    hide Gain;
    if from < |events| { NoBurstNothingAllowed(p, events[..|events| - 1], sweeps, ip, from); }
  }

  lemma {:induction false} PaidBound(p: Params, m: Buckets, ip: string, start: real, end: real, n: nat)
    requires p.rps >= 0.0 && Paid(p, m, ip, start, n)
    requires ip in m ==> m[ip].lastTime <= end && m[ip].tokens >= 0.0
    ensures WithinRate(p, n, start, end)
  {
    if n > 0 {
      hide Gain;
      GainMonotone(p, m[ip].lastTime - start, end - start);
    }
  }

  lemma {:induction false} RateNonNegative(p: Params)
    requires p.burst >= 1 && Gain(p, IDLE_CUTOFF) >= p.burst as real
    ensures p.rps >= 0.0
  {
  }

  ghost predicate WithinRate(p: Params, n: nat, start: real, end: real) {
    n == 0 || n as real <= p.burst as real + Gain(p, end - start)
  }

  lemma {:induction false} UnsweptRateBound(p: Params, events: seq<Event>, ip: string, from: nat)
    requires p.burst >= 1 && p.rps >= 0.0 && Ordered(events) && from < |events|
    ensures WithinRate(p, Allowed(p, events, false, ip, from), events[from].now, events[|events| - 1].now)
  {
    hide Gain;
    Budget(p, events, ip, from);
    TokensInRange(p, events, ip);
    PaidBound(p, After(p, events, false), ip, events[from].now, events[|events| - 1].now,
              Allowed(p, events, false, ip, from));
  }

  /** For every IP and every stretch of every run of the limiter with its sweep, either nothing was
      allowed or the allowed requests number at most burst + rps * elapsed, provided 300 seconds refill a bucket. */
  lemma {:induction false} RateBound(p: Params, events: seq<Event>, ip: string, from: nat)
    requires Gain(p, IDLE_CUTOFF) >= p.burst as real && Ordered(events) && from < |events|
    ensures WithinRate(p, Allowed(p, events, true, ip, from), events[from].now, events[|events| - 1].now)
  {
    if p.burst < 1 {
      NoBurstNothingAllowed(p, events, true, ip, from);
    } else {
      RateNonNegative(p);
      AllowedAgree(p, events, ip, from);
      UnsweptRateBound(p, events, ip, from);
    }
  }

  // ---------- The exact law ----------

  /** The tokens at hand for a request of an IP at a time. */
  function TokensAt(p: Params, events: seq<Event>, ip: string, now: real): (r: real) {
    Refill(p, BucketAt(p, After(p, events, false), ip, now), now)
  }

  /** n requests since a time fit the burst and the refill since then. */
  predicate Fits(p: Params, n: nat, start: real, now: real) {
    n as real <= p.burst as real + Gain(p, now - start)
  }

  /** What an IP has left is exactly the burst, plus the refill since the event at `from`, minus what was allowed
      since. */
  ghost predicate Tight(p: Params, events: seq<Event>, ip: string, from: nat)
    requires from < |events|
  {
    var m := After(p, events, false);
    && ip in m
    && m[ip].tokens + Allowed(p, events, false, ip, from) as real ==
       p.burst as real + Gain(p, m[ip].lastTime - events[from].now)
  }

  lemma {:induction false} NoneYet(p: Params, events: seq<Event>, ip: string)
    ensures Allowed(p, events, false, ip, |events|) == 0
  {
  }

  lemma {:induction false} AllowedLast(p: Params, events: seq<Event>, ip: string, from: nat)
    requires from < |events|
    ensures var n := |events| - 1;
            Allowed(p, events, false, ip, from) ==
            Allowed(p, events[..n], false, ip, from) +
            (if events[n].Request? && events[n].ip == ip && AnswerAt(p, events, false, n) then 1 else 0)
  {
  }

  /** A request that finds its bucket full starts a new account. */
  lemma {:induction false} FullIsTight(p: Params, events: seq<Event>, ip: string)
    requires events != []
    requires var n := |events| - 1;
             events[n].Request? && events[n].ip == ip && TokensAt(p, events[..n], ip, events[n].now) == p.burst as real
    ensures Tight(p, events, ip, |events| - 1)
  {
    hide Gain;
    var n := |events| - 1;
    AllowedLast(p, events, ip, n);
    NoneYet(p, events[..n], ip);
    GainZero(p);
    assert events[n].now - events[n].now == 0.0;
  }

  /** One that finds it below the burst goes on with the old account. */
  lemma {:induction false} TightGoesOn(p: Params, events: seq<Event>, ip: string, from: nat)
    requires events != [] && from < |events| - 1
    requires var n := |events| - 1;
             && events[n].Request? && events[n].ip == ip && Tight(p, events[..n], ip, from)
             && TokensAt(p, events[..n], ip, events[n].now) != p.burst as real
    ensures Tight(p, events, ip, from)
  {
    hide Gain;
    var n := |events| - 1;
    AllowedLast(p, events, ip, from);
    assert events[..n][from] == events[from];
    var last := After(p, events[..n], false)[ip].lastTime;
    GainAdds(p, last - events[from].now, events[n].now - last);
    assert (last - events[from].now) + (events[n].now - last) == events[n].now - events[from].now;
  }

  lemma {:induction false} TightFrame(p: Params, events: seq<Event>, ip: string, from: nat)
    requires events != [] && from < |events| - 1 && !(events[|events| - 1].Request? && events[|events| - 1].ip == ip)
    requires Tight(p, events[..|events| - 1], ip, from)
    ensures Tight(p, events, ip, from)
  {
    hide Gain;
    AllowedLast(p, events, ip, from);
    assert events[..|events| - 1][from] == events[from];
  }

  lemma {:induction false} SomeTight(p: Params, events: seq<Event>, ip: string) returns (from: nat)
    requires ip in After(p, events, false)
    ensures from < |events| && Tight(p, events, ip, from)
  {
    var n := |events| - 1;
    if events[n].Request? && events[n].ip == ip {
      if TokensAt(p, events[..n], ip, events[n].now) == p.burst as real {
        from := n;
        FullIsTight(p, events, ip);
      } else {
        if ip !in After(p, events[..n], false) { NewIsFull(p, events[..n], ip, events[n].now); }
        from := SomeTight(p, events[..n], ip);
        TightGoesOn(p, events, ip, from);
      }
    } else {
      from := SomeTight(p, events[..n], ip);
      TightFrame(p, events, ip, from);
    }
  }

  lemma {:induction false} NewIsFull(p: Params, events: seq<Event>, ip: string, now: real)
    requires ip !in After(p, events, false)
    ensures TokensAt(p, events, ip, now) == p.burst as real
  {
    RefillSameTime(p, p.burst as real, now);
  }

  /** The tokens at hand are at most the burst, plus the refill since any event, minus what was allowed since. */
  lemma {:induction false} TokensBounded(p: Params, events: seq<Event>, ip: string, now: real, from: nat)
    requires p.burst >= 1 && p.rps >= 0.0 && Ordered(events) && from < |events| && events[|events| - 1].now <= now
    ensures TokensAt(p, events, ip, now) + Allowed(p, events, false, ip, from) as real <=
            p.burst as real + Gain(p, now - events[from].now)
  {
    hide Gain, Allowed, After;
    Budget(p, events, ip, from);
    TokensInRange(p, events, ip);
    var start, b := events[from].now, BucketAt(p, After(p, events, false), ip, now);
    RefillRange(p, b, now);
    GainZero(p);
    GainMonotone(p, 0.0, now - start);
    assert (b.lastTime - start) + (now - b.lastTime) == now - start;
    GainAdds(p, b.lastTime - start, now - b.lastTime);
  }

  /** A bucket below the burst holds exactly what some account leaves. */
  lemma {:induction false} TokensReached(p: Params, events: seq<Event>, ip: string, now: real) returns (from: nat)
    requires TokensAt(p, events, ip, now) != p.burst as real
    ensures from < |events|
    ensures TokensAt(p, events, ip, now) + Allowed(p, events, false, ip, from) as real ==
            p.burst as real + Gain(p, now - events[from].now)
  {
    hide Gain, Allowed, After;
    if ip !in After(p, events, false) { NewIsFull(p, events, ip, now); }
    from := SomeTight(p, events, ip);
    var start, last := events[from].now, After(p, events, false)[ip].lastTime;
    assert (last - start) + (now - last) == now - start;
    GainAdds(p, last - start, now - last);
  }

  /** The request at position n would be within the rate over every stretch that ends with it. */
  ghost predicate WithinEveryStretch(p: Params, events: seq<Event>, sweeps: bool, n: nat)
    requires n < |events| && events[n].Request?
  {
    forall from :: 0 <= from <= n ==>
      Fits(p, Allowed(p, events[..n], sweeps, events[n].ip, from) + 1, events[from].now, events[n].now)
  }

  lemma {:induction false} UnsweptExact(p: Params, events: seq<Event>, n: nat)
    requires p.burst >= 1 && p.rps >= 0.0 && Ordered(events) && n < |events| && events[n].Request?
    ensures AnswerAt(p, events, false, n) <==> WithinEveryStretch(p, events, false, n)
  {
    hide Gain, Allowed, After, Refill;
    var before, ip, now := events[..n], events[n].ip, events[n].now;
    assert forall from :: 0 <= from < n ==> before[from] == events[from];
    if AnswerAt(p, events, false, n) {
      forall from | 0 <= from <= n ensures Fits(p, Allowed(p, before, false, ip, from) + 1, events[from].now, now) {
        if from < n {
          TokensBounded(p, before, ip, now, from);
        } else {
          NoneYet(p, before, ip);
          GainZero(p);
          assert now - now == 0.0;
        }
      }
    } else {
      var from := TokensReached(p, before, ip, now);
      assert !Fits(p, Allowed(p, before, false, ip, from) + 1, events[from].now, now);
    }
  }

  /** The law that fixes every answer: a request is allowed exactly when, over every stretch of the run that ends
      with it, the requests of its IP allowed before and this one number at most burst + rps * elapsed. With the
      sweep it holds as long as 300 seconds refill a bucket. */
  lemma {:induction false} AllowedExactly(p: Params, events: seq<Event>, sweeps: bool, n: nat)
    requires p.burst >= 1 && p.rps >= 0.0 && Ordered(events) && n < |events| && events[n].Request?
    requires sweeps ==> SweepHarmless(p)
    ensures AnswerAt(p, events, sweeps, n) <==> WithinEveryStretch(p, events, sweeps, n)
  {
    hide Gain, Allowed, AnswerAt;
    UnsweptExact(p, events, n);
    if sweeps {
      SweepUnobservable(p, events, n);
      forall from | 0 <= from <= n
        ensures Allowed(p, events[..n], true, events[n].ip, from) == Allowed(p, events[..n], false, events[n].ip, from)
      {
        AllowedAgree(p, events[..n], events[n].ip, from);
      }
    }
  }

  // ---------- The object ----------

  class Limiter {
    const p: Params
    var buckets: Buckets

    constructor (rps: real, burst: int)
      ensures p == Params(rps, burst) && buckets == map[]
    {
      p := Params(rps, burst);
      buckets := map[];
    }

    method Allow(ip: string, now: real) returns (ok: bool)
      modifies this
      ensures ok == Allows(p, old(buckets), ip, now)
      ensures buckets == AfterRequest(p, old(buckets), ip, now)
    {
      if ip !in buckets {
        buckets := buckets[ip := Bucket(p.burst as real, now)];
      }
      var b := buckets[ip];
      var tokens := b.tokens + Gain(p, now - b.lastTime);
      if tokens > p.burst as real { tokens := p.burst as real; }
      buckets := buckets[ip := Bucket(tokens, now)];
      if tokens < 1.0 { return false; }
      buckets := buckets[ip := Bucket(tokens - 1.0, now)];
      return true;
    }

    method Cleanup(now: real)
      modifies this
      ensures buckets == AfterSweep(old(buckets), now)
    {
      var cutoff := now - IDLE_CUTOFF;
      var todo := buckets.Keys;
      while todo != {}
        invariant todo <= buckets.Keys
        invariant forall ip :: ip in buckets <==>
                    ip in old(buckets) && (ip in todo || !(old(buckets)[ip].lastTime < cutoff))
        invariant forall ip :: ip in buckets ==> buckets[ip] == old(buckets)[ip]
      {
        var ip :| ip in todo;
        if buckets[ip].lastTime < cutoff {
          buckets := buckets - {ip};
        }
        todo := todo - {ip};
      }
    }
  }
}
