/** The two-bucket counting Bloom filter of uncacheable keys. Marks and lookups are
    interleaved down to single loads and compare-and-swaps; a rotation holds the write
    lock, so it is one step that waits for every reader. */
module Predictor {
  import opened Bits
  import opened Common

  const COUNTER_MAX: nat := 255
  const THRESHOLD: nat := 2
  const WORD32: nat := 0x1_0000_0000
  const MIN_BITS: nat := 1024
  const DEFAULT_CAPACITY: int := 1024

  // ---------- Sizing ----------

  /** Eight counters per key, in 32-bit arithmetic. */
  function Target(capacity: int): (r: nat) {
    var c := if capacity <= 0 then DEFAULT_CAPACITY else capacity;
    (c % WORD32) * 8 % WORD32
  }

  /** The loop variable after n doublings, in 32-bit arithmetic. */
  function Doubled(n: nat): (r: nat) {
    if n == 0 then 1 else Doubled(n - 1) * 2 % WORD32
  }

  lemma {:induction false} DoubledIsPow2(n: nat, top: nat)
    requires Pow2(top) == WORD32 / 2
    ensures n <= top ==> Doubled(n) == Pow2(n)
    ensures n > top ==> Doubled(n) == 0
    ensures Doubled(n) <= Pow2(top)
  {
    if n > 0 {
      DoubledIsPow2(n - 1, top);
      if n <= top { Pow2Monotone(n, top); }
    }
  }

  /** The capacities for which the target stays within 2^31, told from their low 29 bits. */
  predicate SafeCapacity(capacity: int) {
    capacity <= 0 || capacity % 0x2000_0000 <= 0x1000_0000
  }

  lemma {:induction false} SafeTarget(capacity: int)
    ensures SafeCapacity(capacity) <==> Target(capacity) <= WORD32 / 2
  {
    if capacity > 0 { LowBits(capacity, capacity / WORD32, capacity % WORD32); }
  }

  /** Multiplying by eight in 32 bits keeps the low 29 bits. */
  lemma {:induction false} LowBits(c: int, k: int, m: int)
    requires c == k * WORD32 + m && 0 <= m < WORD32
    ensures m * 8 % WORD32 == (c % 0x2000_0000) * 8
  {
    var q, r := m / 0x2000_0000, m % 0x2000_0000;
    DivModUnique(c, 0x2000_0000, 8 * k + q, r);
    DivModUnique(m * 8, WORD32, q, r * 8);
  }

  /** The sizing loop `for bits < target { bits <<= 1 }` terminates exactly for the safe capacities. */
  lemma {:induction false} SizingTerminatesIff(capacity: int)
    ensures (exists n: nat :: Doubled(n) >= Target(capacity)) <==> SafeCapacity(capacity)
  {
    var top := 31;
    WordPowers(top, 63);
    DoubledIsPow2(top, top);
    SafeTarget(capacity);
    if n: nat :| Doubled(n) >= Target(capacity) {
      DoubledIsPow2(n, top);
    }
  }

  /** Every capacity up to 2^28 is safe. */
  lemma {:induction false} CapacitiesUpTo28Terminate(capacity: int)
    requires capacity <= 0x1000_0000
    ensures SafeCapacity(capacity) && exists n: nat :: Doubled(n) >= Target(capacity)
  {
    SizingTerminatesIff(capacity);
  }

  /** The next capacity is not: after any number of doublings the loop goes on. */
  lemma {:induction false} NextCapacityDiverges(n: nat)
    ensures Doubled(n) < Target(0x1000_0001)
  {
    SizingTerminatesIff(0x1000_0001);
  }

  /** The target is eight counters per key, 1024 keys by default. */
  lemma {:induction false} TargetIs(capacity: int)
    ensures capacity <= 0 ==> Target(capacity) == 8192
    ensures 0 < capacity <= 0x1000_0000 ==> Target(capacity) == 8 * capacity
  {
  }

  lemma {:induction false} DoublingFits(k: nat, top: nat)
    requires Pow2(top) == WORD32 / 2 && k <= top && Pow2(k) < WORD32 / 2
    ensures k < top && Pow2(k) * 2 % WORD32 == Pow2(k + 1) <= WORD32 / 2
  {
    Pow2Monotone(k + 1, top);
  }

  method ComputeBits(capacity: int) returns (bits: nat)
    requires SafeCapacity(capacity)
    ensures IsPow2(bits) && 1024 <= bits <= WORD32 / 2 && bits >= Target(capacity)
    ensures bits == 1024 || bits < 2 * Target(capacity)
  {
    var target := Target(capacity);
    SafeTarget(capacity);
    bits := 1;
    ghost var k, top := 0, 31;
    WordPowers(top, 63);
    while bits < target
      invariant k <= top && bits == Pow2(k) <= WORD32 / 2
      invariant bits == 1 || bits < 2 * target
      decreases top - k
    {
      DoublingFits(k, top);
      bits := bits * 2 % WORD32;
      k := k + 1;
    }
    if bits < MIN_BITS {
      bits := MIN_BITS;
      assert bits == Pow2(10);
    }
  }

  // ---------- Positions ----------

  datatype Config = Config(hash: string -> Hash64, bits: nat) {
    ghost predicate Valid() {
      IsPow2(bits) && bits >= MIN_BITS
    }
  }

  function Pos1(cfg: Config, key: string): (r: nat)
    requires cfg.bits >= 1
    ensures r < cfg.bits
  {
    And(cfg.hash(key) % WORD32, cfg.bits - 1)
  }

  function Pos2(cfg: Config, key: string): (r: nat)
    requires cfg.bits >= 1
    ensures r < cfg.bits
  {
    var h2 := And(cfg.hash(key) / WORD32, cfg.bits - 1);
    if Pos1(cfg, key) == h2 then And((h2 + 1) % WORD32, cfg.bits - 1) else h2
  }

  /** The positions are the halves of the key's hash modulo the number of counters, the second moved on by one if they
      are the same. */
  lemma {:induction false} PositionsAreMod(cfg: Config, key: string)
    requires cfg.Valid() && cfg.bits <= WORD32 / 2
    ensures var h1, h2 := cfg.hash(key) % WORD32 % cfg.bits, cfg.hash(key) / WORD32 % cfg.bits;
            Pos1(cfg, key) == h1 && Pos2(cfg, key) == if h1 == h2 then (h2 + 1) % cfg.bits else h2
  {
    var k: nat :| cfg.bits == Pow2(k);
    hide And, Pow2;
    AndMaskIsMod(cfg.hash(key) % WORD32, k);
    AndMaskIsMod(cfg.hash(key) / WORD32, k);
    var h2 := cfg.hash(key) / WORD32 % cfg.bits;
    AndMaskIsMod(h2 + 1, k);
    DivModUnique(h2 + 1, WORD32, 0, h2 + 1);
  }

  /** The two positions of a key never collapse. */
  lemma {:induction false} PositionsDiffer(cfg: Config, key: string)
    requires cfg.Valid() && cfg.bits <= WORD32 / 2
    ensures Pos1(cfg, key) != Pos2(cfg, key)
  {
    var h := Pos1(cfg, key);
    var k: nat :| cfg.bits == Pow2(k);
    AndMaskIsMod(h + 1, k);
    SuccessorDiffers(h, cfg.bits);
    assert (h + 1) % WORD32 == h + 1;
  }

  lemma {:induction false} SuccessorDiffers(h: nat, n: nat)
    requires h < n && n >= 2
    ensures (h + 1) % n != h
  {
    if h + 1 < n { DivModUnique(h + 1, n, 0, h + 1); } else { DivModUnique(h + 1, n, 1, 0); }
  }

  function Pos(cfg: Config, key: string, which: bool): (r: nat)
    requires cfg.bits >= 1
    ensures r < cfg.bits
  {
    if which then Pos2(cfg, key) else Pos1(cfg, key)
  }

  // ---------- The machine ----------

  /** Where a running mark is: about to load, or about to swap the value it loaded, on its first or second cell. */
  datatype Stage = Loading(which: bool) | Swapping(which: bool, old_value: nat)
  datatype Mark = Mark(key: string, stage: Stage)

  /** A running lookup with the values loaded so far: active and shadow cell of the first position, then of the
      second; and whether the key had two finished marks in the active or shadow bucket when it began. */
  datatype Check = Check(key: string, loaded: seq<nat>, inActive: bool, inShadow: bool)

  /** One increment: a mark and which of its two cells. */
  type Touch = (nat, bool)

  /** One bucket and its ghost record: the increments performed on it in its epoch, and the marks finished in it. */
  datatype Bucket = Bucket(cells: seq<nat>, touched: set<Touch>, finished: set<nat>)

  /** `keys` remembers the key of every mark ever begun; identifiers are not reused. */
  datatype State = State(
    active: Bucket,
    shadow: Bucket,
    marks: map<nat, Mark>,
    checks: map<nat, Check>,
    keys: map<nat, string>)

  function EmptyBucket(cfg: Config): (b: Bucket) {
    Bucket(seq(cfg.bits, _ => 0), {}, {})
  }

  function Initial(cfg: Config): (s: State) {
    State(EmptyBucket(cfg), EmptyBucket(cfg), map[], map[], map[])
  }

  datatype Step =
    | BeginMark(mark: nat, key: string)
    | Load(mark: nat)
    | Swap(mark: nat)
    | BeginCheck(check: nat, key: string)
    | LoadCheck(check: nat)
    | EndCheck(check: nat)
    | Rotate

  predicate Enabled(s: State, step: Step) {
    match step
    case BeginMark(m, _) => m !in s.keys
    case Load(m) => m in s.marks && s.marks[m].stage.Loading?
    case Swap(m) => m in s.marks && s.marks[m].stage.Swapping?
    case BeginCheck(c, _) => c !in s.checks
    case LoadCheck(c) => c in s.checks && |s.checks[c].loaded| < 4
    case EndCheck(c) => c in s.checks && |s.checks[c].loaded| == 4
    case Rotate => s.marks == map[] && s.checks == map[]
  }

  ghost predicate Shape(cfg: Config, s: State) {
    |s.active.cells| == cfg.bits && |s.shadow.cells| == cfg.bits
  }

  /** The mark has dealt with a cell: it goes to its second cell, or finishes. */
  function Advance(s: State, m: nat, which: bool, cells: seq<nat>): (r: State)
    requires m in s.marks
  {
    var b :=
      Bucket(cells, s.active.touched + {(m, which)}, if which then s.active.finished + {m} else s.active.finished);
    s.(active := b, marks := if which then s.marks - {m} else s.marks[m := Mark(s.marks[m].key, Loading(true))])
  }

  /** Two different marks of the key have finished in the bucket's epoch. */
  ghost predicate TwoFinished(keys: map<nat, string>, b: Bucket, key: string) {
    exists m, n ::
      m in b.finished && n in b.finished && m != n && m in keys && n in keys && keys[m] == key && keys[n] == key
  }

  function CheckCell(cfg: Config, s: State, c: Check): (r: nat)
    requires cfg.bits >= 1 && Shape(cfg, s)
  {
    var p := Pos(cfg, c.key, |c.loaded| >= 2);
    if |c.loaded| % 2 == 0 then s.active.cells[p] else s.shadow.cells[p]
  }

  ghost function Apply(cfg: Config, s: State, step: Step): (r: State)
    requires cfg.Valid() && Shape(cfg, s) && Enabled(s, step)
    ensures Shape(cfg, r)
  {
    match step
    case BeginMark(m, key) => s.(marks := s.marks[m := Mark(key, Loading(false))], keys := s.keys[m := key])
    case Load(m) =>
      var mark := s.marks[m];
      var v := s.active.cells[Pos(cfg, mark.key, mark.stage.which)];
      if v >= COUNTER_MAX then Advance(s, m, mark.stage.which, s.active.cells)
      else s.(marks := s.marks[m := Mark(mark.key, Swapping(mark.stage.which, v))])
    case Swap(m) =>
      var mark := s.marks[m];
      var p := Pos(cfg, mark.key, mark.stage.which);
      if s.active.cells[p] == mark.stage.old_value
      then Advance(s, m, mark.stage.which, s.active.cells[p := mark.stage.old_value + 1])
      else s.(marks := s.marks[m := Mark(mark.key, Loading(mark.stage.which))])
    case BeginCheck(c, key) =>
      s.(checks := s.checks[c := Check(key, [], TwoFinished(s.keys, s.active, key),
                                       TwoFinished(s.keys, s.shadow, key))])
    case LoadCheck(c) =>
      var check := s.checks[c];
      s.(checks := s.checks[c := check.(loaded := check.loaded + [CheckCell(cfg, s, check)])])
    case EndCheck(c) => s.(checks := s.checks - {c})
    case Rotate => s.(active := EmptyBucket(cfg), shadow := s.active)
  }

  function Max(a: nat, b: nat): (r: nat) {
    if a > b then a else b
  }

  /** What a finished lookup answers. */
  predicate Reports(c: Check)
    requires |c.loaded| == 4
  {
    Max(c.loaded[0], c.loaded[1]) >= THRESHOLD && Max(c.loaded[2], c.loaded[3]) >= THRESHOLD
  }

  /** The state after a sequence of steps, if each was enabled in turn. */
  ghost function Run(cfg: Config, s: State, steps: seq<Step>): (r: Option<State>)
    requires cfg.Valid() && Shape(cfg, s)
    ensures r.Some? ==> Shape(cfg, r.value)
  {
    if steps == [] then Some(s)
    else
      var n := |steps| - 1;
      var t := Run(cfg, s, steps[..n]);
      if t.Some? && Enabled(t.value, steps[n]) then Some(Apply(cfg, t.value, steps[n])) else None
  }

  // ---------- Invariant ----------

  /** The increments that hit a cell. */
  ghost function Touching(cfg: Config, keys: map<nat, string>, touched: set<Touch>, cell: nat): (r: set<Touch>)
    requires cfg.bits >= 1
  {
    set t | t in touched && t.0 in keys && Pos(cfg, keys[t.0], t.1) == cell
  }

  function Capped(n: nat): (r: nat) {
    if n > COUNTER_MAX then COUNTER_MAX else n
  }

  /** Every cell equals the number of increments that hit it, capped at 255, and a finished mark has hit both its
      cells. */
  ghost predicate BucketOk(cfg: Config, keys: map<nat, string>, b: Bucket)
    requires cfg.bits >= 1
  {
    && |b.cells| == cfg.bits
    && (forall t :: t in b.touched ==> t.0 in keys)
    && (forall c :: 0 <= c < cfg.bits ==> b.cells[c] == Capped(|Touching(cfg, keys, b.touched, c)|))
    && (forall m :: m in b.finished ==> m in keys && (m, false) in b.touched && (m, true) in b.touched)
  }

  /** A running mark has hit its first cell exactly when it is at its second, never its second. */
  ghost predicate MarkOk(s: State, m: nat)
    requires m in s.marks
  {
    var mark := s.marks[m];
    && m in s.keys && s.keys[m] == mark.key
    && ((m, false) in s.active.touched <==> mark.stage.which)
    && (m, true) !in s.active.touched
    && (mark.stage.Swapping? ==> mark.stage.old_value < COUNTER_MAX)
  }

  /** The i-th value a lookup loads: active and shadow cell of the first position, then of the second. */
  ghost function Source(cfg: Config, s: State, key: string, i: nat): (r: nat)
    requires cfg.bits >= 1 && Shape(cfg, s)
  {
    var p := Pos(cfg, key, i >= 2);
    if i % 2 == 0 then s.active.cells[p] else s.shadow.cells[p]
  }

  /** A lookup's values are no larger than the cells now, and at least two wherever it began with two finished marks. */
  ghost predicate CheckOk(cfg: Config, s: State, c: nat)
    requires cfg.bits >= 1 && Shape(cfg, s) && c in s.checks
  {
    var check := s.checks[c];
    && |check.loaded| <= 4
    && (check.inActive ==> TwoFinished(s.keys, s.active, check.key))
    && (check.inShadow ==> TwoFinished(s.keys, s.shadow, check.key))
    && forall i :: 0 <= i < |check.loaded| ==>
         && check.loaded[i] <= Source(cfg, s, check.key, i)
         && ((if i % 2 == 0 then check.inActive else check.inShadow) ==> check.loaded[i] >= THRESHOLD)
  }

  ghost predicate Inv(cfg: Config, s: State)
    requires cfg.bits >= 1
  {
    && BucketOk(cfg, s.keys, s.active)
    && BucketOk(cfg, s.keys, s.shadow)
    && (forall m :: m in s.marks ==> MarkOk(s, m))
  }

  ghost predicate ChecksOk(cfg: Config, s: State)
    requires cfg.bits >= 1 && Shape(cfg, s)
  {
    forall c :: c in s.checks ==> CheckOk(cfg, s, c)
  }

  lemma {:induction false} NewTouch(cfg: Config, keys: map<nat, string>, touched: set<Touch>, m: nat, which: bool,
                                    cell: nat)
    requires cfg.bits >= 1 && m in keys && (m, which) !in touched
    ensures |Touching(cfg, keys, touched + {(m, which)}, cell)| ==
            |Touching(cfg, keys, touched, cell)| + (if Pos(cfg, keys[m], which) == cell then 1 else 0)
  {
    var before, after := Touching(cfg, keys, touched, cell), Touching(cfg, keys, touched + {(m, which)}, cell);
    if Pos(cfg, keys[m], which) == cell {
      assert after == before + {(m, which)};
    } else {
      assert after == before;
    }
  }

  /** Finishing an increment keeps the bucket exact, whether the cell was swapped or saturated. */
  lemma {:induction false} AdvanceKeeps(cfg: Config, s: State, m: nat, which: bool, cells: seq<nat>)
    requires cfg.Valid() && Inv(cfg, s) && m in s.marks && s.marks[m].stage.which == which
    requires var p := Pos(cfg, s.marks[m].key, which);
      cells == s.active.cells[p := Capped(s.active.cells[p] + 1)]
    ensures Inv(cfg, Advance(s, m, which, cells))
  {
    var t := Advance(s, m, which, cells);
    assert MarkOk(s, m);
    forall c | 0 <= c < cfg.bits
      ensures t.active.cells[c] == Capped(|Touching(cfg, t.keys, t.active.touched, c)|)
    {
      NewTouch(cfg, s.keys, s.active.touched, m, which, c);
    }
    forall k | k in t.marks
      ensures MarkOk(t, k)
    {
      assert MarkOk(s, k);
    }
  }

  lemma {:induction false} BeginMarkKeeps(cfg: Config, s: State, m: nat, key: string)
    requires cfg.Valid() && Inv(cfg, s) && m !in s.keys
    ensures Inv(cfg, Apply(cfg, s, BeginMark(m, key)))
  {
    var t := Apply(cfg, s, BeginMark(m, key));
    KeysGrow(cfg, s.keys, m, key, s.active);
    KeysGrow(cfg, s.keys, m, key, s.shadow);
    forall k | k in t.marks
      ensures MarkOk(t, k)
    {
      if k != m { assert MarkOk(s, k); }
    }
  }

  lemma {:induction false} KeysGrow(cfg: Config, keys: map<nat, string>, m: nat, key: string, b: Bucket)
    requires cfg.bits >= 1 && BucketOk(cfg, keys, b) && m !in keys
    ensures BucketOk(cfg, keys[m := key], b)
  {
    forall c | 0 <= c < cfg.bits
      ensures Touching(cfg, keys[m := key], b.touched, c) == Touching(cfg, keys, b.touched, c)
    {
    }
  }

  lemma {:induction false} StepKeepsInv(cfg: Config, s: State, step: Step)
    requires cfg.Valid() && Inv(cfg, s) && Enabled(s, step)
    ensures Inv(cfg, Apply(cfg, s, step))
  {
    match step
    case BeginMark(m, key) => BeginMarkKeeps(cfg, s, m, key);
    case Load(m) => LoadKeeps(cfg, s, m);
    case Swap(m) => SwapKeeps(cfg, s, m);
    case BeginCheck(c, key) => assert forall m :: m in s.marks ==> MarkOk(s, m) && MarkOk(Apply(cfg, s, step), m);
    case LoadCheck(c) => assert forall m :: m in s.marks ==> MarkOk(s, m) && MarkOk(Apply(cfg, s, step), m);
    case EndCheck(c) => assert forall m :: m in s.marks ==> MarkOk(s, m) && MarkOk(Apply(cfg, s, step), m);
    case Rotate =>
      forall c | 0 <= c < cfg.bits
        ensures Touching(cfg, s.keys, {}, c) == {}
      {
      }
  }

  lemma {:induction false} LoadKeeps(cfg: Config, s: State, m: nat)
    requires cfg.Valid() && Inv(cfg, s) && Enabled(s, Load(m))
    ensures Inv(cfg, Apply(cfg, s, Load(m)))
  {
    var mark, t := s.marks[m], Apply(cfg, s, Load(m));
    var p := Pos(cfg, mark.key, mark.stage.which);
    assert MarkOk(s, m);
    if s.active.cells[p] >= COUNTER_MAX {
      assert s.active.cells[p] == COUNTER_MAX;
      assert s.active.cells == s.active.cells[p := Capped(s.active.cells[p] + 1)];
      AdvanceKeeps(cfg, s, m, mark.stage.which, s.active.cells);
    } else {
      forall k | k in t.marks ensures MarkOk(t, k) { assert MarkOk(s, k); }
    }
  }

  lemma {:induction false} SwapKeeps(cfg: Config, s: State, m: nat)
    requires cfg.Valid() && Inv(cfg, s) && Enabled(s, Swap(m))
    ensures Inv(cfg, Apply(cfg, s, Swap(m)))
  {
    var mark, t := s.marks[m], Apply(cfg, s, Swap(m));
    var p := Pos(cfg, mark.key, mark.stage.which);
    assert MarkOk(s, m);
    if s.active.cells[p] == mark.stage.old_value {
      AdvanceKeeps(cfg, s, m, mark.stage.which, s.active.cells[p := mark.stage.old_value + 1]);
    } else {
      forall k | k in t.marks ensures MarkOk(t, k) { assert MarkOk(s, k); }
    }
  }

  /** Two finished marks leave at least two in both of the key's cells. */
  lemma {:induction false} TwoFinishedCells(cfg: Config, keys: map<nat, string>, b: Bucket, key: string, which: bool)
    requires cfg.bits >= 1 && BucketOk(cfg, keys, b) && TwoFinished(keys, b, key)
    ensures b.cells[Pos(cfg, key, which)] >= THRESHOLD
  {
    var m, n :|
      m in b.finished && n in b.finished && m != n && m in keys && n in keys && keys[m] == key && keys[n] == key;
    var touching := Touching(cfg, keys, b.touched, Pos(cfg, key, which));
    var two: set<Touch> := {(m, which), (n, which)};
    assert two <= touching;
    SubsetCount(two, touching);
  }

  lemma {:induction false} SubsetCount(a: set<Touch>, b: set<Touch>)
    requires a <= b
    ensures |a| <= |b|
  {
    assert b == a + (b - a);
  }

  /** Within an epoch cells only grow and finished marks stay finished. */
  ghost predicate Grows(s: State, t: State) {
    && |t.active.cells| == |s.active.cells| && t.shadow == s.shadow
    && (forall i :: 0 <= i < |s.active.cells| ==> s.active.cells[i] <= t.active.cells[i])
    && s.active.finished <= t.active.finished
    && (forall m :: m in s.keys ==> m in t.keys && t.keys[m] == s.keys[m])
  }

  lemma {:induction false} StepGrows(cfg: Config, s: State, step: Step)
    requires cfg.Valid() && Shape(cfg, s) && Enabled(s, step) && !step.Rotate?
    ensures Grows(s, Apply(cfg, s, step))
  {
  }

  lemma {:induction false} CheckOkGrows(cfg: Config, s: State, t: State, c: nat)
    requires cfg.bits >= 1 && Shape(cfg, s) && Shape(cfg, t) && Grows(s, t)
    requires c in s.checks && c in t.checks && t.checks[c] == s.checks[c] && CheckOk(cfg, s, c)
    ensures CheckOk(cfg, t, c)
  {
    var key := s.checks[c].key;
    FinishedGrows(s.keys, t.keys, s.active, t.active, key);
    FinishedGrows(s.keys, t.keys, s.shadow, t.shadow, key);
    forall i | 0 <= i < |s.checks[c].loaded|
      ensures Source(cfg, s, key, i) <= Source(cfg, t, key, i)
    {
    }
  }

  lemma {:induction false} FinishedGrows(keys: map<nat, string>, keys': map<nat, string>, b: Bucket, b': Bucket,
                                         key: string)
    requires b.finished <= b'.finished && forall m :: m in keys ==> m in keys' && keys'[m] == keys[m]
    ensures TwoFinished(keys, b, key) ==> TwoFinished(keys', b', key)
  {
  }

  lemma {:induction false} StepKeepsChecks(cfg: Config, s: State, step: Step)
    requires cfg.Valid() && Shape(cfg, s) && Inv(cfg, s) && ChecksOk(cfg, s) && Enabled(s, step)
    ensures ChecksOk(cfg, Apply(cfg, s, step))
  {
    var t := Apply(cfg, s, step);
    if !step.Rotate? {
      StepGrows(cfg, s, step);
      forall c | c in t.checks
        ensures CheckOk(cfg, t, c)
      {
        if step.LoadCheck? && step.check == c {
          LoadCheckOk(cfg, s, c);
        } else if c in s.checks && t.checks[c] == s.checks[c] {
          CheckOkGrows(cfg, s, t, c);
        }
      }
    }
  }

  lemma {:induction false} LoadCheckOk(cfg: Config, s: State, c: nat)
    requires cfg.Valid() && Shape(cfg, s) && Inv(cfg, s) && Enabled(s, LoadCheck(c)) && CheckOk(cfg, s, c)
    ensures CheckOk(cfg, Apply(cfg, s, LoadCheck(c)), c)
  {
    var check, t := s.checks[c], Apply(cfg, s, LoadCheck(c));
    var i := |check.loaded|;
    if i % 2 == 0 && check.inActive { TwoFinishedCells(cfg, s.keys, s.active, check.key, i >= 2); }
    if i % 2 == 1 && check.inShadow { TwoFinishedCells(cfg, s.keys, s.shadow, check.key, i >= 2); }
    assert t.checks[c].loaded[i] == Source(cfg, s, check.key, i);
    forall k | 0 <= k <= i
      ensures Source(cfg, t, check.key, k) == Source(cfg, s, check.key, k)
    {
    }
  }

  /** In every interleaving, each active cell equals the capped number of increments that hit it this epoch, and
      each shadow cell the same for the previous epoch. */
  lemma {:induction false} RunKeepsInv(cfg: Config, s: State, steps: seq<Step>)
    requires cfg.Valid() && Shape(cfg, s) && Inv(cfg, s) && ChecksOk(cfg, s) && Run(cfg, s, steps).Some?
    ensures Inv(cfg, Run(cfg, s, steps).value) && ChecksOk(cfg, Run(cfg, s, steps).value)
  {
    if steps != [] {
      var n := |steps| - 1;
      RunKeepsInv(cfg, s, steps[..n]);
      StepKeepsInv(cfg, Run(cfg, s, steps[..n]).value, steps[n]);
      StepKeepsChecks(cfg, Run(cfg, s, steps[..n]).value, steps[n]);
    }
  }

  lemma InitialInv(cfg: Config)
    requires cfg.Valid()
    ensures Shape(cfg, Initial(cfg)) && Inv(cfg, Initial(cfg)) && ChecksOk(cfg, Initial(cfg))
  {
    forall c | 0 <= c < cfg.bits
      ensures Touching(cfg, map[], {}, c) == {}
    {
    }
  }

  // ---------- What lookups see ----------

  /** In every interleaving from an empty filter, a lookup that began with two finished marks of its key in
      the current or the previous epoch reports the key; and a lookup that reports a key finds at least two
      increments, in one of the two epochs, on each of its cells. */
  lemma LookupAnswers(cfg: Config, steps: seq<Step>, c: nat)
    requires cfg.Valid() && Shape(cfg, Initial(cfg)) && Run(cfg, Initial(cfg), steps).Some?
    requires var s := Run(cfg, Initial(cfg), steps).value; c in s.checks && |s.checks[c].loaded| == 4
    ensures var s := Run(cfg, Initial(cfg), steps).value;
      var check := s.checks[c];
      && (check.inActive || check.inShadow ==> Reports(check))
      && (Reports(check) ==> forall which ::
            var p := Pos(cfg, check.key, which);
            |Touching(cfg, s.keys, s.active.touched, p)| >= THRESHOLD ||
            |Touching(cfg, s.keys, s.shadow.touched, p)| >= THRESHOLD)
  {
    InitialInv(cfg);
    RunKeepsInv(cfg, Initial(cfg), steps);
    var s := Run(cfg, Initial(cfg), steps).value;
    var check := s.checks[c];
    assert CheckOk(cfg, s, c);
    if Reports(check) {
      assert check.loaded[0] <= Source(cfg, s, check.key, 0) && check.loaded[1] <= Source(cfg, s, check.key, 1);
      assert check.loaded[2] <= Source(cfg, s, check.key, 2) && check.loaded[3] <= Source(cfg, s, check.key, 3);
    }
  }

  /** At most one mark ever begun has a position at the cell. */
  ghost predicate OneMarkAt(cfg: Config, keys: map<nat, string>, cell: nat)
    requires cfg.bits >= 1
  {
    forall m, n :: m in keys && n in keys && HitsCell(cfg, keys[m], cell) && HitsCell(cfg, keys[n], cell) ==> m == n
  }

  predicate HitsCell(cfg: Config, key: string, cell: nat)
    requires cfg.bits >= 1
  {
    Pos1(cfg, key) == cell || Pos2(cfg, key) == cell
  }

  lemma {:induction false} OneTouch(cfg: Config, keys: map<nat, string>, touched: set<Touch>, cell: nat)
    requires cfg.Valid() && cfg.bits <= WORD32 / 2 && OneMarkAt(cfg, keys, cell)
    ensures |Touching(cfg, keys, touched, cell)| <= 1
  {
    var hits := Touching(cfg, keys, touched, cell);
    if t :| t in hits {
      forall u | u in hits ensures u == t {
        assert HitsCell(cfg, keys[t.0], cell) && HitsCell(cfg, keys[u.0], cell);
        PositionsDiffer(cfg, keys[t.0]);
      }
      assert hits == {t};
    }
  }

  /** One mark is not enough: in no interleaving does a lookup report a key if at most one mark, its own or
      another's, ever had a position at one of its cells. */
  lemma {:induction false} OneMarkIsNotReported(cfg: Config, steps: seq<Step>, c: nat, which: bool)
    requires cfg.Valid() && cfg.bits <= WORD32 / 2
    requires Shape(cfg, Initial(cfg)) && Run(cfg, Initial(cfg), steps).Some?
    requires var s := Run(cfg, Initial(cfg), steps).value;
             c in s.checks && |s.checks[c].loaded| == 4 && OneMarkAt(cfg, s.keys, Pos(cfg, s.checks[c].key, which))
    ensures !Reports(Run(cfg, Initial(cfg), steps).value.checks[c])
  {
    LookupAnswers(cfg, steps, c);
    var s := Run(cfg, Initial(cfg), steps).value;
    hide Run, Reports;
    var p := Pos(cfg, s.checks[c].key, which);
    OneTouch(cfg, s.keys, s.active.touched, p);
    OneTouch(cfg, s.keys, s.shadow.touched, p);
  }

  /** Every cell counts the increments that hit it in its epoch and stops at 255. */
  lemma {:induction false} CellsCount(cfg: Config, steps: seq<Step>, cell: nat)
    requires cfg.Valid() && Shape(cfg, Initial(cfg)) && Run(cfg, Initial(cfg), steps).Some? && cell < cfg.bits
    ensures var s := Run(cfg, Initial(cfg), steps).value;
            && var n, old_n := |Touching(cfg, s.keys, s.active.touched, cell)|,
               |Touching(cfg, s.keys, s.shadow.touched, cell)|;
               && s.active.cells[cell] == (if n < 255 then n else 255)
               && s.shadow.cells[cell] == (if old_n < 255 then old_n else 255)
  {
    InitialInv(cfg);
    RunKeepsInv(cfg, Initial(cfg), steps);
  }

  function Rotations(steps: seq<Step>): (r: nat) {
    if steps == [] then 0 else Rotations(steps[..|steps| - 1]) + (if steps[|steps| - 1].Rotate? then 1 else 0)
  }

  /** Two finished marks stay on record through everything up to the second rotation after them. */
  lemma {:induction false} TwoMarksPersist(cfg: Config, s: State, steps: seq<Step>, key: string)
    requires cfg.Valid() && Shape(cfg, s) && Run(cfg, s, steps).Some?
    requires TwoFinished(s.keys, s.active, key) && Rotations(steps) <= 1
    ensures var t := Run(cfg, s, steps).value;
      TwoFinished(t.keys, if Rotations(steps) == 0 then t.active else t.shadow, key)
  {
    if steps != [] {
      var n := |steps| - 1;
      var t := Run(cfg, s, steps[..n]).value;
      TwoMarksPersist(cfg, s, steps[..n], key);
      if !steps[n].Rotate? {
        var u := Apply(cfg, t, steps[n]);
        StepGrows(cfg, t, steps[n]);
        FinishedGrows(t.keys, u.keys, t.active, u.active, key);
        FinishedGrows(t.keys, u.keys, t.shadow, u.shadow, key);
      }
    }
  }

  ghost predicate Zero(cells: seq<nat>) {
    forall i :: 0 <= i < |cells| ==> cells[i] == 0
  }

  /** Without new marks an epoch leaves its bucket empty. */
  lemma {:induction false} QuietEpoch(cfg: Config, s: State, steps: seq<Step>)
    requires cfg.Valid() && Shape(cfg, s) && Run(cfg, s, steps).Some? && Zero(s.active.cells) && s.marks == map[]
    requires forall i :: 0 <= i < |steps| ==> !steps[i].BeginMark? && !steps[i].Rotate?
    ensures var t := Run(cfg, s, steps).value; Zero(t.active.cells) && t.marks == map[]
  {
    if steps != [] {
      var n := |steps| - 1;
      assert forall i :: 0 <= i < n ==> steps[..n][i] == steps[i];
      QuietEpoch(cfg, s, steps[..n]);
    }
  }

  /** A rotation, a stretch without marks, and another rotation clear every cell. */
  lemma {:induction false} TwoQuietRotationsClear(cfg: Config, s: State, quiet: seq<Step>)
    requires cfg.Valid() && Shape(cfg, s) && Run(cfg, s, [Rotate] + quiet + [Rotate]).Some?
    requires forall i :: 0 <= i < |quiet| ==> !quiet[i].BeginMark? && !quiet[i].Rotate?
    ensures var t := Run(cfg, s, [Rotate] + quiet + [Rotate]).value; Zero(t.active.cells) && Zero(t.shadow.cells)
  {
    var steps := [Rotate] + quiet + [Rotate];
    assert steps[..|steps| - 1] == [Rotate] + quiet;
    RunConcat(cfg, s, [Rotate], quiet);
    RunOne(cfg, s, Rotate);
    QuietEpoch(cfg, Run(cfg, s, [Rotate]).value, quiet);
    RotateClears(cfg, Run(cfg, s, [Rotate] + quiet).value);
  }

  lemma {:induction false} RunOne(cfg: Config, s: State, step: Step)
    requires cfg.Valid() && Shape(cfg, s) && Run(cfg, s, [step]).Some?
    ensures Enabled(s, step) && Run(cfg, s, [step]) == Some(Apply(cfg, s, step))
  {
    assert [step][..0] == [];
  }

  lemma {:induction false} RotateClears(cfg: Config, s: State)
    requires cfg.Valid() && Shape(cfg, s) && Enabled(s, Rotate)
    ensures Zero(Apply(cfg, s, Rotate).active.cells) && Apply(cfg, s, Rotate).shadow == s.active
  {
  }

  lemma {:induction false} RunConcat(cfg: Config, s: State, a: seq<Step>, b: seq<Step>)
    requires cfg.Valid() && Shape(cfg, s) && Run(cfg, s, a + b).Some?
    ensures Run(cfg, s, a).Some? && Run(cfg, Run(cfg, s, a).value, b) == Run(cfg, s, a + b)
  {
    if b == [] {
      assert a + b == a;
    } else {
      var n := |b| - 1;
      assert (a + b)[..|a| + n] == a + b[..n];
      RunConcat(cfg, s, a, b[..n]);
    }
  }

  // ---------- Marks and lookups end to end ----------

  /** The same lookup, with the same beginning. */
  ghost predicate SameCheck(s: State, t: State, c: nat) {
    && c in s.checks && c in t.checks && t.checks[c].key == s.checks[c].key
    && t.checks[c].inActive == s.checks[c].inActive && t.checks[c].inShadow == s.checks[c].inShadow
  }

  lemma {:induction false} CheckStep(cfg: Config, s: State, step: Step, c: nat)
    requires cfg.Valid() && Shape(cfg, s) && Enabled(s, step) && c in s.checks && step != EndCheck(c)
    ensures SameCheck(s, Apply(cfg, s, step), c)
  {
    hide TwoFinished, Pos;
    match step
    case BeginMark(_, _) =>
    case Load(_) =>
    case Swap(_) =>
    case BeginCheck(_, _) =>
    case LoadCheck(_) =>
    case EndCheck(_) =>
    case Rotate =>
  }

  /** A lookup stays the same until it ends. */
  lemma {:induction false} CheckStays(cfg: Config, s: State, steps: seq<Step>, c: nat)
    requires cfg.Valid() && Shape(cfg, s) && Run(cfg, s, steps).Some? && c in s.checks
    requires forall i :: 0 <= i < |steps| ==> steps[i] != EndCheck(c)
    ensures SameCheck(s, Run(cfg, s, steps).value, c)
  {
    if steps != [] {
      hide Apply, Enabled;
      var n := |steps| - 1;
      assert forall i :: 0 <= i < n ==> steps[..n][i] == steps[i];
      CheckStays(cfg, s, steps[..n], c);
      CheckStep(cfg, Run(cfg, s, steps[..n]).value, steps[n], c);
    }
  }

  /** Any lookup begun after two finished marks of its key, with at most one rotation between, reports the key, whatever
      marks and lookups run beside it. */
  lemma {:induction false} MarkedIsReported(cfg: Config, before: seq<Step>, between: seq<Step>, c: nat, key: string,
                                            after: seq<Step>)
    requires cfg.Valid() && Shape(cfg, Initial(cfg)) &&
             Run(cfg, Initial(cfg), before + between + [BeginCheck(c, key)] + after).Some?
    requires Run(cfg, Initial(cfg), before).Some?
    requires var s := Run(cfg, Initial(cfg), before).value; TwoFinished(s.keys, s.active, key)
    requires Rotations(between) <= 1 && forall i :: 0 <= i < |after| ==> after[i] != EndCheck(c)
    ensures var t := Run(cfg, Initial(cfg), before + between + [BeginCheck(c, key)] + after).value;
            && c in t.checks && t.checks[c].key == key
            && (|t.checks[c].loaded| == 4 ==> Reports(t.checks[c]))
  {
    var init, marked := Initial(cfg), before + between;
    var begun := marked + [BeginCheck(c, key)];
    RunConcat(cfg, init, begun, after);
    RunConcat(cfg, init, marked, [BeginCheck(c, key)]);
    RunConcat(cfg, init, before, between);
    var s := Run(cfg, init, marked).value;
    RunOne(cfg, s, BeginCheck(c, key));
    TwoMarksPersist(cfg, Run(cfg, init, before).value, between, key);
    CheckBegins(cfg, s, c, key);
    hide Run, TwoFinished;
    CheckStays(cfg, Run(cfg, init, begun).value, after, c);
    if |Run(cfg, init, begun + after).value.checks[c].loaded| == 4 { LookupAnswers(cfg, begun + after, c); }
  }

  lemma {:induction false} CheckBegins(cfg: Config, s: State, c: nat, key: string)
    requires cfg.Valid() && Shape(cfg, s) && Enabled(s, BeginCheck(c, key))
    ensures Apply(cfg, s, BeginCheck(c, key)).checks ==
            s.checks[c := Check(key, [], TwoFinished(s.keys, s.active, key), TwoFinished(s.keys, s.shadow, key))]
  {
  }

  /** Nothing marked, nothing counted, and every running lookup has seen only zeros. */
  ghost predicate Clear(s: State) {
    && Zero(s.active.cells) && Zero(s.shadow.cells) && s.marks == map[]
    && (forall c :: c in s.checks ==> Zero(s.checks[c].loaded))
  }

  lemma {:induction false} ClearStep(cfg: Config, s: State, step: Step)
    requires cfg.Valid() && Shape(cfg, s) && Enabled(s, step) && Clear(s) && !step.BeginMark?
    ensures Clear(Apply(cfg, s, step))
  {
    hide TwoFinished;
  }

  lemma {:induction false} StaysClear(cfg: Config, s: State, steps: seq<Step>)
    requires cfg.Valid() && Shape(cfg, s) && Clear(s) && Run(cfg, s, steps).Some?
    requires forall i :: 0 <= i < |steps| ==> !steps[i].BeginMark?
    ensures Clear(Run(cfg, s, steps).value)
  {
    if steps != [] {
      var n := |steps| - 1;
      assert forall i :: 0 <= i < n ==> steps[..n][i] == steps[i];
      StaysClear(cfg, s, steps[..n]);
      hide Clear, Apply, Enabled;
      ClearStep(cfg, Run(cfg, s, steps[..n]).value, steps[n]);
    }
  }

  /** After two rotations without a mark between them, and until the next mark begins, no lookup reports any key. */
  lemma {:induction false} QuietReportsNothing(cfg: Config, s: State, quiet: seq<Step>, after: seq<Step>, c: nat)
    requires cfg.Valid() && Shape(cfg, s) && Run(cfg, s, [Rotate] + quiet + [Rotate] + after).Some?
    requires forall i :: 0 <= i < |quiet| ==> !quiet[i].BeginMark? && !quiet[i].Rotate?
    requires forall i :: 0 <= i < |after| ==> !after[i].BeginMark?
    ensures var t := Run(cfg, s, [Rotate] + quiet + [Rotate] + after).value;
            c in t.checks && |t.checks[c].loaded| == 4 ==> !Reports(t.checks[c])
  {
    var cleared := [Rotate] + quiet + [Rotate];
    RunConcat(cfg, s, cleared, after);
    TwoQuietRotationsClear(cfg, s, quiet);
    RotationWaits(cfg, s, [Rotate] + quiet);
    hide Run;
    StaysClear(cfg, Run(cfg, s, cleared).value, after);
  }

  lemma {:induction false} RotationWaits(cfg: Config, s: State, steps: seq<Step>)
    requires cfg.Valid() && Shape(cfg, s) && Run(cfg, s, steps + [Rotate]).Some?
    ensures var t := Run(cfg, s, steps + [Rotate]).value; t.marks == map[] && t.checks == map[]
  {
    assert (steps + [Rotate])[..|steps|] == steps;
  }

  // ---------- The object ----------

  /** A saturating increment of one cell. */
  function BumpCell(cells: seq<nat>, p: nat): (r: seq<nat>)
    requires p < |cells|
    ensures |r| == |cells|
  {
    if cells[p] >= COUNTER_MAX then cells else cells[p := cells[p] + 1]
  }

  lemma {:induction false} RunNext(cfg: Config, s: State, steps: seq<Step>, step: Step)
    requires cfg.Valid() && Shape(cfg, s) && Run(cfg, s, steps).Some?
    ensures Run(cfg, s, steps + [step]) ==
            var t := Run(cfg, s, steps).value; if Enabled(t, step) then Some(Apply(cfg, t, step)) else None
  {
    assert (steps + [step])[..|steps|] == steps;
  }

  /** A mark left alone increments the cell it is at in one load, or one load and one swap. */
  lemma {:induction false} IncrementAlone(cfg: Config, s: State, m: nat)
    requires cfg.Valid() && Shape(cfg, s) && m in s.marks && s.marks[m].stage.Loading?
    ensures var which := s.marks[m].stage.which;
      var p := Pos(cfg, s.marks[m].key, which);
      Run(cfg, s, if s.active.cells[p] >= COUNTER_MAX then [Load(m)] else [Load(m), Swap(m)])
      == Some(Advance(s, m, which, BumpCell(s.active.cells, p)))
  {
    var mark := s.marks[m];
    var p := Pos(cfg, mark.key, mark.stage.which);
    RunNext(cfg, s, [], Load(m));
    assert [] + [Load(m)] == [Load(m)];
    hide Run;
    if s.active.cells[p] < COUNTER_MAX {
      RunNext(cfg, s, [Load(m)], Swap(m));
      assert [Load(m)] + [Swap(m)] == [Load(m), Swap(m)];
      var t := Apply(cfg, s, Load(m));
      assert t.marks == s.marks[m := Mark(mark.key, Swapping(mark.stage.which, s.active.cells[p]))];
      var u := Apply(cfg, t, Swap(m));
      assert u.marks == Advance(s, m, mark.stage.which, BumpCell(s.active.cells, p)).marks;
    }
  }

  class Filter {
    const cfg: Config
    const buckets: seq<array<nat>>
    var active: nat

    ghost predicate Valid()
      reads this
    {
      && cfg.Valid() && |buckets| == 2 && buckets[0] != buckets[1]
      && buckets[0].Length == buckets[1].Length == cfg.bits && active < 2
    }

    constructor (hash: string -> Hash64, capacity: int)
      requires SafeCapacity(capacity)
      ensures Valid() && cfg.hash == hash && active == 0 && Zero(buckets[0][..]) && Zero(buckets[1][..])
    {
      var bits := ComputeBits(capacity);
      cfg := Config(hash, bits);
      var b0 := new nat[bits](_ => 0);
      var b1 := new nat[bits](_ => 0);
      buckets := [b0, b1];
      active := 0;
    }

    method Increment(p: nat)
      requires Valid() && p < cfg.bits
      modifies buckets[active]
      ensures buckets[active][..] == BumpCell(old(buckets[active][..]), p)
    {
      var bucket := buckets[active];
      var v := bucket[p];
      if v < COUNTER_MAX { bucket[p] := v + 1; }
    }

    method MarkUncacheable(key: string)
      requires Valid()
      modifies buckets[active]
      ensures Valid()
      ensures buckets[active][..] == BumpCell(BumpCell(old(buckets[active][..]), Pos1(cfg, key)), Pos2(cfg, key))
    {
      Increment(Pos1(cfg, key));
      Increment(Pos2(cfg, key));
    }

    method IsLikelyUncacheable(key: string) returns (r: bool)
      requires Valid()
      ensures r <==> forall which :: var p := Pos(cfg, key, which);
                       Max(buckets[active][p], buckets[1 - active][p]) >= THRESHOLD
    {
      var h1, h2 := Pos1(cfg, key), Pos2(cfg, key);
      var a: array<nat> := buckets[active];
      var b: array<nat> := buckets[1 - active];
      var c1 := a[h1];
      if b[h1] > c1 { c1 := b[h1]; }
      var c2 := a[h2];
      if b[h2] > c2 { c2 := b[h2]; }
      r := c1 >= THRESHOLD && c2 >= THRESHOLD;
      assert h1 == Pos(cfg, key, false) && h2 == Pos(cfg, key, true);
    }

    /** The bucket about to become active is cleared; the other keeps its counts for one more epoch. */
    method Rotate()
      requires Valid()
      modifies this`active, buckets[1 - active]
      ensures Valid() && active == 1 - old(active)
      ensures Zero(buckets[active][..]) && buckets[1 - active][..] == old(buckets[active][..])
    {
      var next := 1 - active;
      var bucket := buckets[next];
      for i := 0 to bucket.Length
        invariant forall k :: 0 <= k < i ==> bucket[k] == 0
      {
        bucket[i] := 0;
      }
      active := next;
    }
  }
}
