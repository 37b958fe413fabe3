/** TinyLFU admission: a four-row saturating count-min sketch behind a Bloom
    doorkeeper, halved at the end of every sample window. Keys are hashed by an
    uninterpreted total function. */
module TinyLfu {
  import opened Bits

  const ROWS: nat := 4
  const CELL_MAX: nat := 255
  const GOLDEN: nat := 0x9E37_79B9_7F4A_7C15

  type HashFn = string -> Hash64
  type Row = seq<nat>

  /** Sizes fixed at construction; the masks are `width - 1` and `doorBits - 1`. */
  datatype Config = Config(hash: HashFn, width: nat, doorBits: nat, window: nat) {
    ghost predicate Valid() {
      && IsPow2(width) && width >= 1
      && IsPow2(doorBits) && doorBits >= 64 && doorBits % 64 == 0
      && window >= 1
    }
  }

  /** `h >> 32 | h << 32` on 64-bit words. */
  function Rotate32(h: Hash64): (r: Hash64) {
    h / 0x1_0000_0000 + (h % 0x1_0000_0000) * 0x1_0000_0000
  }

  /** Cell of row i used for a key. */
  function CellIndex(cfg: Config, i: nat, key: string): (r: nat)
    requires cfg.width >= 1
    ensures r < cfg.width
  {
    var h1 := cfg.hash(key);
    var h2 := if Rotate32(h1) == 0 then GOLDEN else Rotate32(h1);
    And((h1 + i * h2) % WORD, cfg.width - 1)
  }

  /** The two Bloom bit positions of a key. */
  function DoorBit1(cfg: Config, key: string): (r: nat)
    requires cfg.doorBits >= 1
    ensures r < cfg.doorBits
  {
    And(cfg.hash(key), cfg.doorBits - 1)
  }

  function DoorBit2(cfg: Config, key: string): (r: nat)
    requires cfg.doorBits >= 1
    ensures r < cfg.doorBits
  {
    And(Rotate32(cfg.hash(key)), cfg.doorBits - 1)
  }

  lemma {:induction false} MaskedWord(x: nat, n: nat)
    requires IsPow2(n) && n <= WORD
    ensures And(x % WORD, n - 1) == x % n
  {
    var k: nat :| n == Pow2(k);
    hide Pow2, And;
    AndMaskIsMod(x % WORD, k);
    WordIsMultiple(k);
    ModMod(x, WORD, n, WORD / n);
  }

  lemma {:induction false} WordIsMultiple(k: nat)
    requires Pow2(k) <= WORD
    ensures WORD == (WORD / Pow2(k)) * Pow2(k) && WORD / Pow2(k) >= 1
  {
    var top := 64;
    WordPowers(31, top - 1);
    assert Pow2(top) == WORD;
    if k > top { Pow2Monotone(top + 1, k); }
    hide Pow2;
    Pow2Sum(top - k, k);
    DivModUnique(WORD, Pow2(k), Pow2(top - k), 0);
  }

  /** The second hash of a key: the first with its halves exchanged, or a constant if that is zero. */
  function SecondHash(cfg: Config, key: string): (r: nat) {
    var h := cfg.hash(key);
    var swapped := (h % 0x1_0000_0000) * 0x1_0000_0000 + h / 0x1_0000_0000;
    if swapped == 0 then 0x9E37_79B9_7F4A_7C15 else swapped
  }

  /** Double hashing: row i uses the first hash plus i times the second, modulo the width. */
  lemma {:induction false} CellIndexIsMod(cfg: Config, i: nat, key: string)
    requires cfg.Valid() && cfg.width <= WORD
    ensures CellIndex(cfg, i, key) == (cfg.hash(key) + i * SecondHash(cfg, key)) % cfg.width
  {
    hide And, IsPow2;
    var x := cfg.hash(key) + i * SecondHash(cfg, key);
    assert CellIndex(cfg, i, key) == And(x % WORD, cfg.width - 1);
    MaskedWord(x, cfg.width);
  }

  /** The two Bloom bits are the key's hash, and the hash with its halves exchanged, modulo the number of bits. */
  lemma {:induction false} DoorBitsAreMod(cfg: Config, key: string)
    requires cfg.Valid() && cfg.doorBits <= WORD
    ensures DoorBit1(cfg, key) == cfg.hash(key) % cfg.doorBits
    ensures DoorBit2(cfg, key) ==
            ((cfg.hash(key) % 0x1_0000_0000) * 0x1_0000_0000 + cfg.hash(key) / 0x1_0000_0000) % cfg.doorBits
  {
    hide And, IsPow2;
    var h := cfg.hash(key);
    var g := Rotate32(h);
    MaskedWord(h, cfg.doorBits);
    MaskedWord(g, cfg.doorBits);
    DivModUnique(h, WORD, 0, h);
    DivModUnique(g, WORD, 0, g);
  }

  /** Rows are independent: two keys that share the cell of row 0 share that of row i exactly when i times the
      difference of their second hashes is a multiple of the width; so in row 1 exactly when those agree modulo the
      width. */
  lemma {:induction false} RowsSeparate(cfg: Config, a: string, b: string, i: nat)
    requires cfg.Valid() && cfg.width <= WORD && CellIndex(cfg, 0, a) == CellIndex(cfg, 0, b)
    ensures CellIndex(cfg, i, a) == CellIndex(cfg, i, b) <==>
            (i * (SecondHash(cfg, a) - SecondHash(cfg, b))) % cfg.width == 0
  {
    hide CellIndex, SecondHash, Config.Valid;
    var x, y := SecondHash(cfg, a), SecondHash(cfg, b);
    var none := 0;
    CellIndexIsMod(cfg, none, a);
    CellIndexIsMod(cfg, none, b);
    assert none * x == 0 && none * y == 0;
    CellIndexIsMod(cfg, i, a);
    CellIndexIsMod(cfg, i, b);
    Distributes(i, x, y);
    WidthPositive(cfg);
    SameRemainder(cfg.hash(a), cfg.hash(b), i * x, i * y, cfg.width);
  }

  lemma {:induction false} Distributes(i: int, x: int, y: int)
    ensures i * (x - y) == i * x - i * y
  {
  }

  lemma {:induction false} WidthPositive(cfg: Config)
    requires cfg.Valid()
    ensures cfg.width >= 1
  {
  }

  lemma {:induction false} SameRemainder(h: nat, g: nat, x: int, y: int, n: nat)
    requires n >= 1 && h % n == g % n
    ensures (h + x) % n == (g + y) % n <==> (x - y) % n == 0
  {
    var k, r, s := (h + x) / n - h / n - (g + y) / n + g / n, (h + x) % n, (g + y) % n;
    Expand((h + x) / n, h / n, (g + y) / n, g / n, n);
    assert x - y == k * n + (r - s);
    if r >= s {
      DivModUnique(x - y, n, k, r - s);
    } else {
      Distributes(n, k, 1);
      DivModUnique(x - y, n, k - 1, r - s + n);
    }
  }

  lemma {:induction false} Expand(a: int, b: int, c: int, d: int, n: int)
    ensures (a - b - c + d) * n == a * n - b * n - c * n + d * n
  {
  }

  /** The value of the policy: sketch rows, set bit positions of the doorkeeper,
      and the number of accesses in the current window. */
  datatype State = State(rows: seq<Row>, door: set<nat>, counter: nat)

  ghost predicate Shape(cfg: Config, rows: seq<Row>) {
    |rows| == ROWS && forall i :: 0 <= i < ROWS ==> |rows[i]| == cfg.width
  }

  ghost predicate ValidState(cfg: Config, s: State) {
    && Shape(cfg, s.rows)
    && s.counter < cfg.window
    && forall i, j :: 0 <= i < ROWS && 0 <= j < cfg.width ==> s.rows[i][j] <= CELL_MAX
  }

  function Bump(row: Row, j: nat): (r: Row)
    requires j < |row|
    ensures |r| == |row|
  {
    if row[j] < CELL_MAX then row[j := row[j] + 1] else row
  }

  function Halved(row: Row): (r: Row)
    ensures |r| == |row|
  {
    seq(|row|, j requires 0 <= j < |row| => row[j] / 2)
  }

  function BumpRows(cfg: Config, rows: seq<Row>, key: string): (r: seq<Row>)
    requires cfg.Valid() && Shape(cfg, rows)
    ensures Shape(cfg, r)
  {
    seq(ROWS, i requires 0 <= i < ROWS => Bump(rows[i], CellIndex(cfg, i, key)))
  }

  function HalvedRows(rows: seq<Row>): (r: seq<Row>)
    ensures |r| == |rows|
  {
    seq(|rows|, i requires 0 <= i < |rows| => Halved(rows[i]))
  }

  /** Least of the first n cells of a key, starting from the saturation value. */
  function MinCell(cfg: Config, rows: seq<Row>, key: string, n: nat): (r: nat)
    requires cfg.Valid() && Shape(cfg, rows) && n <= ROWS
    ensures r <= CELL_MAX
    ensures forall i :: 0 <= i < n ==> r <= rows[i][CellIndex(cfg, i, key)]
    ensures r == CELL_MAX || exists i :: 0 <= i < n && r == rows[i][CellIndex(cfg, i, key)]
  {
    if n == 0 then CELL_MAX
    else
      var m := MinCell(cfg, rows, key, n - 1);
      var c := rows[n - 1][CellIndex(cfg, n - 1, key)];
      if c < m then c else m
  }

  function Estimate(cfg: Config, rows: seq<Row>, key: string): (r: nat)
    requires cfg.Valid() && Shape(cfg, rows)
  {
    MinCell(cfg, rows, key, ROWS)
  }

  predicate InDoor(cfg: Config, door: set<nat>, key: string)
    requires cfg.doorBits >= 1
  {
    DoorBit1(cfg, key) in door && DoorBit2(cfg, key) in door
  }

  function Initial(cfg: Config): (s: State)
    requires cfg.Valid()
    ensures ValidState(cfg, s)
  {
    State(seq(ROWS, i => seq(cfg.width, j => 0)), {}, 0)
  }

  /** One recorded access. */
  function Access(cfg: Config, s: State, key: string): (s': State)
    requires cfg.Valid() && ValidState(cfg, s)
    ensures ValidState(cfg, s')
  {
    var rows := if InDoor(cfg, s.door, key) then BumpRows(cfg, s.rows, key) else s.rows;
    var door := s.door + {DoorBit1(cfg, key), DoorBit2(cfg, key)};
    if s.counter + 1 >= cfg.window then State(HalvedRows(rows), {}, 0)
    else State(rows, door, s.counter + 1)
  }

  function Run(cfg: Config, accesses: seq<string>): (s: State)
    requires cfg.Valid()
    ensures ValidState(cfg, s)
  {
    if accesses == [] then Initial(cfg)
    else Access(cfg, Run(cfg, accesses[..|accesses| - 1]), accesses[|accesses| - 1])
  }

  function Admit(cfg: Config, s: State, newKey: string, victimKey: string): (r: bool)
    requires cfg.Valid() && ValidState(cfg, s)
  {
    Estimate(cfg, s.rows, newKey) >= Estimate(cfg, s.rows, victimKey)
  }

  // ---------- The ideal counter ----------

  /** What an exact per-key counter would hold: `count` saturates at 255, grows on
      every access after the first of a window, and is halved at the window's end. */
  datatype Ideal = Ideal(count: nat, seen: bool, tick: nat)

  function IdealStep(window: nat, s: Ideal, mine: bool): (r: Ideal) {
    var count := if mine && s.seen && s.count < CELL_MAX then s.count + 1 else s.count;
    var seen := s.seen || mine;
    if s.tick + 1 >= window then Ideal(count / 2, false, 0) else Ideal(count, seen, s.tick + 1)
  }

  function IdealRun(window: nat, accesses: seq<string>, key: string): (r: Ideal) {
    if accesses == [] then Ideal(0, false, 0)
    else
      var n := |accesses| - 1;
      IdealStep(window, IdealRun(window, accesses[..n], key), accesses[n] == key)
  }

  /** Each of the key's cells is at least its ideal count, and a key seen this window passes the door. */
  ghost predicate Dominates(cfg: Config, s: State, ideal: Ideal, key: string)
    requires cfg.Valid() && ValidState(cfg, s)
  {
    && s.counter == ideal.tick
    && (ideal.seen ==> InDoor(cfg, s.door, key))
    && forall i :: 0 <= i < ROWS ==> s.rows[i][CellIndex(cfg, i, key)] >= ideal.count
  }

  lemma {:induction false} BumpedCells(cfg: Config, rows: seq<Row>, key: string, other: string, i: nat)
    requires cfg.Valid() && Shape(cfg, rows) && i < ROWS
    ensures var j := CellIndex(cfg, i, other);
      && BumpRows(cfg, rows, key)[i][j] >= rows[i][j]
      && (key == other && rows[i][j] < CELL_MAX ==> BumpRows(cfg, rows, key)[i][j] == rows[i][j] + 1)
      && (CellIndex(cfg, i, key) != j ==> BumpRows(cfg, rows, key)[i][j] == rows[i][j])
  {
  }

  lemma {:induction false} AccessDominates(cfg: Config, s: State, ideal: Ideal, a: string, key: string)
    requires cfg.Valid() && ValidState(cfg, s) && Dominates(cfg, s, ideal, key) && ideal.count <= CELL_MAX
    ensures Dominates(cfg, Access(cfg, s, a), IdealStep(cfg.window, ideal, a == key), key)
  {
    forall i | 0 <= i < ROWS
      ensures Access(cfg, s, a).rows[i][CellIndex(cfg, i, key)] >= IdealStep(cfg.window, ideal, a == key).count
    {
      BumpedCells(cfg, s.rows, a, key, i);
    }
  }

  /** The sketch never underestimates: in every run, for every key, the state dominates the ideal counter. */
  lemma {:induction false} CellsDominateIdeal(cfg: Config, accesses: seq<string>, key: string)
    requires cfg.Valid()
    ensures Dominates(cfg, Run(cfg, accesses), IdealRun(cfg.window, accesses, key), key)
  {
    if accesses != [] {
      var n := |accesses| - 1;
      CellsDominateIdeal(cfg, accesses[..n], key);
      IdealBounded(cfg.window, accesses[..n], key);
      AccessDominates(cfg, Run(cfg, accesses[..n]), IdealRun(cfg.window, accesses[..n], key), accesses[n], key);
    }
  }

  lemma {:induction false} EstimateDominatesIdeal(cfg: Config, accesses: seq<string>, key: string)
    requires cfg.Valid()
    ensures Estimate(cfg, Run(cfg, accesses).rows, key) >= IdealRun(cfg.window, accesses, key).count
  {
    CellsDominateIdeal(cfg, accesses, key);
    IdealBounded(cfg.window, accesses, key);
  }

  lemma {:induction false} IdealBounded(window: nat, accesses: seq<string>, key: string)
    ensures IdealRun(window, accesses, key).count <= CELL_MAX
  {
    if accesses != [] { IdealBounded(window, accesses[..|accesses| - 1], key); }
  }

  /** What the ideal counter counts: n accesses of a key within one window count n - 1, up to 255, and the end of the
      window halves the count. */
  lemma {:induction false} IdealCounts(window: nat, key: string, n: nat)
    requires 1 <= n < window
    ensures IdealRun(window, seq(n, _ => key), key) == Ideal(if n <= 256 then n - 1 else 255, true, n)
  {
    var s := seq(n, _ => key);
    assert s[..n - 1] == seq(n - 1, _ => key);
    if n > 1 { IdealCounts(window, key, n - 1); }
  }

  lemma {:induction false} IdealHalves(window: nat, accesses: seq<string>, key: string)
    requires window >= 1 && accesses != [] && |accesses| % window == 0
    ensures var before := IdealRun(window, accesses[..|accesses| - 1], key);
            && var hit := accesses[|accesses| - 1] == key && before.seen;
               IdealRun(window, accesses, key) ==
               Ideal((if hit && before.count < 255 then before.count + 1 else before.count) / 2, false, 0)
  {
    IdealTicks(window, accesses[..|accesses| - 1], key);
    LastOfWindow(|accesses|, window);
  }

  lemma {:induction false} LastOfWindow(n: nat, window: nat)
    requires window >= 1 && n >= 1 && n % window == 0
    ensures (n - 1) % window == window - 1
  {
    var q := n / window;
    assert (q - 1) * window == q * window - window;
    DivModUnique(n - 1, window, q - 1, window - 1);
  }

  lemma {:induction false} IdealTicks(window: nat, accesses: seq<string>, key: string)
    requires window >= 1
    ensures IdealRun(window, accesses, key).tick == |accesses| % window
  {
    if accesses != [] {
      IdealTicks(window, accesses[..|accesses| - 1], key);
      NextOfWindow(|accesses| - 1, window);
    }
  }

  lemma {:induction false} NextOfWindow(n: nat, window: nat)
    requires window >= 1
    ensures (n + 1) % window == if n % window + 1 < window then n % window + 1 else 0
  {
    var q, r := n / window, n % window;
    if r + 1 < window {
      DivModUnique(n + 1, window, q, r + 1);
    } else {
      assert (q + 1) * window == q * window + window;
      DivModUnique(n + 1, window, q + 1, 0);
    }
  }

  /** Row i's cell of the key is used by no other accessed key. */
  ghost predicate PrivateCell(cfg: Config, accesses: seq<string>, key: string, i: nat)
    requires cfg.width >= 1
  {
    forall n :: 0 <= n < |accesses| && accesses[n] != key ==> CellIndex(cfg, i, accesses[n]) != CellIndex(cfg, i, key)
  }

  /** At no access of the key does the doorkeeper claim to have seen it this window when it had not. */
  ghost predicate NoFalsePositive(cfg: Config, accesses: seq<string>, key: string)
    requires cfg.Valid()
  {
    forall n :: 0 <= n < |accesses| && accesses[n] == key && InDoor(cfg, Run(cfg, accesses[..n]).door, key)
      ==> IdealRun(cfg.window, accesses[..n], key).seen
  }

  /** One bit of the key is set by no other accessed key. */
  ghost predicate PrivateBit(cfg: Config, accesses: seq<string>, key: string, bit: nat)
    requires cfg.doorBits >= 1
  {
    && (bit == DoorBit1(cfg, key) || bit == DoorBit2(cfg, key))
    && forall n :: 0 <= n < |accesses| && accesses[n] != key ==>
         DoorBit1(cfg, accesses[n]) != bit && DoorBit2(cfg, accesses[n]) != bit
  }

  lemma {:induction false} AccessExact(cfg: Config, s: State, ideal: Ideal, a: string, key: string, i: nat)
    requires cfg.Valid() && ValidState(cfg, s) && i < ROWS && Dominates(cfg, s, ideal, key)
    requires s.rows[i][CellIndex(cfg, i, key)] == ideal.count
    requires a != key ==> CellIndex(cfg, i, a) != CellIndex(cfg, i, key)
    requires a == key && InDoor(cfg, s.door, key) ==> ideal.seen
    ensures Access(cfg, s, a).rows[i][CellIndex(cfg, i, key)] == IdealStep(cfg.window, ideal, a == key).count
  {
    BumpedCells(cfg, s.rows, a, key, i);
  }

  lemma {:induction false} PrivateCellIsExact(cfg: Config, accesses: seq<string>, key: string, i: nat)
    requires cfg.Valid() && i < ROWS
    requires PrivateCell(cfg, accesses, key, i) && NoFalsePositive(cfg, accesses, key)
    ensures Run(cfg, accesses).rows[i][CellIndex(cfg, i, key)] == IdealRun(cfg.window, accesses, key).count
  {
    if accesses != [] {
      var n := |accesses| - 1;
      var before := accesses[..n];
      assert forall m :: 0 <= m < n ==> before[m] == accesses[m] && before[..m] == accesses[..m];
      PrivateCellIsExact(cfg, before, key, i);
      CellsDominateIdeal(cfg, before, key);
      IdealBounded(cfg.window, before, key);
      assert accesses[..n] == before;
      AccessExact(cfg, Run(cfg, before), IdealRun(cfg.window, before, key), accesses[n], key, i);
    }
  }

  /** With a private cell in some row and no doorkeeper false positive, the estimate is exact. */
  lemma {:induction false} EstimateExact(cfg: Config, accesses: seq<string>, key: string, i: nat)
    requires cfg.Valid() && i < ROWS
    requires PrivateCell(cfg, accesses, key, i) && NoFalsePositive(cfg, accesses, key)
    ensures Estimate(cfg, Run(cfg, accesses).rows, key) == IdealRun(cfg.window, accesses, key).count
  {
    PrivateCellIsExact(cfg, accesses, key, i);
    EstimateDominatesIdeal(cfg, accesses, key);
  }

  /** A private Bloom bit is set exactly when the key was seen this window. */
  lemma {:induction false} PrivateBitTracksSeen(cfg: Config, accesses: seq<string>, key: string, bit: nat)
    requires cfg.Valid() && PrivateBit(cfg, accesses, key, bit)
    ensures bit in Run(cfg, accesses).door <==> IdealRun(cfg.window, accesses, key).seen
  {
    if accesses != [] {
      var before := accesses[..|accesses| - 1];
      assert forall m :: 0 <= m < |before| ==> before[m] == accesses[m];
      PrivateBitTracksSeen(cfg, before, key, bit);
      CellsDominateIdeal(cfg, before, key);
    }
  }

  /** Hashes alone rule out false positives: a private bit is enough. */
  lemma {:induction false} PrivateBitNoFalsePositive(cfg: Config, accesses: seq<string>, key: string, bit: nat)
    requires cfg.Valid() && PrivateBit(cfg, accesses, key, bit)
    ensures NoFalsePositive(cfg, accesses, key)
  {
    forall n | 0 <= n < |accesses| && accesses[n] == key && InDoor(cfg, Run(cfg, accesses[..n]).door, key)
      ensures IdealRun(cfg.window, accesses[..n], key).seen
    {
      var before := accesses[..n];
      assert forall m :: 0 <= m < n ==> before[m] == accesses[m];
      PrivateBitTracksSeen(cfg, before, key, bit);
    }
  }

  // ---------- Row mass ----------

  function Sum(row: Row): (r: nat) {
    if row == [] then 0 else Sum(row[..|row| - 1]) + row[|row| - 1]
  }

  /** Number of cells holding at least t. */
  function CountAtLeast(row: Row, t: nat): (r: nat) {
    if row == [] then 0
    else CountAtLeast(row[..|row| - 1], t) + (if row[|row| - 1] >= t then 1 else 0)
  }

  lemma {:induction false} SumUpdate(row: Row, j: nat, v: nat)
    requires j < |row|
    ensures Sum(row[j := v]) == Sum(row) - row[j] + v
  {
    var n := |row| - 1;
    if j == n {
      assert row[j := v][..n] == row[..n];
    } else {
      assert row[j := v][..n] == row[..n][j := v];
      SumUpdate(row[..n], j, v);
    }
  }

  lemma {:induction false} SumHalved(row: Row)
    ensures 2 * Sum(Halved(row)) <= Sum(row)
  {
    if row != [] {
      var n := |row| - 1;
      assert Halved(row)[..n] == Halved(row[..n]);
      SumHalved(row[..n]);
    }
  }

  lemma {:induction false} SumZero(n: nat)
    ensures Sum(seq(n, j => 0)) == 0
  {
    if n > 0 {
      assert seq(n, j => 0)[..n - 1] == seq(n - 1, j => 0);
      SumZero(n - 1);
    }
  }

  lemma {:induction false} MassBoundsCount(row: Row, t: nat)
    ensures t * CountAtLeast(row, t) <= Sum(row)
  {
    if row != [] {
      var rest, last := row[..|row| - 1], row[|row| - 1];
      MassBoundsCount(rest, t);
      if last >= t {
        assert t * CountAtLeast(row, t) == t * CountAtLeast(rest, t) + t;
      }
    }
  }

  /** In every reachable state the mass of each row is at most the window plus the
      accesses since it last ended. */
  lemma {:induction false} RowMass(cfg: Config, accesses: seq<string>, i: nat)
    requires cfg.Valid() && i < ROWS
    ensures Sum(Run(cfg, accesses).rows[i]) <= cfg.window + Run(cfg, accesses).counter
  {
    if accesses == [] {
      SumZero(cfg.width);
      assert Run(cfg, accesses).rows[i] == seq(cfg.width, j => 0);
    } else {
      var n := |accesses| - 1;
      var s := Run(cfg, accesses[..n]);
      RowMass(cfg, accesses[..n], i);
      var row := if InDoor(cfg, s.door, accesses[n]) then BumpRows(cfg, s.rows, accesses[n])[i] else s.rows[i];
      BumpAddsOne(s.rows[i], CellIndex(cfg, i, accesses[n]));
      assert Sum(row) <= cfg.window + s.counter + 1;
      SumHalved(row);
    }
  }

  lemma {:induction false} BumpAddsOne(row: Row, j: nat)
    requires j < |row|
    ensures Sum(Bump(row, j)) <= Sum(row) + 1
  {
    SumUpdate(row, j, row[j] + 1);
  }

  /** Hence a row's mass stays below two windows, and fewer than 2W/t cells reach t. */
  lemma {:induction false} FewHotCells(cfg: Config, accesses: seq<string>, i: nat, t: nat)
    requires cfg.Valid() && i < ROWS
    ensures Sum(Run(cfg, accesses).rows[i]) < 2 * cfg.window
    ensures t * CountAtLeast(Run(cfg, accesses).rows[i], t) < 2 * cfg.window
  {
    RowMass(cfg, accesses, i);
    MassBoundsCount(Run(cfg, accesses).rows[i], t);
  }
}
