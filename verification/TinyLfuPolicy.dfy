/** The in-place TinyLFU objects, proved against the value model of `TinyLfu`. */
module TinyLfuPolicy {
  import opened Bits
  import opened TinyLfu

  const MIN_WIDTH: nat := 4096
  const MIN_DOOR_BITS: nat := 64
  const MIN_WINDOW: nat := 1000

  /** Two's-complement reading of an integer's low 64 bits. */
  function WrapInt64(x: int): (r: int)
    ensures -(WORD / 2) <= r < WORD / 2 && (x - r) % WORD == 0
  {
    var u := x % WORD;
    if u < WORD / 2 then u else u - WORD
  }

  function SketchWidth(maxItems: int): (w: nat) {
    var w := NextPow2((maxItems % WORD) * 10 % WORD);
    if w < MIN_WIDTH then MIN_WIDTH else w
  }

  function DoorSize(maxItems: int): (b: nat) {
    var b := NextPow2((maxItems % WORD) * 8 % WORD);
    if b < MIN_DOOR_BITS then MIN_DOOR_BITS else b
  }

  function SampleWindow(maxItems: int): (w: nat) {
    var w := WrapInt64(maxItems * 10);
    if w < MIN_WINDOW then MIN_WINDOW else w
  }

  function ConfigFor(hash: HashFn, maxItems: int): (cfg: Config) {
    Config(hash, SketchWidth(maxItems), DoorSize(maxItems), SampleWindow(maxItems))
  }

  /** Every capacity, also one whose scaled size wraps around 2^64, yields usable sizes. */
  lemma ConfigForValid(hash: HashFn, maxItems: int)
    ensures ConfigFor(hash, maxItems).Valid()
  {
    var v := (maxItems % WORD) * 10 % WORD;
    assert MIN_WIDTH == Pow2(12);
    assert MIN_DOOR_BITS == Pow2(6);
    NextPow2IsPow2OrZero(v);
    var b := (maxItems % WORD) * 8 % WORD;
    NextPow2IsPow2OrZero(b);
    if NextPow2(b) >= 64 {
      var k: nat :| NextPow2(b) == Pow2(k);
      if k < 6 { Pow2Monotone(k, 5); assert false; }
      Pow2Multiple64(k);
    }
  }

  /** The sizes themselves, for every capacity whose scaled size does not wrap: the width is the least power of two
      that is at least 4096 and ten times the capacity, the doorkeeper has the least power of two of bits that is at
      least 64 and eight times the capacity, and the window is ten times the capacity, at least 1000. */
  lemma {:induction false} ConfigForSizes(hash: HashFn, maxItems: int, top: nat)
    requires top == 63 && 0 <= maxItems * 10 < Pow2(top)
    ensures var cfg := ConfigFor(hash, maxItems);
            && 4096 <= cfg.width && 10 * maxItems <= cfg.width && (cfg.width == 4096 || cfg.width < 20 * maxItems)
            && 64 <= cfg.doorBits && 8 * maxItems <= cfg.doorBits &&
               (cfg.doorBits == 64 || cfg.doorBits < 16 * maxItems)
            && cfg.window == if maxItems < 100 then 1000 else 10 * maxItems
  {
    WordPowers(31, top);
    hide Pow2, NextPow2;
    DivModUnique(maxItems, WORD, 0, maxItems);
    DivModUnique(maxItems * 10, WORD, 0, maxItems * 10);
    DivModUnique(maxItems * 8, WORD, 0, maxItems * 8);
    NextPow2RoundsUp(maxItems * 10, top);
    NextPow2RoundsUp(maxItems * 8, top);
    if maxItems == 0 { NextOfZero(); }
  }

  lemma {:induction false} NextOfZero()
    ensures NextPow2(0) == 1
  {
  }

  lemma NextPow2IsPow2OrZero(v: nat)
    ensures NextPow2(v) == 0 || IsPow2(NextPow2(v))
  {
    assert v == 0 ==> NextPow2(v) == Pow2(0);
    assert v > 0 && NextPow2(v) != 0 ==> NextPow2(v) == Pow2(Len(v - 1));
  }

  lemma {:induction false} Pow2Multiple64(k: nat)
    requires k >= 6
    ensures Pow2(k) % 64 == 0
  {
    assert MIN_DOOR_BITS == Pow2(6);
    Pow2Sum(k - 6, 6);
    hide Pow2;
    DivModUnique(Pow2(k), 64, Pow2(k - 6), 0);
  }

  class CountMinSketch {
    const cfg: Config
    const rows: seq<array<nat>>

    ghost predicate Valid()
      reads rows
    {
      && cfg.Valid()
      && |rows| == ROWS
      && (forall i, k :: 0 <= i < k < ROWS ==> rows[i] != rows[k])
      && (forall i :: 0 <= i < ROWS ==> rows[i].Length == cfg.width)
    }

    ghost function View(): (r: seq<Row>)
      requires Valid()
      reads rows
      ensures Shape(cfg, r)
    {
      seq(ROWS, i requires 0 <= i < ROWS reads rows => rows[i][..])
    }

    constructor (cfg: Config)
      requires cfg.Valid()
      ensures Valid() && this.cfg == cfg
      ensures View() == Initial(cfg).rows
      ensures forall r :: r in rows ==> fresh(r)
    {
      this.cfg := cfg;
      var r0 := new nat[cfg.width](_ => 0);
      var r1 := new nat[cfg.width](_ => 0);
      var r2 := new nat[cfg.width](_ => 0);
      var r3 := new nat[cfg.width](_ => 0);
      rows := [r0, r1, r2, r3];
      new;
      forall i | 0 <= i < ROWS
        ensures rows[i][..] == Initial(cfg).rows[i]
      {
      }
    }

    method Increment(key: string)
      requires Valid()
      modifies rows
      ensures Valid() && View() == BumpRows(cfg, old(View()), key)
    {
      hide CellIndex, Bump;
      ghost var was := View();
      for i := 0 to ROWS
        invariant Valid()
        invariant forall k :: 0 <= k < i ==> rows[k][..] == Bump(was[k], CellIndex(cfg, k, key))
        invariant forall k :: i <= k < ROWS ==> rows[k][..] == was[k]
      {
        BumpRow(i, CellIndex(cfg, i, key));
      }
    }

    method BumpRow(i: nat, j: nat)
      requires Valid() && i < ROWS && j < cfg.width
      modifies rows[i]
      ensures rows[i][..] == Bump(old(rows[i][..]), j)
    {
      if rows[i][j] < CELL_MAX {
        rows[i][j] := rows[i][j] + 1;
      }
    }

    method EstimateKey(key: string) returns (min: nat)
      requires Valid()
      ensures min == Estimate(cfg, View(), key)
    {
      hide CellIndex;
      min := CELL_MAX;
      for i := 0 to ROWS
        invariant min == MinCell(cfg, View(), key, i)
      {
        var c := rows[i][CellIndex(cfg, i, key)];
        assert c == View()[i][CellIndex(cfg, i, key)];
        if c < min { min := c; }
      }
    }

    method Halve()
      requires Valid()
      modifies rows
      ensures Valid() && View() == HalvedRows(old(View()))
    {
      hide Halved;
      ghost var was := View();
      for i := 0 to ROWS
        invariant Valid()
        invariant forall k :: 0 <= k < i ==> rows[k][..] == Halved(was[k])
        invariant forall k :: i <= k < ROWS ==> rows[k][..] == was[k]
      {
        HalveRow(i);
      }
    }

    method HalveRow(i: nat)
      requires Valid() && i < ROWS
      modifies rows[i]
      ensures rows[i][..] == Halved(old(rows[i][..]))
    {
      var row := rows[i];
      for j := 0 to row.Length
        invariant forall m :: 0 <= m < j ==> row[m] == old(row[m]) / 2
        invariant forall m :: j <= m < row.Length ==> row[m] == old(row[m])
      {
        row[j] := row[j] / 2;
      }
    }
  }

  class Doorkeeper {
    const cfg: Config
    const bits: array<nat>

    ghost predicate Valid() {
      cfg.Valid() && bits.Length * 64 == cfg.doorBits
    }

    /** The set bit positions. */
    ghost function View(): (r: set<nat>)
      requires Valid()
      reads bits
    {
      set p: nat | p < cfg.doorBits && Bit(bits[p / 64], p % 64)
    }

    constructor (cfg: Config)
      requires cfg.Valid()
      ensures Valid() && this.cfg == cfg && fresh(bits)
      ensures View() == {}
    {
      this.cfg := cfg;
      bits := new nat[cfg.doorBits / 64](_ => 0);
      new;
      forall p: nat | p < cfg.doorBits
        ensures !Bit(bits[p / 64], p % 64)
      {
        ZeroHasNoBits(p % 64);
      }
    }

    method SetPosition(p: nat)
      requires Valid() && p < cfg.doorBits
      modifies bits
      ensures View() == old(View()) + {p}
    {
      var w, b := p / 64, p % 64;
      ghost var was := bits[..];
      bits[w] := SetBit(bits[w], b);
      forall q: nat | q < cfg.doorBits
        ensures Bit(bits[q / 64], q % 64) <==> (q == p || Bit(was[q / 64], q % 64))
      {
        SetBitBits(was[w], b, q % 64);
      }
    }

    /** Sets the key's two bits and reports whether both were set already. */
    method Add(key: string) returns (present: bool)
      requires Valid()
      modifies bits
      ensures present == InDoor(cfg, old(View()), key)
      ensures View() == old(View()) + {DoorBit1(cfg, key), DoorBit2(cfg, key)}
    {
      var p1, p2 := DoorBit1(cfg, key), DoorBit2(cfg, key);
      present := Bit(bits[p1 / 64], p1 % 64) && Bit(bits[p2 / 64], p2 % 64);
      SetPosition(p1);
      SetPosition(p2);
    }

    method Contains(key: string) returns (present: bool)
      requires Valid()
      ensures present == InDoor(cfg, View(), key)
    {
      var p1, p2 := DoorBit1(cfg, key), DoorBit2(cfg, key);
      present := Bit(bits[p1 / 64], p1 % 64) && Bit(bits[p2 / 64], p2 % 64);
    }

    method Reset()
      requires Valid()
      modifies bits
      ensures View() == {}
    {
      for i := 0 to bits.Length
        invariant forall k :: 0 <= k < i ==> bits[k] == 0
      {
        bits[i] := 0;
      }
      forall p: nat | p < cfg.doorBits
        ensures !Bit(bits[p / 64], p % 64)
      {
        ZeroHasNoBits(p % 64);
      }
    }
  }

  class Policy {
    const cfg: Config
    const sketch: CountMinSketch
    const door: Doorkeeper
    var counter: nat

    ghost predicate Valid()
      reads this, sketch.rows, door.bits
    {
      && sketch.Valid() && door.Valid()
      && sketch.cfg == cfg && door.cfg == cfg
      && door.bits !in sketch.rows
      && ValidState(cfg, State(sketch.View(), door.View(), counter))
    }

    ghost function View(): (s: State)
      requires Valid()
      reads this, sketch.rows, door.bits
      ensures ValidState(cfg, s)
    {
      State(sketch.View(), door.View(), counter)
    }

    constructor (hash: HashFn, maxItems: int)
      ensures Valid() && cfg == ConfigFor(hash, maxItems)
      ensures View() == Initial(cfg)
    {
      ConfigForValid(hash, maxItems);
      cfg := ConfigFor(hash, maxItems);
      var s := new CountMinSketch(ConfigFor(hash, maxItems));
      var d := new Doorkeeper(ConfigFor(hash, maxItems));
      sketch, door, counter := s, d, 0;
    }

    ghost predicate Shaped()
      reads sketch.rows, door.bits
    {
      sketch.Valid() && door.Valid() && sketch.cfg == cfg && door.cfg == cfg && door.bits !in sketch.rows
    }

    /** Counts a key the door has seen, and shows it to the door. */
    method Count(key: string)
      requires Shaped()
      modifies sketch.rows, door.bits
      ensures Shaped()
      ensures sketch.View() ==
              if InDoor(cfg, old(door.View()), key) then BumpRows(cfg, old(sketch.View()), key) else old(sketch.View())
      ensures door.View() == old(door.View()) + {DoorBit1(cfg, key), DoorBit2(cfg, key)}
    {
      hide BumpRows, InDoor, DoorBit1, DoorBit2;
      var present := door.Add(key);
      if present { sketch.Increment(key); }
    }

    /** Advances the window; its end halves the sketch and empties the door. */
    method Tick()
      requires Shaped()
      modifies this`counter, sketch.rows, door.bits
      ensures Shaped()
      ensures if old(counter) + 1 >= cfg.window
              then sketch.View() == HalvedRows(old(sketch.View())) && door.View() == {} && counter == 0
              else sketch.View() == old(sketch.View()) && door.View() == old(door.View()) && counter == old(counter) + 1
    {
      hide HalvedRows;
      counter := counter + 1;
      if counter >= cfg.window {
        counter := 0;
        sketch.Halve();
        door.Reset();
      }
    }

    /** Records one access; the window's last access halves the sketch and empties the door. */
    method Increment(key: string)
      requires Valid()
      modifies this`counter, sketch.rows, door.bits
      ensures Valid() && View() == Access(cfg, old(View()), key)
    {
      hide BumpRows, HalvedRows, InDoor, DoorBit1, DoorBit2;
      ghost var was := View();
      Count(key);
      Tick();
      assert State(sketch.View(), door.View(), counter) == Access(cfg, was, key);
    }

    /** Newcomers win ties. */
    method AdmitKey(newKey: string, victimKey: string) returns (r: bool)
      requires Valid()
      ensures r == Admit(cfg, View(), newKey, victimKey)
    {
      var n := sketch.EstimateKey(newKey);
      var v := sketch.EstimateKey(victimKey);
      r := n >= v;
    }
  }
}
