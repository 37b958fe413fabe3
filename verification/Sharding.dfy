/** How a cache's capacity is split into shards, and which shard a key lives in. */
module Sharding {
  import opened Bits
  import opened Common

  const DEFAULT_SHARDS: nat := 256
  const SINGLE_SHARD_BELOW: nat := 64

  /** A requested shard count or capacity fits the platform's 64-bit int. */
  predicate IsInt(x: int) {
    -INT_MAX - 1 <= x <= INT_MAX
  }

  function Capacity(maxItems: int): (r: nat) {
    if maxItems < 1 then 1 else maxItems
  }

  /** `for n > maxItems { n /= 2 }` on a positive count. */
  function HalveTo(n: nat, maxItems: nat): (r: nat)
    requires maxItems >= 1
  {
    if n > maxItems then HalveTo(n / 2, maxItems) else n
  }

  function RequestedShards(numShards: int): (r: nat) {
    NextPow2(if numShards <= 0 then DEFAULT_SHARDS else numShards)
  }

  /** Conversion of a uint64 to int: 2^63 becomes negative. */
  function AsInt(u: nat): (r: int)
    ensures u < WORD ==> IsInt(r) && (r == u || r == u - WORD)
  {
    if u <= INT_MAX then u else u - WORD
  }

  function ShardCount(maxItems: int, numShards: int): (r: nat) {
    var cap := Capacity(maxItems);
    var n := if cap < SINGLE_SHARD_BELOW then 1 else AsInt(RequestedShards(numShards));
    if n < 1 then 1
    else var h := HalveTo(n, cap); if h < 1 then 1 else h
  }

  /** Capacity of shard i: the remainder is spread over the first shards. */
  function ShardCap(maxItems: int, numShards: nat, i: nat): (r: nat)
    requires numShards >= 1
  {
    var cap := Capacity(maxItems);
    cap / numShards + (if i < cap % numShards then 1 else 0)
  }

  function SumCaps(maxItems: int, numShards: nat, n: nat): (r: nat)
    requires numShards >= 1
  {
    if n == 0 then 0 else SumCaps(maxItems, numShards, n - 1) + ShardCap(maxItems, numShards, n - 1)
  }

  lemma {:induction false} HalveToPow2(k: nat, maxItems: nat)
    requires maxItems >= 1
    ensures IsPow2(HalveTo(Pow2(k), maxItems)) && 1 <= HalveTo(Pow2(k), maxItems) <= maxItems
  {
    if Pow2(k) > maxItems {
      assert k >= 1;
      assert Pow2(k) / 2 == Pow2(k - 1);
      HalveToPow2(k - 1, maxItems);
    }
  }

  /** The requested count is a power of two, or the one that overflows int. */
  lemma {:induction false} RequestedIsPow2(numShards: int, top: nat)
    requires IsInt(numShards) && top == 63
    ensures IsPow2(RequestedShards(numShards))
    ensures 1 <= RequestedShards(numShards) <= INT_MAX + 1
  {
    WordPowers(31, top);
    NextPow2RoundsUp(if numShards <= 0 then DEFAULT_SHARDS else numShards, top);
  }

  /** For every option value the shard count is a power of two between one and the capacity. */
  lemma {:induction false} ShardCountValid(maxItems: int, numShards: int)
    requires IsInt(maxItems) && IsInt(numShards)
    ensures IsPow2(ShardCount(maxItems, numShards))
    ensures 1 <= ShardCount(maxItems, numShards) <= Capacity(maxItems)
  {
    RequestedIsPow2(numShards, 63);
    assert 1 == Pow2(0);
    var k: nat :| RequestedShards(numShards) == Pow2(k);
    HalveToPow2(k, Capacity(maxItems));
    HalveToPow2(0, Capacity(maxItems));
  }

  /** Halving a power of two down to a limit finds the greatest power of two that neither exceeds. */
  lemma {:induction false} HalveToGreatest(k: nat, maxItems: nat, j: nat)
    requires maxItems >= 1
    ensures HalveTo(Pow2(k), maxItems) <= Pow2(k)
    ensures j <= k && Pow2(j) <= maxItems ==> Pow2(j) <= HalveTo(Pow2(k), maxItems)
  {
    if Pow2(k) > maxItems {
      assert k >= 1;
      assert Pow2(k) / 2 == Pow2(k - 1);
      HalveToGreatest(k - 1, maxItems, j);
    } else if j <= k {
      Pow2Monotone(j, k);
    }
  }

  /** The exact count: one shard below 64 items, or when the request does not fit an int once rounded up; otherwise
      the greatest power of two that exceeds neither the capacity nor the least one not below the request, 256 by
      default. */
  lemma {:induction false} ShardCountExact(maxItems: int, numShards: int, top: nat)
    requires IsInt(maxItems) && IsInt(numShards) && top == 63
    ensures var n, wanted := ShardCount(maxItems, numShards), if numShards <= 0 then 256 else numShards;
            && (maxItems < 64 || wanted > 0x4000_0000_0000_0000 ==> n == 1)
            && (maxItems >= 64 && wanted <= 0x4000_0000_0000_0000 ==>
                  && n <= maxItems && n < 2 * wanted
                  && forall j: nat :: Pow2(j) <= maxItems && Pow2(j) < 2 * wanted ==> Pow2(j) <= n)
  {
    hide Pow2, HalveTo, NextPow2;
    ShardCountValid(maxItems, numShards);
    RequestFits(numShards, top);
    HalveOne(Capacity(maxItems));
    if maxItems >= 64 {
      var k := RequestedPower(numShards, top);
      if RequestedShards(numShards) <= INT_MAX {
        var wanted := if numShards <= 0 then 256 else numShards;
        HalveToGreatest(k, maxItems, 0);
        forall j: nat | Pow2(j) <= maxItems && Pow2(j) < 2 * wanted ensures Pow2(j) <= ShardCount(maxItems, numShards) {
          if j > k { PowerBeyond(k, j); }
          HalveToGreatest(k, maxItems, j);
        }
      }
    }
  }

  lemma {:induction false} HalveOne(maxItems: nat)
    requires maxItems >= 1
    ensures HalveTo(1, maxItems) == 1
  {
  }

  lemma {:induction false} PowerBeyond(k: nat, j: nat)
    requires j > k
    ensures Pow2(j) >= 2 * Pow2(k)
  {
    Pow2Monotone(k + 1, j);
  }

  lemma {:induction false} RequestedPower(numShards: int, top: nat) returns (k: nat)
    requires IsInt(numShards) && top == 63
    ensures RequestedShards(numShards) == Pow2(k)
  {
    RequestedIsPow2(numShards, top);
    k :| RequestedShards(numShards) == Pow2(k);
  }

  /** The rounded request, and when it does not fit an int. */
  lemma {:induction false} RequestFits(numShards: int, top: nat)
    requires IsInt(numShards) && top == 63
    ensures var wanted, req := if numShards <= 0 then 256 else numShards, RequestedShards(numShards);
            && wanted <= req < 2 * wanted
            && (wanted <= 0x4000_0000_0000_0000 ==> req <= 0x4000_0000_0000_0000)
            && (wanted > 0x4000_0000_0000_0000 ==> req == INT_MAX + 1)
  {
    hide NextPow2;
    var wanted := if numShards <= 0 then 256 else numShards;
    WordPowers(31, top);
    HalfTop(top);
    NextPow2RoundsUp(wanted, top);
    if wanted > 0x4000_0000_0000_0000 {
      var k := RequestedPower(numShards, top);
      if k < top { Pow2Monotone(k, top - 1); } else { Pow2Monotone(top, k); }
    } else {
      assert wanted <= Pow2(top - 1);
    }
  }

  lemma {:induction false} HalfTop(top: nat)
    requires top == 63
    ensures Pow2(top - 1) == 0x4000_0000_0000_0000
  {
    WordPowers(31, top);
    assert Pow2(top) == 2 * Pow2(top - 1);
  }

  /** The capacity is spread evenly: no two shards differ by more than one item, and the larger ones come first. */
  lemma {:induction false} CapacitiesBalanced(maxItems: int, numShards: nat, i: nat, j: nat)
    requires numShards >= 1 && i <= j
    ensures ShardCap(maxItems, numShards, j) <= ShardCap(maxItems, numShards, i) <= ShardCap(maxItems, numShards, j) + 1
  {
  }

  lemma {:induction false} SumCapsPrefix(maxItems: int, numShards: nat, n: nat)
    requires 1 <= numShards && n <= numShards
    ensures var cap := Capacity(maxItems);
            SumCaps(maxItems, numShards, n) ==
            n * (cap / numShards) + (if n < cap % numShards then n else cap % numShards)
  {
    if n > 0 {
      SumCapsPrefix(maxItems, numShards, n - 1);
      var q := Capacity(maxItems) / numShards;
      assert n * q == (n - 1) * q + q;
    }
  }

  /** The shards' capacities are all positive and add up to the configured capacity. */
  lemma {:induction false} CapacitiesSumExactly(maxItems: int, numShards: int)
    requires IsInt(maxItems) && IsInt(numShards)
    ensures var n := ShardCount(maxItems, numShards);
            && SumCaps(maxItems, n, n) == Capacity(maxItems)
            && forall i: nat :: i < n ==> ShardCap(maxItems, n, i) >= 1
  {
    var n := ShardCount(maxItems, numShards);
    var cap := Capacity(maxItems);
    ShardCountValid(maxItems, numShards);
    SumCapsPrefix(maxItems, n, n);
    DivisionFacts(cap, n);
  }

  lemma {:induction false} DivisionFacts(cap: nat, n: nat)
    requires 1 <= n <= cap
    ensures cap == n * (cap / n) + cap % n
    ensures cap / n >= 1
  {
  }

  function ShardIndex(hash: nat, numShards: nat): (r: nat)
    requires numShards >= 1
    ensures r < numShards
  {
    And(hash, numShards - 1)
  }

  /** Selecting by mask is selecting by remainder. */
  lemma {:induction false} ShardIndexIsMod(hash: nat, numShards: nat)
    requires numShards >= 1 && IsPow2(numShards)
    ensures ShardIndex(hash, numShards) == hash % numShards
  {
    var k: nat :| numShards == Pow2(k);
    AndMaskIsMod(hash, k);
  }

  /** The constructor's sizing code: the shard count. */
  method CountShards(maxItems: int, numShards: int) returns (n: nat)
    requires IsInt(maxItems) && IsInt(numShards)
    ensures n == ShardCount(maxItems, numShards)
  {
    var m: int := if numShards <= 0 then DEFAULT_SHARDS else numShards;
    m := AsInt(NextPow2(m));
    var cap: nat := if maxItems < 1 then 1 else maxItems;
    if cap < SINGLE_SHARD_BELOW { m := 1; }
    ghost var start := m;
    while m > cap
      invariant start >= 1 ==> m >= 0 && HalveTo(m, cap) == HalveTo(start, cap)
      invariant start < 1 ==> m == start
    {
      m := m / 2;
    }
    n := if m < 1 then 1 else m;
  }

  lemma {:induction false} ShareOf(maxItems: int, n: nat, i: nat)
    requires n >= 1
    ensures var cap := Capacity(maxItems);
            ShardCap(maxItems, n, i) == if i < cap % n then cap / n + 1 else cap / n
  {
  }

  /** The constructor's sizing code: the capacity of each shard. */
  method Distribute(maxItems: int, n: nat) returns (caps: seq<nat>)
    requires n >= 1
    ensures |caps| == n
    ensures forall i :: 0 <= i < n ==> caps[i] == ShardCap(maxItems, n, i)
  {
    hide ShardCap;
    var cap: nat := if maxItems < 1 then 1 else maxItems;
    var perShard, remainder := cap / n, cap % n;
    caps := [];
    for i := 0 to n
      invariant |caps| == i
      invariant forall k :: 0 <= k < i ==> caps[k] == ShardCap(maxItems, n, k)
    {
      ShareOf(maxItems, n, i);
      caps := caps + [if i < remainder then perShard + 1 else perShard];
    }
  }
}
