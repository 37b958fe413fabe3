/** Weighted round-robin over the healthy backends, and the probes that drive health.
    Backends are identified by their position in the configured list. */
module Balancer {
  import opened Bits
  import opened Common

  // ---------- The weighted list ----------

  function Weight(w: int): (r: nat)
    ensures r >= 1
  {
    if w <= 0 then 1 else w
  }

  /** Each backend's position, repeated by its weight. */
  function Expanded(weights: seq<int>): (r: seq<nat>)
    ensures forall i :: 0 <= i < |r| ==> r[i] < |weights|
  {
    if weights == [] then []
    else
      var n := |weights| - 1;
      Expanded(weights[..n]) + seq(Weight(weights[n]), _ => n)
  }

  function Occurrences(s: seq<nat>, x: nat): (r: nat) {
    if s == [] then 0 else Occurrences(s[..|s| - 1], x) + (if s[|s| - 1] == x then 1 else 0)
  }

  lemma {:induction false} OccurrencesConcat(a: seq<nat>, b: seq<nat>, x: nat)
    ensures Occurrences(a + b, x) == Occurrences(a, x) + Occurrences(b, x)
  {
    if b == [] {
      assert a + b == a;
    } else {
      var n := |b| - 1;
      assert (a + b)[..|a| + n] == a + b[..n];
      OccurrencesConcat(a, b[..n], x);
    }
  }

  lemma {:induction false} OccurrencesRepeat(n: nat, y: nat, x: nat)
    ensures Occurrences(seq(n, _ => y), x) == if x == y then n else 0
  {
    if n > 0 {
      assert seq(n, _ => y)[..n - 1] == seq(n - 1, _ => y);
      OccurrencesRepeat(n - 1, y, x);
    }
  }

  /** A backend appears in the list exactly as often as its weight says. */
  lemma {:induction false} ExpandedByWeight(weights: seq<int>, b: nat)
    ensures Occurrences(Expanded(weights), b) ==
            if b >= |weights| then 0 else if weights[b] <= 0 then 1 else weights[b]
  {
    if weights != [] {
      var n := |weights| - 1;
      ExpandedByWeight(weights[..n], b);
      OccurrencesConcat(Expanded(weights[..n]), seq(Weight(weights[n]), _ => n), b);
      OccurrencesRepeat(Weight(weights[n]), n, b);
    }
  }

  // ---------- Selection ----------

  ghost predicate Fits(list: seq<nat>, health: seq<bool>) {
    forall i :: 0 <= i < |list| ==> list[i] < |health|
  }

  /** The list position a counter value selects. */
  function Slot(list: seq<nat>, c: nat): (r: nat)
    requires list != []
  {
    list[c % |list|]
  }

  /** `tries` attempts from counter value c: the counter left and the backend found. */
  function Probe(list: seq<nat>, health: seq<bool>, c: nat, tries: nat): (r: (nat, Option<nat>))
    requires list != [] && Fits(list, health)
    decreases tries
  {
    if tries == 0 then (c, None)
    else
      var b := Slot(list, c);
      if health[b] then (c + 1, Some(b)) else Probe(list, health, c + 1, tries - 1)
  }

  function Next(list: seq<nat>, health: seq<bool>, c: nat): (r: (nat, Option<nat>))
    requires Fits(list, health)
  {
    if list == [] then (c, None) else Probe(list, health, c, |list|)
  }

  /** Results of k consecutive calls. */
  function Picks(list: seq<nat>, health: seq<bool>, c: nat, k: nat): (r: seq<Option<nat>>)
    requires Fits(list, health)
    ensures |r| == k
    decreases k
  {
    if k == 0 then []
    else
      var (c', b) := Next(list, health, c);
      [b] + Picks(list, health, c', k - 1)
  }

  /** The list read cyclically from counter value c. */
  function Window(list: seq<nat>, c: nat, len: nat): (r: seq<nat>)
    requires list != []
    ensures |r| == len
    decreases len
  {
    if len == 0 then [] else [Slot(list, c)] + Window(list, c + 1, len - 1)
  }

  lemma {:induction false} WindowAt(list: seq<nat>, c: nat, len: nat, i: nat)
    requires list != [] && i < len
    ensures Window(list, c, len)[i] == Slot(list, c + i)
    decreases len
  {
    if i > 0 { WindowAt(list, c + 1, len - 1, i - 1); }
  }

  lemma {:induction false} WindowFits(list: seq<nat>, health: seq<bool>, c: nat, len: nat)
    requires list != [] && Fits(list, health)
    ensures Fits(Window(list, c, len), health)
  {
    forall i | 0 <= i < len
      ensures Window(list, c, len)[i] < |health|
    {
      WindowAt(list, c, len, i);
      assert Slot(list, c + i) == list[(c + i) % |list|];
    }
  }

  /** The healthy slots among `len` cyclic ones from counter value c. */
  function HealthyWindow(list: seq<nat>, health: seq<bool>, c: nat, len: nat): (r: seq<nat>)
    requires list != [] && Fits(list, health)
  {
    WindowFits(list, health, c, len);
    Healthy(Window(list, c, len), health)
  }

  /** The healthy part of a list, in order. */
  function Healthy(s: seq<nat>, health: seq<bool>): (r: seq<nat>)
    requires Fits(s, health)
  {
    if s == [] then []
    else (if health[s[0]] then [s[0]] else []) + Healthy(s[1..], health)
  }

  function Found(s: seq<nat>): (r: seq<Option<nat>>)
    ensures |r| == |s|
  {
    seq(|s|, i requires 0 <= i < |s| => Some(s[i]))
  }

  lemma {:induction false} FitsParts(a: seq<nat>, b: seq<nat>, health: seq<bool>)
    ensures Fits(a + b, health) <==> Fits(a, health) && Fits(b, health)
    ensures a != [] && Fits(a, health) ==> a[0] < |health| && Fits(a[1..], health)
  {
    if Fits(a + b, health) {
      forall i | 0 <= i < |a| ensures a[i] < |health| { assert (a + b)[i] == a[i]; }
      forall i | 0 <= i < |b| ensures b[i] < |health| { assert (a + b)[|a| + i] == b[i]; }
    }
  }

  lemma {:induction false} HealthyHead(s: seq<nat>, health: seq<bool>)
    requires Fits(s, health) && s != []
    ensures Healthy(s, health) == (if health[s[0]] then [s[0]] else []) + Healthy(s[1..], health)
  {
  }

  lemma {:induction false} HealthyNone(s: seq<nat>, health: seq<bool>)
    requires s == []
    ensures Healthy(s, health) == []
  {
  }

  lemma {:induction false} HealthyConcat(a: seq<nat>, b: seq<nat>, health: seq<bool>)
    requires Fits(a, health) && Fits(b, health) && Fits(a + b, health)
    ensures Healthy(a + b, health) == Healthy(a, health) + Healthy(b, health)
  {
    hide Fits, Healthy;
    if a == [] {
      assert a + b == b;
      HealthyNone(a, health);
    } else {
      assert (a + b)[1..] == a[1..] + b && (a + b)[0] == a[0];
      FitsParts(a, b, health);
      FitsParts(a[1..], b, health);
      HealthyConcat(a[1..], b, health);
      HealthyHead(a, health);
      HealthyHead(a + b, health);
    }
  }

  lemma {:induction false} HealthyOccurrences(s: seq<nat>, health: seq<bool>, b: nat)
    requires Fits(s, health)
    ensures Occurrences(Healthy(s, health), b) == if b < |health| && health[b] then Occurrences(s, b) else 0
  {
    if s != [] {
      HealthyOccurrences(s[1..], health, b);
      var head := if health[s[0]] then [s[0]] else [];
      OccurrencesConcat(head, Healthy(s[1..], health), b);
      assert s == [s[0]] + s[1..];
      OccurrencesConcat([s[0]], s[1..], b);
      assert [s[0]][..0] == [];
      assert Occurrences([s[0]], b) == if s[0] == b then 1 else 0;
      if s[0] == b { assert b < |health|; }
    }
  }

  lemma {:induction false} WindowSplit(list: seq<nat>, c: nat, a: nat, b: nat)
    requires list != []
    ensures Window(list, c, a + b) == Window(list, c, a) + Window(list, c + a, b)
    decreases a
  {
    if a == 0 {
      assert Window(list, c, 0) + Window(list, c, b) == Window(list, c, b);
    } else {
      WindowSplit(list, c + 1, a - 1, b);
    }
  }

  /** A full turn of the list, from any counter value, is a rotation of it. */
  lemma {:induction false} WindowRotates(list: seq<nat>, c: nat, x: nat)
    requires list != []
    ensures Occurrences(Window(list, c, |list|), x) == Occurrences(list, x)
  {
    var r := c % |list|;
    var turned := list[r..] + list[..r];
    forall i | 0 <= i < |list|
      ensures Window(list, c, |list|)[i] == turned[i]
    {
      WindowAt(list, c, |list|, i);
      SlotAfter(list, c, i);
    }
    assert Window(list, c, |list|) == turned;
    assert list == list[..r] + list[r..];
    OccurrencesConcat(list[r..], list[..r], x);
    OccurrencesConcat(list[..r], list[r..], x);
  }

  lemma {:induction false} SlotAfter(list: seq<nat>, c: nat, i: nat)
    requires i < |list|
    ensures Slot(list, c + i) == (list[c % |list|..] + list[..c % |list|])[i]
  {
    var n := |list|;
    var q, r := c / n, c % n;
    if i < n - r {
      DivModUnique(c + i, n, q, r + i);
    } else {
      assert (q + 1) * n == q * n + n;
      DivModUnique(c + i, n, q + 1, r + i - n);
    }
  }

  lemma {:induction false} HealthyWindowStep(list: seq<nat>, health: seq<bool>, c: nat, len: nat)
    requires list != [] && Fits(list, health) && len > 0
    ensures Slot(list, c) < |health|
    ensures HealthyWindow(list, health, c, len) ==
            (if health[Slot(list, c)] then [Slot(list, c)] else []) + HealthyWindow(list, health, c + 1, len - 1)
  {
    WindowFits(list, health, c, len);
    var w := Window(list, c, len);
    assert w[0] == Slot(list, c) && w[1..] == Window(list, c + 1, len - 1);
  }

  /** A bounded search returns the first healthy backend of its window and stops right
      after it, or finds none because the window has none. */
  lemma {:induction false} ProbeFindsFirst(list: seq<nat>, health: seq<bool>, c: nat, tries: nat)
    requires list != [] && Fits(list, health)
    ensures var (c', b) := Probe(list, health, c, tries);
      && c <= c' <= c + tries
      && HealthyWindow(list, health, c, c' - c) == (if b.Some? then [b.value] else [])
      && (b.None? <==> HealthyWindow(list, health, c, tries) == [])
    decreases tries
  {
    if tries > 0 {
      HealthyWindowStep(list, health, c, tries);
      if health[Slot(list, c)] {
        HealthyWindowStep(list, health, c, 1);
      } else {
        ProbeFindsFirst(list, health, c + 1, tries - 1);
        var c' := Probe(list, health, c, tries).0;
        if c' > c { HealthyWindowStep(list, health, c, c' - c); }
      }
    }
  }

  function HealthyWeight(list: seq<nat>, health: seq<bool>): (r: nat)
    requires Fits(list, health)
  {
    |Healthy(list, health)|
  }

  lemma {:induction false} LengthByOccurrences(a: seq<nat>, b: seq<nat>)
    requires forall x: nat :: Occurrences(a, x) == Occurrences(b, x)
    ensures multiset(a) == multiset(b) && |a| == |b|
  {
    forall x: nat
      ensures multiset(a)[x] == multiset(b)[x]
    {
      OccurrencesIsMultiplicity(a, x);
      OccurrencesIsMultiplicity(b, x);
    }
    assert |multiset(a)| == |a| && |multiset(b)| == |b|;
  }

  lemma {:induction false} OccurrencesIsMultiplicity(s: seq<nat>, x: nat)
    ensures multiset(s)[x] == Occurrences(s, x)
  {
    if s != [] {
      var n := |s| - 1;
      assert s == s[..n] + [s[n]];
      OccurrencesIsMultiplicity(s[..n], x);
    }
  }

  lemma {:induction false} TurnOccurrences(list: seq<nat>, health: seq<bool>, c: nat, b: nat)
    requires list != [] && Fits(list, health)
    ensures Occurrences(HealthyWindow(list, health, c, |list|), b) ==
            if b < |health| && health[b] then Occurrences(list, b) else 0
  {
    WindowFits(list, health, c, |list|);
    HealthyOccurrences(Window(list, c, |list|), health, b);
    WindowRotates(list, c, b);
  }

  /** Every full turn holds the same number of healthy slots. */
  lemma {:induction false} TurnWeight(list: seq<nat>, health: seq<bool>, c: nat)
    requires list != [] && Fits(list, health)
    ensures |HealthyWindow(list, health, c, |list|)| == HealthyWeight(list, health)
  {
    forall x: nat
      ensures Occurrences(HealthyWindow(list, health, c, |list|), x) == Occurrences(Healthy(list, health), x)
    {
      HealthyOccurrences(list, health, x);
      TurnOccurrences(list, health, c, x);
    }
    LengthByOccurrences(HealthyWindow(list, health, c, |list|), Healthy(list, health));
  }

  /** The error is returned exactly when no backend in the list is healthy. */
  lemma {:induction false} ErrorIffNoneHealthy(list: seq<nat>, health: seq<bool>, c: nat)
    requires Fits(list, health)
    ensures Next(list, health, c).1.None? <==> forall i :: 0 <= i < |list| ==> !health[list[i]]
  {
    if list != [] {
      ProbeFindsFirst(list, health, c, |list|);
      TurnWeight(list, health, c);
    }
    HealthyEmpty(list, health);
  }

  lemma {:induction false} HealthyEmpty(s: seq<nat>, health: seq<bool>)
    requires Fits(s, health)
    ensures Healthy(s, health) == [] <==> forall i :: 0 <= i < |s| ==> !health[s[i]]
  {
    if s != [] {
      HealthyEmpty(s[1..], health);
      assert forall i :: 1 <= i < |s| ==> s[1..][i - 1] == s[i];
    }
  }

  /** Consecutive picks are the healthy-filtered cyclic reading of the list: k calls consume
      some stretch of it and return its healthy slots in order. */
  lemma {:induction false} PicksFilterTheCycle(list: seq<nat>, health: seq<bool>, c: nat, k: nat) returns (len: nat)
    requires list != [] && Fits(list, health) && HealthyWeight(list, health) > 0
    ensures Picks(list, health, c, k) == Found(HealthyWindow(list, health, c, len))
    decreases k
  {
    if k == 0 {
      len := 0;
      NoPicks(list, health, c);
    } else {
      hide HealthyWindow, HealthyWeight, Picks, Next, Found, Fits;
      var c' := Next(list, health, c).0;
      NextConsumes(list, health, c);
      var rest := PicksFilterTheCycle(list, health, c', k - 1);
      len := c' - c + rest;
      OnePick(list, health, c, k, rest);
    }
  }

  lemma {:induction false} NoPicks(list: seq<nat>, health: seq<bool>, c: nat)
    requires list != [] && Fits(list, health)
    ensures Picks(list, health, c, 0) == Found(HealthyWindow(list, health, c, 0))
  {
  }

  /** The first pick, then the others. */
  lemma {:induction false} OnePick(list: seq<nat>, health: seq<bool>, c: nat, k: nat, rest: nat)
    requires list != [] && Fits(list, health) && HealthyWeight(list, health) > 0 && k > 0
    requires c <= Next(list, health, c).0
    requires Picks(list, health, Next(list, health, c).0, k - 1) ==
             Found(HealthyWindow(list, health, Next(list, health, c).0, rest))
    ensures Picks(list, health, c, k) == Found(HealthyWindow(list, health, c, Next(list, health, c).0 - c + rest))
  {
    hide HealthyWindow, HealthyWeight, Picks, Next, Found, Fits;
    PicksStep(list, health, c, k);
    NextConsumes(list, health, c);
    var r := Next(list, health, c);
    FirstThenRest(list, health, c, r.0, r.1.value, rest);
  }

  lemma {:induction false} PicksStep(list: seq<nat>, health: seq<bool>, c: nat, k: nat)
    requires Fits(list, health) && k > 0
    ensures Picks(list, health, c, k) == [Next(list, health, c).1] + Picks(list, health, Next(list, health, c).0, k - 1)
  {
    hide Next, Fits;
  }

  lemma {:induction false} FirstThenRest(list: seq<nat>, health: seq<bool>, c: nat, c': nat, b: nat, rest: nat)
    requires list != [] && Fits(list, health) && c <= c' && HealthyWindow(list, health, c, c' - c) == [b]
    ensures Found(HealthyWindow(list, health, c, c' - c + rest)) ==
            [Some(b)] + Found(HealthyWindow(list, health, c', rest))
  {
    hide HealthyWindow, Found, Fits;
    HealthyExtends(list, health, c, c' - c, rest);
    FoundCons(b, HealthyWindow(list, health, c', rest));
  }

  lemma {:induction false} NextConsumes(list: seq<nat>, health: seq<bool>, c: nat)
    requires list != [] && Fits(list, health) && HealthyWeight(list, health) > 0
    ensures var (c', b) := Next(list, health, c);
      c <= c' && b.Some? && HealthyWindow(list, health, c, c' - c) == [b.value]
  {
    TurnWeight(list, health, c);
    FirstIsFound(list, health, c, |list|);
  }

  lemma {:induction false} FirstIsFound(list: seq<nat>, health: seq<bool>, c: nat, tries: nat)
    requires list != [] && Fits(list, health) && |HealthyWindow(list, health, c, tries)| > 0
    ensures var (c', b) := Probe(list, health, c, tries);
      c <= c' && b.Some? && HealthyWindow(list, health, c, c' - c) == [b.value]
  {
    ProbeFindsFirst(list, health, c, tries);
    var (c', b) := Probe(list, health, c, tries);
    assert HealthyWindow(list, health, c, tries) != [];
    assert b.Some?;
    assert c <= c';
    assert HealthyWindow(list, health, c, c' - c) == [b.value];
  }

  lemma {:induction false} HealthyExtends(list: seq<nat>, health: seq<bool>, c: nat, a: nat, b: nat)
    requires list != [] && Fits(list, health)
    ensures HealthyWindow(list, health, c, a + b) ==
            HealthyWindow(list, health, c, a) + HealthyWindow(list, health, c + a, b)
  {
    WindowFits(list, health, c, a);
    WindowFits(list, health, c + a, b);
    WindowFits(list, health, c, a + b);
    WindowSplit(list, c, a, b);
    HealthyConcat(Window(list, c, a), Window(list, c + a, b), health);
  }

  lemma {:induction false} FoundCons(x: nat, s: seq<nat>)
    ensures Found([x] + s) == [Some(x)] + Found(s)
  {
  }

  /** Two cyclic stretches from the same start with equally many healthy slots have the same ones. */
  lemma {:induction false} SameLengthPrefix(list: seq<nat>, health: seq<bool>, c: nat, a: nat, b: nat)
    requires list != [] && Fits(list, health)
    requires |HealthyWindow(list, health, c, a)| == |HealthyWindow(list, health, c, b)|
    ensures HealthyWindow(list, health, c, a) == HealthyWindow(list, health, c, b)
  {
    var lo, hi := if a < b then a else b, if a < b then b else a;
    assert lo + (hi - lo) == hi;
    HealthyExtends(list, health, c, lo, hi - lo);
  }

  /** Fairness: with fixed health, any H consecutive calls, H the total healthy weight, choose each
      healthy backend exactly as often as its weight and no other backend; with the 64-bit counter too, unless it wraps
      among them. */
  lemma {:induction false} OneTurnIsFair(weights: seq<int>, health: seq<bool>, c: nat) returns (picks: seq<nat>)
    requires |health| == |weights|
    ensures Fits(Expanded(weights), health)
    ensures var list := Expanded(weights);
            && var h := HealthyWeight(list, health);
               && Picks(list, health, c, h) == Found(picks)
               && (Smooth(|list|, c, h * |list|) ==> PicksWord(list, health, c % WORD, h) == Found(picks))
    ensures forall b: nat :: Occurrences(picks, b) == if b < |weights| && health[b] then Weight(weights[b]) else 0
  {
    var list := Expanded(weights);
    var h := HealthyWeight(list, health);
    if Smooth(|list|, c, h * |list|) { PicksAgree(list, health, c, h); }
    hide PicksWord, Smooth;
    picks := [];
    if h > 0 {
      var len := PicksFilterTheCycle(list, health, c, h);
      TurnWeight(list, health, c);
      picks := HealthyWindow(list, health, c, len);
      assert |picks| == |Found(picks)| == h;
      SameLengthPrefix(list, health, c, len, |list|);
    }
    forall b: nat
      ensures Occurrences(picks, b) == if b < |weights| && health[b] then Weight(weights[b]) else 0
    {
      ExpandedByWeight(weights, b);
      if h > 0 {
        TurnOccurrences(list, health, c, b);
      } else {
        HealthyOccurrences(list, health, b);
      }
    }
  }

  // ---------- The wrap of the counter ----------

  /** The 64-bit counter after one more draw. */
  function Tick(c: nat): (r: nat)
    ensures r < WORD
  {
    (c + 1) % WORD
  }

  /** The bounded search with the 64-bit counter. */
  function ProbeWord(list: seq<nat>, health: seq<bool>, c: nat, tries: nat): (r: (nat, Option<nat>))
    requires list != [] && Fits(list, health)
    decreases tries
  {
    if tries == 0 then (c, None)
    else
      var b := Slot(list, c);
      if health[b] then (Tick(c), Some(b)) else ProbeWord(list, health, Tick(c), tries - 1)
  }

  function NextWord(list: seq<nat>, health: seq<bool>, c: nat): (r: (nat, Option<nat>))
    requires Fits(list, health)
  {
    if list == [] then (c, None) else ProbeWord(list, health, c, |list|)
  }

  function PicksWord(list: seq<nat>, health: seq<bool>, c: nat, k: nat): (r: seq<Option<nat>>)
    requires Fits(list, health)
    decreases k
  {
    if k == 0 then []
    else
      var (c', b) := NextWord(list, health, c);
      [b] + PicksWord(list, health, c', k - 1)
  }

  /** The wrap is not reached in so many draws, or it is the end of a turn. */
  predicate Smooth(n: nat, c: nat, draws: nat) {
    n == 0 || c + draws <= WORD || WORD % n == 0
  }

  lemma {:induction false} WrappedSlot(list: seq<nat>, c: nat)
    requires list != [] && (c < WORD || WORD % |list| == 0)
    ensures Slot(list, c % WORD) == Slot(list, c)
  {
    if c >= WORD {
      ModMod(c, WORD, |list|, WORD / |list|);
    }
  }

  lemma {:induction false} WrappedTick(c: nat)
    ensures Tick(c % WORD) == (c + 1) % WORD
  {
  }

  lemma {:induction false} ProbeAgrees(list: seq<nat>, health: seq<bool>, c: nat, tries: nat)
    requires list != [] && Fits(list, health) && Smooth(|list|, c, tries)
    ensures var (c', b) := Probe(list, health, c, tries);
            c <= c' <= c + tries && ProbeWord(list, health, c % WORD, tries) == (c' % WORD, b)
    decreases tries
  {
    hide Slot, Tick;
    if tries > 0 {
      SlotInList(list, c);
      WrappedSlot(list, c);
      WrappedTick(c);
      if !health[Slot(list, c)] { ProbeAgrees(list, health, c + 1, tries - 1); }
    }
  }

  lemma {:induction false} SlotInList(list: seq<nat>, c: nat)
    requires list != []
    ensures Slot(list, c) in list
  {
  }

  /** As long as the counter does not wrap, and for ever if the length of the list is a power of two, the 64-bit counter
      makes no difference: the laws of `Picks` are laws of the code. */
  lemma {:induction false} PicksAgree(list: seq<nat>, health: seq<bool>, c: nat, k: nat)
    requires Fits(list, health) && Smooth(|list|, c, k * |list|)
    ensures PicksWord(list, health, c % WORD, k) == Picks(list, health, c, k)
    decreases k
  {
    hide Probe, ProbeWord;
    if k > 0 {
      var n, c' := |list|, Next(list, health, c).0;
      assert k * n == (k - 1) * n + n;
      if n == 0 {
        assert NextWord(list, health, c % WORD) == (c % WORD, None) && Next(list, health, c) == (c, None);
      } else {
        ProbeAgrees(list, health, c, n);
      }
      PicksAgree(list, health, c', k - 1);
    }
  }

  /** The position of the draw number d of a call that finds the counter at c. */
  function Drawn(n: nat, c: nat, d: nat): (r: nat)
    requires n > 0
    ensures r < n
  {
    (c + d) % WORD % n
  }

  /** The positions that the n draws from c leave out because the counter wraps among them. */
  predicate Missed(n: nat, c: nat, i: nat)
    requires n > 0 && c < WORD
  {
    c + n > WORD && n - (WORD - c) <= i && WORD % n <= i < n - (WORD - c) + WORD % n
  }

  /** A draw before the wrap, and one after it. */
  lemma {:induction false} DrawnBefore(n: nat, c: nat, d: nat)
    requires 0 < n && c + d < WORD
    ensures Drawn(n, c, d) == (c + d) % n
  {
  }

  lemma {:induction false} DrawnAfter(n: nat, c: nat, d: nat)
    requires 0 < n < WORD && c < WORD <= c + d && d < n
    ensures Drawn(n, c, d) == c + d - WORD
  {
    DivModUnique(c + d, WORD, 1, c + d - WORD);
    DivModUnique(c + d - WORD, n, 0, c + d - WORD);
  }

  /** The position e draws before the wrap. */
  lemma {:induction false} DrawnFromEnd(n: nat, c: nat, d: nat, e: nat)
    requires 0 < n < WORD && c + d + e == WORD && 1 <= e < n
    ensures Drawn(n, c, d) == if e <= WORD % n then WORD % n - e else WORD % n - e + n
  {
    DrawnBefore(n, c, d);
    hide Drawn;
    var q, w := WORD / n, WORD % n;
    assert WORD == q * n + w;
    if e <= w {
      DivModUnique(c + d, n, q, w - e);
    } else {
      assert (q - 1) * n == q * n - n;
      DivModUnique(c + d, n, q - 1, w - e + n);
    }
  }

  lemma {:induction false} DrawnIsNotMissed(n: nat, c: nat, d: nat)
    requires 0 < n < WORD && c < WORD && d < n
    ensures !Missed(n, c, Drawn(n, c, d))
  {
    hide Drawn;
    if c + n > WORD {
      if c + d < WORD { DrawnFromEnd(n, c, d, WORD - c - d); } else { DrawnAfter(n, c, d); }
    }
  }

  lemma {:induction false} NotMissedIsDrawn(n: nat, c: nat, i: nat) returns (d: nat)
    requires 0 < n < WORD && c < WORD && i < n && !Missed(n, c, i)
    ensures d < n && Drawn(n, c, d) == i
  {
    hide Drawn;
    var k, w := WORD - c, WORD % n;
    if c + n <= WORD {
      d := TurnsUntil(c, n, i);
      DrawnBefore(n, c, d);
    } else if i < n - k {
      d := i + k;
      DrawnAfter(n, c, d);
    } else {
      var e := if i < w then w - i else n + w - i;
      d := k - e;
      DrawnFromEnd(n, c, d, e);
    }
  }

  /** How far the counter is from the next value that selects position j. */
  lemma {:induction false} TurnsUntil(v: nat, n: nat, j: nat) returns (k: nat)
    requires j < n
    ensures k < n && (v + k) % n == j
  {
    var q, r := v / n, v % n;
    if r <= j {
      k := j - r;
      DivModUnique(v + k, n, q, j);
    } else {
      k := n + j - r;
      assert (q + 1) * n == q * n + n;
      DivModUnique(v + k, n, q + 1, j);
    }
  }

  lemma {:induction false} ProbeWordFails(list: seq<nat>, health: seq<bool>, c: nat, tries: nat)
    requires list != [] && Fits(list, health) && c < WORD
    ensures ProbeWord(list, health, c, tries).1.None? <==>
            forall d :: 0 <= d < tries ==> !health[list[Drawn(|list|, c, d)]]
    decreases tries
  {
    if tries > 0 {
      var n, t := |list|, Tick(c);
      DrawnBefore(n, c, 0);
      assert Slot(list, c) == list[Drawn(n, c, 0)];
      ProbeWordFails(list, health, t, tries - 1);
      hide Drawn, Tick, Slot;
      forall d | 0 <= d < tries - 1 ensures Drawn(n, t, d) == Drawn(n, c, d + 1) {
        DrawnShift(n, c, d);
      }
      if health[Slot(list, c)] {
        assert health[list[Drawn(n, c, 0)]];
      } else if forall d :: 0 <= d < tries - 1 ==> !health[list[Drawn(n, t, d)]] {
        forall d | 0 <= d < tries ensures !health[list[Drawn(n, c, d)]] {
          if d > 0 { assert Drawn(n, t, d - 1) == Drawn(n, c, d); }
        }
      }
    }
  }

  lemma {:induction false} DrawnShift(n: nat, c: nat, d: nat)
    requires n > 0 && c < WORD
    ensures Drawn(n, Tick(c), d) == Drawn(n, c, d + 1)
  {
    if c + 1 < WORD {
      DivModUnique(c + 1, WORD, 0, c + 1);
    } else {
      DivModUnique(c + 1, WORD, 1, 0);
      DivModUnique(c + 1 + d, WORD, d / WORD + 1, d % WORD);
    }
  }

  /** The exact result at every counter value: the error is returned exactly when no backend at a position that is not
      missed is healthy. Nothing is missed before the wrap, nor if the length of the list is a power of two. */
  lemma {:induction false} WordErrorIff(list: seq<nat>, health: seq<bool>, c: nat)
    requires Fits(list, health) && 0 < |list| < WORD && c < WORD
    ensures NextWord(list, health, c).1.None? <==>
            forall i :: 0 <= i < |list| && !Missed(|list|, c, i) ==> !health[list[i]]
    ensures Smooth(|list|, c, |list|) <==> forall i :: 0 <= i < |list| ==> !Missed(|list|, c, i)
  {
    var n := |list|;
    ProbeWordFails(list, health, c, n);
    SmoothIff(n, c);
    hide Missed, Drawn, ProbeWord;
    if NextWord(list, health, c).1.None? {
      forall i | 0 <= i < n && !Missed(n, c, i) ensures !health[list[i]] {
        var d := NotMissedIsDrawn(n, c, i);
      }
    } else {
      var d :| 0 <= d < n && health[list[Drawn(n, c, d)]];
      DrawnIsNotMissed(n, c, d);
    }
  }

  lemma {:induction false} SmoothIff(n: nat, c: nat)
    requires 0 < n < WORD && c < WORD
    ensures Smooth(n, c, n) <==> forall i :: 0 <= i < n ==> !Missed(n, c, i)
  {
    var k, w := WORD - c, WORD % n;
    if !Smooth(n, c, n) {
      assert Missed(n, c, if w < n - k then n - k else w);
    }
  }

  /** For instance three backends at the last value of the counter: the draws select the positions 0, 0 and 1. */
  lemma {:induction false} WrapSkipsHealthy()
    ensures NextWord([0, 1, 2], [false, false, true], WORD - 1).1 == None
  {
    WordErrorIff([0, 1, 2], [false, false, true], WORD - 1);
    assert WORD % 3 == 1;
  }

  // ---------- Probes ----------

  datatype ProbeEvent = ProbeEvent(backend: nat, ok: bool)

  /** Consecutive-outcome counts and the health flags they drive. */
  datatype Checks = Checks(failures: map<nat, nat>, successes: map<nat, nat>, health: seq<bool>)

  const DEFAULT_THRESHOLD: int := 3
  const RECOVERY_THRESHOLD: nat := 1

  function Threshold(threshold: int): (r: nat)
    ensures r >= 1
  {
    if threshold <= 0 then DEFAULT_THRESHOLD else threshold
  }

  function Count(m: map<nat, nat>, b: nat): (r: nat) {
    if b in m then m[b] else 0
  }

  function AfterProbe(threshold: nat, s: Checks, e: ProbeEvent): (r: Checks)
    requires e.backend < |s.health|
    ensures |r.health| == |s.health|
  {
    var b := e.backend;
    if e.ok then
      var n := Count(s.successes, b) + 1;
      Checks(s.failures[b := 0], s.successes[b := n], if n >= RECOVERY_THRESHOLD then s.health[b := true] else s.health)
    else
      var n := Count(s.failures, b) + 1;
      Checks(s.failures[b := n], s.successes[b := 0], if n >= threshold then s.health[b := false] else s.health)
  }

  ghost predicate ValidProbes(events: seq<ProbeEvent>, backends: nat) {
    forall i :: 0 <= i < |events| ==> events[i].backend < backends
  }

  function RunProbes(threshold: nat, backends: nat, events: seq<ProbeEvent>): (r: Checks)
    requires ValidProbes(events, backends)
    ensures |r.health| == backends
  {
    if events == [] then Checks(map[], map[], seq(backends, _ => true))
    else AfterProbe(threshold, RunProbes(threshold, backends, events[..|events| - 1]), events[|events| - 1])
  }

  /** The outcomes of one backend's probes, oldest first. */
  function OutcomesOf(events: seq<ProbeEvent>, b: nat): (r: seq<bool>) {
    if events == [] then []
    else
      var n := |events| - 1;
      OutcomesOf(events[..n], b) + (if events[n].backend == b then [events[n].ok] else [])
  }

  /** The last t probes of the backend all failed. */
  ghost predicate LastAllFailed(outcomes: seq<bool>, t: nat) {
    t <= |outcomes| && forall i :: |outcomes| - t <= i < |outcomes| ==> !outcomes[i]
  }

  /** A backend is healthy exactly when its last `threshold` probes did not all fail. */
  lemma {:induction false} HealthFollowsProbes(threshold: nat, backends: nat, events: seq<ProbeEvent>, b: nat)
    requires threshold >= 1 && ValidProbes(events, backends) && b < backends
    ensures var s := RunProbes(threshold, backends, events);
      && LastAllFailed(OutcomesOf(events, b), Count(s.failures, b))
      && !LastAllFailed(OutcomesOf(events, b), Count(s.failures, b) + 1)
      && (s.health[b] <==> Count(s.failures, b) < threshold)
      && (s.health[b] <==> !LastAllFailed(OutcomesOf(events, b), threshold))
  {
    if events != [] {
      var n := |events| - 1;
      HealthFollowsProbes(threshold, backends, events[..n], b);
      assert OutcomesOf(events[..n], b) + [] == OutcomesOf(events[..n], b);
      if events[n].backend == b {
        var before, after := OutcomesOf(events[..n], b), OutcomesOf(events, b);
        var k := Count(RunProbes(threshold, backends, events[..n]).failures, b);
        assert after == before + [events[n].ok];
        if events[n].ok {
          assert after[|after| - 1];
        } else {
          FailedRunGrows(before, k);
          FailedRunGrows(before, k + 1);
        }
      }
    }
    var k := Count(RunProbes(threshold, backends, events).failures, b);
    FailedRunShrinks(OutcomesOf(events, b), k, threshold);
    FailedRunShrinks(OutcomesOf(events, b), threshold, k + 1);
  }

  /** Without a threshold of its own a checker takes three: three failed probes in a row make a backend unhealthy and
      the next good one makes it healthy. */
  lemma {:induction false} DefaultIsThree(threshold: int, backends: nat, events: seq<ProbeEvent>, b: nat)
    requires threshold <= 0 && ValidProbes(events, backends) && b < backends
    ensures RunProbes(Threshold(threshold), backends, events).health[b] <==> !LastAllFailed(OutcomesOf(events, b), 3)
  {
    HealthFollowsProbes(Threshold(threshold), backends, events, b);
  }

  lemma {:induction false} FailedRunGrows(outcomes: seq<bool>, t: nat)
    ensures LastAllFailed(outcomes + [false], t + 1) <==> LastAllFailed(outcomes, t)
  {
    var after := outcomes + [false];
    if LastAllFailed(after, t + 1) {
      forall i | |outcomes| - t <= i < |outcomes| ensures !outcomes[i] { assert after[i] == outcomes[i]; }
    }
  }

  lemma {:induction false} FailedRunShrinks(outcomes: seq<bool>, t: nat, u: nat)
    ensures u <= t && LastAllFailed(outcomes, t) ==> LastAllFailed(outcomes, u)
  {
  }

  /** With probes alone driving health, no call returns a backend whose last `threshold` probes all failed. */
  lemma NextAvoidsFailing(weights: seq<int>, threshold: int, events: seq<ProbeEvent>, c: nat)
    requires ValidProbes(events, |weights|)
    ensures var health := RunProbes(Threshold(threshold), |weights|, events).health;
      && Fits(Expanded(weights), health)
      && var pick := NextWord(Expanded(weights), health, c).1;
         pick.Some? ==> pick.value < |weights| && !LastAllFailed(OutcomesOf(events, pick.value), Threshold(threshold))
  {
    var list, health := Expanded(weights), RunProbes(Threshold(threshold), |weights|, events).health;
    if list != [] {
      ProbeIsHealthy(list, health, c, |list|);
      var pick := NextWord(list, health, c).1;
      if pick.Some? {
        HealthFollowsProbes(Threshold(threshold), |weights|, events, pick.value);
      }
    }
  }

  lemma {:induction false} ProbeIsHealthy(list: seq<nat>, health: seq<bool>, c: nat, tries: nat)
    requires list != [] && Fits(list, health)
    ensures var pick := ProbeWord(list, health, c, tries).1;
      pick.Some? ==> pick.value in list && pick.value < |health| && health[pick.value]
    decreases tries
  {
    if tries > 0 && !health[Slot(list, c)] { ProbeIsHealthy(list, health, Tick(c), tries - 1); }
  }

  // ---------- The objects ----------

  class Pool {
    const weights: seq<int>
    const list: seq<nat>
    var health: seq<bool>
    var counter: nat

    ghost predicate Valid()
      reads this
    {
      list == Expanded(weights) && |health| == |weights| && counter < WORD
    }

    constructor (weights: seq<int>)
      ensures Valid() && this.weights == weights && counter == 0
      ensures forall b :: 0 <= b < |weights| ==> health[b]
    {
      this.weights := weights;
      var l := BuildWeightedList(weights);
      list := l;
      health := seq(|weights|, _ => true);
      counter := 0;
    }

    static method BuildWeightedList(weights: seq<int>) returns (list: seq<nat>)
      ensures list == Expanded(weights)
    {
      list := [];
      for b := 0 to |weights|
        invariant list == Expanded(weights[..b])
      {
        var w := if weights[b] <= 0 then 1 else weights[b];
        for i := 0 to w
          invariant list == Expanded(weights[..b]) + seq(i, _ => b)
        {
          list := list + [b];
        }
        assert weights[..b + 1][..b] == weights[..b];
      }
      assert weights[..|weights|] == weights;
    }

    method NextRoundRobin() returns (pick: Option<nat>)
      requires Valid()
      modifies this`counter
      ensures Valid() && (counter, pick) == NextWord(list, health, old(counter))
    {
      var n := |list|;
      if n == 0 { return None; }
      for i := 0 to n
        invariant counter < WORD
        invariant ProbeWord(list, health, counter, n - i) == ProbeWord(list, health, old(counter), n)
      {
        var idx := counter;
        counter := (counter + 1) % WORD;
        var b := list[idx % n];
        if health[b] { return Some(b); }
      }
      return None;
    }

    method Mark(b: nat, up: bool)
      requires Valid() && b < |weights|
      modifies this`health
      ensures Valid() && health == old(health)[b := up]
    {
      health := health[b := up];
    }
  }

  class HealthChecker {
    const pool: Pool
    const threshold: nat
    var failures: map<nat, nat>
    var successes: map<nat, nat>

    ghost function View(): (s: Checks)
      reads this, pool
    {
      Checks(failures, successes, pool.health)
    }

    constructor (pool: Pool, threshold: int)
      ensures this.pool == pool && this.threshold == Threshold(threshold)
      ensures View() == Checks(map[], map[], pool.health)
    {
      this.pool := pool;
      this.threshold := Threshold(threshold);
      failures, successes := map[], map[];
    }

    method RecordFailure(b: nat)
      requires pool.Valid() && b < |pool.weights|
      modifies this, pool`health
      ensures pool.Valid() && View() == AfterProbe(threshold, old(View()), ProbeEvent(b, false))
    {
      successes := successes[b := 0];
      failures := failures[b := Count(failures, b) + 1];
      if failures[b] >= threshold { pool.Mark(b, false); }
    }

    method RecordSuccess(b: nat)
      requires pool.Valid() && b < |pool.weights|
      modifies this, pool`health
      ensures pool.Valid() && View() == AfterProbe(threshold, old(View()), ProbeEvent(b, true))
    {
      failures := failures[b := 0];
      successes := successes[b := Count(successes, b) + 1];
      if successes[b] >= RECOVERY_THRESHOLD { pool.Mark(b, true); }
    }
  }
}
