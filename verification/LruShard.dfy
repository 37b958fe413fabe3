/** One LRU partition: a map from key to list element and the eviction list,
    front first. Elements are handles into a small store, so that a key can be moved
    without searching the list. */
module LruShard {

  /** A stored response; times and durations are integers on one clock. */
  datatype Entry = Entry(body: string, status: int, etag: string, storedAt: int, ttl: int, staleWindow: int)

  predicate IsExpired(e: Entry, now: int) {
    e.ttl > 0 && now - e.storedAt > e.ttl
  }

  predicate IsStaleServable(e: Entry, now: int) {
    && e.staleWindow > 0 && e.ttl > 0
    && now - e.storedAt > e.ttl
    && now - e.storedAt <= e.ttl + e.staleWindow
  }

  predicate Servable(e: Entry, now: int) {
    !IsExpired(e, now) || IsStaleServable(e, now)
  }

  /** The age limit of a served entry: TTL plus the stale-while-revalidate window; none without a TTL. */
  predicate WithinAge(e: Entry, now: int) {
    e.ttl > 0 ==> now - e.storedAt <= e.ttl + (if e.staleWindow > 0 then e.staleWindow else 0)
  }

  /** An entry is served exactly within its age limit, as a stale one exactly when its TTL has passed. */
  lemma {:induction false} ServableIff(e: Entry, now: int)
    ensures Servable(e, now) <==> WithinAge(e, now)
    ensures IsStaleServable(e, now) <==> WithinAge(e, now) && e.ttl > 0 && now > e.storedAt + e.ttl
    ensures IsExpired(e, now) <==> e.ttl > 0 && now > e.storedAt + e.ttl
  {
  }

  datatype Item = Item(key: string, entry: Entry)

  datatype Shard = Shard(items: map<string, nat>, eviction: seq<nat>, elems: map<nat, Item>, nextHandle: nat,
                         cap: nat) {

    /** Map and list are in bijection through the elements, keys are distinct, and the shard fits its capacity. */
    ghost predicate Valid() {
      && cap >= 1 && |eviction| <= cap
      && Distinct(eviction)
      && (forall h :: h in elems <==> h in eviction)
      && (forall h :: h in elems ==> h < nextHandle && elems[h].key in items && items[elems[h].key] == h)
      && (forall k :: k in items ==> items[k] in elems && elems[items[k]].key == k)
    }

    /** The map a shard stands for. */
    ghost function Contents(): (m: map<string, Entry>)
      requires Valid()
    {
      map k | k in items :: elems[items[k]].entry
    }
  }

  predicate Distinct(s: seq<nat>) {
    forall i, j :: 0 <= i < j < |s| ==> s[i] != s[j]
  }

  function Empty(cap: nat): (s: Shard) {
    Shard(map[], [], map[], 0, cap)
  }

  /** The list without one handle. */
  function Without(s: seq<nat>, h: nat): (r: seq<nat>)
    ensures forall x :: x in r <==> x in s && x != h
    ensures Distinct(s) ==> Distinct(r) && |r| == |s| - (if h in s then 1 else 0)
  {
    if s == [] then []
    else
      var rest := Without(s[1..], h);
      assert s == [s[0]] + s[1..];
      assert Distinct(s) ==> Distinct(s[1..]) && s[0] !in s[1..] && s[0] !in rest;
      if s[0] == h then rest else [s[0]] + rest
  }

  function MoveToFront(s: Shard, h: nat): (r: Shard)
    requires s.Valid() && h in s.elems
    ensures r.Valid() && r.Contents() == s.Contents()
  {
    s.(eviction := [h] + Without(s.eviction, h))
  }

  /** The shard without one element, before anything is known of it. */
  function Unlinked(s: Shard, h: nat): (r: Shard)
    requires s.Valid() && h in s.elems
  {
    Shard(s.items - {s.elems[h].key}, Without(s.eviction, h), s.elems - {h}, s.nextHandle, s.cap)
  }

  lemma {:induction false} UnlinkedElems(s: Shard, h: nat)
    requires s.Valid() && h in s.elems
    ensures var r := Unlinked(s, h);
            forall x :: x in r.elems ==> r.elems[x].key in r.items && r.items[r.elems[x].key] == x
  {
    hide Without;
    var r := Unlinked(s, h);
    forall x | x in r.elems ensures r.elems[x].key in r.items && r.items[r.elems[x].key] == x {
      assert x in s.elems && x != h && s.items[s.elems[x].key] == x && s.items[s.elems[h].key] == h;
    }
  }

  lemma {:induction false} UnlinkedItems(s: Shard, h: nat)
    requires s.Valid() && h in s.elems
    ensures var r := Unlinked(s, h); forall k :: k in r.items ==> r.items[k] in r.elems && r.elems[r.items[k]].key == k
  {
    hide Without;
    var r := Unlinked(s, h);
    forall k | k in r.items ensures r.items[k] in r.elems && r.elems[r.items[k]].key == k {
      assert k in s.items && k != s.elems[h].key && s.elems[s.items[k]].key == k;
    }
  }

  lemma {:induction false} UnlinkedList(s: Shard, h: nat)
    requires s.Valid() && h in s.elems
    ensures var r := Unlinked(s, h);
            Distinct(r.eviction) && |r.eviction| == |s.eviction| - 1 && forall x :: x in r.elems <==> x in r.eviction
  {
    hide Without;
  }

  lemma {:induction false} UnlinkedContents(s: Shard, h: nat)
    requires s.Valid() && h in s.elems && Unlinked(s, h).Valid()
    ensures Unlinked(s, h).Contents() == s.Contents() - {s.elems[h].key}
  {
    hide Without, Distinct;
    var r := Unlinked(s, h);
    forall k | k in r.items ensures r.elems[r.items[k]] == s.elems[s.items[k]] {}
  }

  lemma {:induction false} UnlinkedValid(s: Shard, h: nat)
    requires s.Valid() && h in s.elems
    ensures Unlinked(s, h).Valid()
  {
    hide Without, Distinct;
    UnlinkedElems(s, h);
    UnlinkedItems(s, h);
    UnlinkedList(s, h);
  }

  /** Unlinks an element and deletes its key. */
  function Remove(s: Shard, h: nat): (r: Shard)
    requires s.Valid() && h in s.elems
    ensures r.Valid() && r.Contents() == s.Contents() - {s.elems[h].key}
    ensures |r.eviction| == |s.eviction| - 1
  {
    UnlinkedValid(s, h);
    UnlinkedContents(s, h);
    UnlinkedList(s, h);
    Unlinked(s, h)
  }

  /** Replaces the entry of a resident element in place. */
  function Assign(s: Shard, h: nat, e: Entry): (r: Shard)
    requires s.Valid() && h in s.elems
    ensures r.Valid() && r.Contents() == s.Contents()[s.elems[h].key := e]
  {
    s.(elems := s.elems[h := s.elems[h].(entry := e)])
  }

  /** The shard with one more element in front, before anything is known of it. */
  function Pushed(s: Shard, key: string, e: Entry): (r: Shard) {
    Shard(s.items[key := s.nextHandle], [s.nextHandle] + s.eviction, s.elems[s.nextHandle := Item(key, e)],
          s.nextHandle + 1, s.cap)
  }

  lemma {:induction false} PushedList(s: Shard, key: string, e: Entry)
    requires s.Valid()
    ensures var r := Pushed(s, key, e); Distinct(r.eviction) && forall x :: x in r.elems <==> x in r.eviction
  {
    var r, h := Pushed(s, key, e), s.nextHandle;
    assert h !in s.elems && h !in s.eviction;
    DistinctCons(h, s.eviction);
    hide Distinct;
    forall x ensures x in r.elems <==> x in r.eviction {
      assert x in r.eviction <==> x == h || x in s.eviction;
    }
  }

  lemma {:induction false} PushedElems(s: Shard, key: string, e: Entry)
    requires s.Valid() && key !in s.items
    ensures var r := Pushed(s, key, e);
            forall x :: x in r.elems ==> x < r.nextHandle && r.elems[x].key in r.items && r.items[r.elems[x].key] == x
  {
    hide Distinct;
  }

  lemma {:induction false} PushedItems(s: Shard, key: string, e: Entry)
    requires s.Valid() && key !in s.items
    ensures var r := Pushed(s, key, e);
            forall k :: k in r.items ==> r.items[k] in r.elems && r.elems[r.items[k]].key == k
  {
    hide Distinct;
  }

  lemma {:induction false} PushedValid(s: Shard, key: string, e: Entry)
    requires s.Valid() && key !in s.items && |s.eviction| < s.cap
    ensures Pushed(s, key, e).Valid()
  {
    hide Distinct;
    PushedList(s, key, e);
    PushedElems(s, key, e);
    PushedItems(s, key, e);
  }

  lemma {:induction false} PushedContents(s: Shard, key: string, e: Entry)
    requires s.Valid() && key !in s.items && Pushed(s, key, e).Valid()
    ensures Pushed(s, key, e).Contents() == s.Contents()[key := e]
  {
    hide Distinct;
    var r := Pushed(s, key, e);
    forall k | k in s.items ensures r.elems[r.items[k]] == s.elems[s.items[k]] {
      assert s.items[k] != s.nextHandle;
    }
  }

  function PushFront(s: Shard, key: string, e: Entry): (r: Shard)
    requires s.Valid() && key !in s.items && |s.eviction| < s.cap
    ensures r.Valid() && r.Contents() == s.Contents()[key := e]
  {
    PushedValid(s, key, e);
    PushedContents(s, key, e);
    Pushed(s, key, e)
  }

  function Victim(s: Shard): (r: nat)
    requires s.Valid() && s.eviction != []
    ensures r in s.elems
  {
    s.eviction[|s.eviction| - 1]
  }

  lemma {:induction false} DistinctCons(h: nat, s: seq<nat>)
    requires Distinct(s) && h !in s
    ensures Distinct([h] + s)
  {
    var r := [h] + s;
    forall i, j | 0 <= i < j < |r|
      ensures r[i] != r[j]
    {
      assert r[j] == s[j - 1];
    }
  }

  ghost function Members(s: seq<nat>): (r: set<nat>)
    ensures forall h :: h in r <==> h in s
    ensures Distinct(s) ==> |r| == |s|
  {
    if s == [] then {}
    else
      var rest := Members(s[1..]);
      assert Distinct(s) ==> Distinct(s[1..]) && s[0] !in s[1..];
      assert forall h :: h in s <==> h == s[0] || h in s[1..];
      {s[0]} + rest
  }

  /** The number of keys equals the length of the eviction list, so `Len` never exceeds the capacity. */
  lemma {:induction false} LenWithinCapacity(s: Shard)
    requires s.Valid()
    ensures |s.items| == |s.eviction| <= s.cap
  {
    assert Members(s.eviction) == s.elems.Keys;
    KeysMatchElems(s.items, s.elems);
  }

  lemma {:induction false} KeysMatchElems(items: map<string, nat>, elems: map<nat, Item>)
    requires forall h :: h in elems ==> elems[h].key in items && items[elems[h].key] == h
    requires forall k :: k in items ==> items[k] in elems && elems[items[k]].key == k
    ensures |items| == |elems.Keys|
    decreases |items|
  {
    if items.Keys == {} {
      assert elems.Keys == {};
      assert |items| == 0 by { assert items == map[]; }
    } else {
      var k :| k in items;
      var h := items[k];
      KeysMatchElems(items - {k}, elems - {h});
      assert (items - {k}).Keys == items.Keys - {k};
      assert (elems - {h}).Keys == elems.Keys - {h};
      assert |items.Keys| == |items|;
      assert |(items - {k}).Keys| == |items - {k}|;
    }
  }
}
