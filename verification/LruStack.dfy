/** Recency lists of any capacity, and what they have in common. */
module RecencyStack {
  import opened Lists
  import opened Types

  /** `l` without `k`. */
  function Less(l: seq<Key>, k: Key): seq<Key> {
    if l == [] then [] else if l[0] == k then Less(l[1..], k) else [l[0]] + Less(l[1..], k)
  }

  /** What a reference to `k` does to a recency list that may hold `capacity` keys. */
  function Touched(l: seq<Key>, k: Key, capacity: nat): seq<Key>
    requires capacity > 0
  {
    if k in l then [k] + Less(l, k)
    else if |l| >= capacity then [k] + l[..|l| - 1]
    else [k] + l
  }

  function Stack(trace: seq<Key>, capacity: nat): seq<Key>
    requires capacity > 0
  {
    if trace == [] then [] else Touched(Stack(trace[..|trace| - 1], capacity), trace[|trace| - 1], capacity)
  }

  function Hits(trace: seq<Key>, capacity: nat): nat
    requires capacity > 0
  {
    if trace == [] then 0 else
      var before, k := trace[..|trace| - 1], trace[|trace| - 1];
      Hits(before, capacity) + (if k in Stack(before, capacity) then 1 else 0)
  }

  /** All keys of a trace, the most recently used first. */
  function MostRecent(trace: seq<Key>): seq<Key> {
    if trace == [] then [] else [trace[|trace| - 1]] + Less(MostRecent(trace[..|trace| - 1]), trace[|trace| - 1])
  }

  lemma {:induction false} LessMembers(l: seq<Key>, k: Key)
    ensures forall x :: x in Less(l, k) <==> x in l && x != k
    ensures k !in l ==> Less(l, k) == l
  {
    if l != [] {
      LessMembers(l[1..], k);
      assert l == [l[0]] + l[1..];
    }
  }

  lemma {:induction false} LessAt(l: seq<Key>, i: nat)
    requires NoDup(l) && i < |l|
    ensures Less(l, l[i]) == l[..i] + l[i + 1..]
  {
    if i == 0 {
      assert l[0] !in l[1..];
      LessMembers(l[1..], l[0]);
    } else {
      assert l[0] != l[i] && l[1..][i - 1] == l[i];
      LessAt(l[1..], i - 1);
      assert l[..i] + l[i + 1..] == [l[0]] + (l[1..][..i - 1] + l[1..][i..]);
    }
  }

  /** Bringing a key to the front of a list repeats nothing. */
  lemma FrontOnce(l: seq<Key>, k: Key)
    requires NoDup(l)
    ensures NoDup([k] + Less(l, k))
  {
    LessMembers(l, k);
    if k in l {
      var i :| 0 <= i < |l| && l[i] == k;
      LessAt(l, i);
    }
  }

  lemma {:induction false} MostRecentOnce(trace: seq<Key>)
    ensures NoDup(MostRecent(trace))
    ensures forall k :: k in MostRecent(trace) <==> k in trace
  {
    hide NoDup, Less;
    if trace == [] {
      NothingTwice();
    } else {
      var before, k := trace[..|trace| - 1], trace[|trace| - 1];
      MostRecentOnce(before);
      assert trace == before + [k];
      LessMembers(MostRecent(before), k);
      FrontOnce(MostRecent(before), k);
    }
  }

  lemma NothingTwice()
    ensures NoDup<Key>([])
  {
  }

  lemma PrefixAt(all: seq<Key>, i: nat, n: nat)
    requires NoDup(all) && i < |all| && n <= |all|
    ensures all[i] in all[..n] <==> i < n
    ensures i < n ==> Less(all[..n], all[i]) == all[..i] + all[i + 1..n]
  {
    if i < n {
      LessAt(all[..n], i);
      assert all[..n][..i] == all[..i] && all[..n][i + 1..] == all[i + 1..n];
    }
  }

  /** A reference does the same to a prefix of a recency list as to the whole of it. */
  lemma TouchedPrefix(all: seq<Key>, k: Key, capacity: nat)
    requires NoDup(all) && capacity > 0
    ensures var l := all[..Min(capacity, |all|)];
            var after := [k] + Less(all, k);
            Touched(l, k, capacity) == after[..Min(capacity, |after|)]
  {
    hide Less, NoDup;
    var n := Min(capacity, |all|);
    LessMembers(all, k);
    if k in all {
      var i :| 0 <= i < |all| && all[i] == k;
      LessAt(all, i);
      PrefixAt(all, i, n);
      if i < n {
        assert [k] + (all[..i] + all[i + 1..n]) == ([k] + (all[..i] + all[i + 1..]))[..n];
      } else {
        assert [k] + all[..n][..n - 1] == ([k] + (all[..i] + all[i + 1..]))[..n];
      }
    } else if capacity <= |all| {
      assert [k] + all[..n][..n - 1] == ([k] + all)[..n];
    } else {
      assert all[..n] == all;
    }
  }

  /** With capacity C the list holds the C most recently used keys, or all keys there are. */
  lemma {:induction false} StackIsMostRecent(trace: seq<Key>, capacity: nat)
    requires capacity > 0
    ensures Stack(trace, capacity) == MostRecent(trace)[..Min(capacity, |MostRecent(trace)|)]
  {
    if trace != [] {
      var before := trace[..|trace| - 1];
      StackIsMostRecent(before, capacity);
      MostRecentOnce(before);
      TouchedPrefix(MostRecent(before), trace[|trace| - 1], capacity);
    }
  }

  /** The list at a smaller capacity is a prefix of the list at a larger one. */
  lemma Inclusion(trace: seq<Key>, capacity: nat, larger: nat)
    requires 0 < capacity <= larger
    ensures Stack(trace, capacity) <= Stack(trace, larger)
  {
    StackIsMostRecent(trace, capacity);
    StackIsMostRecent(trace, larger);
  }

  /** More room never costs a hit. */
  lemma {:induction false} HitsGrow(trace: seq<Key>, capacity: nat, larger: nat)
    requires 0 < capacity <= larger
    ensures Hits(trace, capacity) <= Hits(trace, larger)
  {
    if trace != [] {
      var before := trace[..|trace| - 1];
      HitsGrow(before, capacity, larger);
      Inclusion(before, capacity, larger);
    }
  }

  /** The position of the last use of `k`. */
  ghost function LastUse(trace: seq<Key>, k: Key): (i: nat)
    requires k in trace
    ensures i < |trace| && trace[i] == k && forall j :: i < j < |trace| ==> trace[j] != k
  {
    if trace[|trace| - 1] == k then |trace| - 1 else
      assert trace == trace[..|trace| - 1] + [trace[|trace| - 1]];
      LastUse(trace[..|trace| - 1], k)
  }

  /** Taking a key out keeps the others in order. */
  lemma {:induction false} LessOrder(l: seq<Key>, k: Key, i: nat, j: nat) returns (a: nat, b: nat)
    requires i <= j < |Less(l, k)|
    ensures a <= b < |l| && l[a] == Less(l, k)[i] && l[b] == Less(l, k)[j] && l[a] != k && l[b] != k
    ensures i < j ==> a < b
  {
    if l[0] == k {
      a, b := LessOrder(l[1..], k, i, j);
      a, b := a + 1, b + 1;
    } else if j == 0 {
      a, b := 0, 0;
    } else if i == 0 {
      a, b := LessOrder(l[1..], k, j - 1, j - 1);
      a, b := 0, b + 1;
    } else {
      a, b := LessOrder(l[1..], k, i - 1, j - 1);
      a, b := a + 1, b + 1;
    }
  }

  lemma LastUseBefore(trace: seq<Key>, x: Key)
    requires trace != [] && x in trace[..|trace| - 1] && x != trace[|trace| - 1]
    ensures x in trace && LastUse(trace, x) == LastUse(trace[..|trace| - 1], x)
  {
    assert trace == trace[..|trace| - 1] + [trace[|trace| - 1]];
  }

  /** Keys are listed by their last use, the latest first. */
  lemma {:induction false} OrderedByLastUse(trace: seq<Key>, i: nat, j: nat)
    requires i < j < |MostRecent(trace)|
    ensures MostRecent(trace)[i] in trace && MostRecent(trace)[j] in trace
    ensures LastUse(trace, MostRecent(trace)[i]) > LastUse(trace, MostRecent(trace)[j])
  {
    hide LastUse, Less, NoDup;
    var before, k := trace[..|trace| - 1], trace[|trace| - 1];
    var l := MostRecent(before);
    MostRecentOnce(before);
    var a, b := LessOrder(l, k, if i > 0 then i - 1 else j - 1, j - 1);
    LastUseBefore(trace, l[b]);
    if i > 0 {
      LastUseBefore(trace, l[a]);
      OrderedByLastUse(before, a, b);
    } else {
      assert trace[|trace| - 1] == k;
    }
  }
}

/** The hit-ratio trace driver: a lookup, then an insertion if that missed. */
module TracePolicy {
  import opened Types
  import opened Deadlines
  import opened SegmentModel
  import opened Routing
  import opened SegmentedStorage
  import opened LockPlans
  import opened Drains
  import opened Mutations
  import opened RecencyStack

  ghost function KeysOf(s: seq<Item>): seq<Key> {
    seq(|s|, i requires 0 <= i < |s| => s[i].key)
  }

  /** Every key has been stored with itself as its value, for good. */
  ghost predicate Plain(s: seq<Item>, encode: Key -> Value) {
    forall i :: 0 <= i < |s| ==> s[i] == Item(s[i].key, encode(s[i].key), 0, 0)
  }

  lemma {:induction false} KeysLess(s: seq<Item>, k: Key)
    ensures KeysOf(Without(s, {k})) == Less(KeysOf(s), k)
  {
    if s != [] {
      KeysLess(s[1..], k);
      assert KeysOf(s)[1..] == KeysOf(s[1..]);
      if s[0].key == k {
      } else {
        assert KeysOf([s[0]] + Without(s[1..], {k})) == [s[0].key] + KeysOf(Without(s[1..], {k}));
      }
    }
  }

  /** On plain items, a lookup followed by an insertion if it missed is a reference to the recency list. */
  lemma RecordIsTouch(s: seq<Item>, k: Key, now: Nanos, sliding: bool, capacity: nat, encode: Key -> Value)
    requires Distinct(s) && Plain(s, encode) && 0 < capacity && |s| <= capacity
    ensures var got := AfterGet(s, k, now, sliding);
            var after := if got.found.Some? then got else AfterSet(got.items, k, encode(k), 0, 0, capacity);
            && (got.found.Some? <==> k in KeysOf(s))
            && (got.found.Some? ==> got.found.value.value == encode(k))
            && KeysOf(after.items) == Touched(KeysOf(s), k, capacity)
            && Plain(after.items, encode) && got.expired == 0
  {
    hide Touched;
    FoundNone(s, k);
    MembersOf(s, k);
    KeysLess(s, k);
    match Found(s, k)
    case Some(it) =>
      var i :| 0 <= i < |s| && s[i] == it;
      assert it == Item(k, encode(k), 0, 0);
      WithoutMembers(s, {k});
      HitIsTouch(s, it, now, capacity, encode);
    case None =>
      MissIsTouch(s, k, capacity, encode);
  }

  lemma MembersOf(s: seq<Item>, k: Key)
    ensures k in Keys(s) <==> k in KeysOf(s)
  {
    if k in Keys(s) {
      var it :| it in s && it.key == k;
      var i :| 0 <= i < |s| && s[i] == it;
      assert KeysOf(s)[i] == k;
    }
    if k in KeysOf(s) {
      var i :| 0 <= i < |s| && KeysOf(s)[i] == k;
      assert s[i] in s;
    }
  }

  lemma HitIsTouch(s: seq<Item>, it: Item, now: Nanos, capacity: nat, encode: Key -> Value)
    requires Plain(s, encode) && capacity > 0 && it.key in KeysOf(s) && it == Item(it.key, encode(it.key), 0, 0)
    ensures KeysOf(Front(s, it)) == Touched(KeysOf(s), it.key, capacity) && Plain(Front(s, it), encode)
    ensures Refreshed(it, now) == it
  {
    KeysLess(s, it.key);
    WithoutMembers(s, {it.key});
    var rest := Without(s, {it.key});
    forall i | 0 <= i < |rest| ensures rest[i] == Item(rest[i].key, encode(rest[i].key), 0, 0) {
      assert rest[i] in s;
    }
  }

  lemma MissIsTouch(s: seq<Item>, k: Key, capacity: nat, encode: Key -> Value)
    requires Plain(s, encode) && 0 < capacity && |s| <= capacity && k !in KeysOf(s) && Found(s, k).None?
    ensures var after := AfterSet(s, k, encode(k), 0, 0, capacity).items;
            KeysOf(after) == Touched(KeysOf(s), k, capacity) && Plain(after, encode)
  {
    hide Found, Less;
    var it := Item(k, encode(k), 0, 0);
    var kept := if |s| >= capacity then s[..|s| - 1] else s;
    assert |s| >= capacity ==> KeysOf(kept) == KeysOf(s)[..|s| - 1];
    KeysCons(it, kept);
    PlainCons(it, kept, encode);
  }

  lemma KeysCons(it: Item, s: seq<Item>)
    ensures KeysOf([it] + s) == [it.key] + KeysOf(s)
  {
  }

  lemma PlainCons(it: Item, s: seq<Item>, encode: Key -> Value)
    requires Plain(s, encode) && it == Item(it.key, encode(it.key), 0, 0)
    ensures Plain([it] + s, encode)
  {
  }

  // ---------------------------------------------------------------- many segments

  /** The references of a trace that are routed to segment `i`. */
  ghost function Part(trace: seq<Key>, route: Router, i: nat): seq<Key> {
    if trace == [] then [] else
      var before, k := trace[..|trace| - 1], trace[|trace| - 1];
      Part(before, route, i) + (if route(k) == i then [k] else [])
  }

  /** How many references find their key in the list of the segment it is routed to. */
  ghost function RoutedHits(trace: seq<Key>, route: Router, maxEntries: nat, n: nat): nat
    requires 0 < n <= maxEntries && forall k :: route(k) < n
  {
    if trace == [] then 0 else
      var before, k := trace[..|trace| - 1], trace[|trace| - 1];
      RoutedHits(before, route, maxEntries, n) + (if k in ListOf(before, route, maxEntries, n, route(k)) then 1 else 0)
  }

  /** The recency list of segment `i`. */
  ghost function ListOf(trace: seq<Key>, route: Router, maxEntries: nat, n: nat, i: nat): seq<Key>
    requires i < n <= maxEntries
  {
    Stack(Part(trace, route, i), Capacity(maxEntries, n, i))
  }

  ghost function Capacity(maxEntries: nat, n: nat, i: nat): (capacity: nat)
    requires i < n <= maxEntries
    ensures capacity > 0
  {
    ShareOfAll(maxEntries, n, i);
    Share(maxEntries, n, i)
  }

  lemma ShareOfAll(maxEntries: nat, n: nat, i: nat)
    requires i < n <= maxEntries
    ensures Share(maxEntries, n, i) > 0
  {
    assert maxEntries / n >= 1;
  }

  lemma NotPositive(x: int, n: nat)
    requires x <= 0
    ensures x * n <= 0
  {
  }

  /** With more entries in all, no segment gets fewer. */
  lemma ShareGrows(maxEntries: nat, larger: nat, n: nat, i: nat)
    requires i < n <= maxEntries <= larger
    ensures Capacity(maxEntries, n, i) <= Capacity(larger, n, i)
  {
    DivMod(maxEntries, n);
    DivMod(larger, n);
    var x := larger / n + 1 - maxEntries / n;
    assert x * n == (larger / n) * n + n - (maxEntries / n) * n;
    assert x * n > 0;
    if x <= 0 {
      NotPositive(x, n);
    }
  }

  /** With the same routing, more room never costs a hit in any segment. */
  lemma {:induction false} RoutedHitsGrow(trace: seq<Key>, route: Router, maxEntries: nat, larger: nat, n: nat)
    requires 0 < n <= maxEntries <= larger && forall k :: route(k) < n
    ensures RoutedHits(trace, route, maxEntries, n) <= RoutedHits(trace, route, larger, n)
    ensures forall i: nat :: i < n ==> ListOf(trace, route, maxEntries, n, i) <= ListOf(trace, route, larger, n, i)
  {
    hide Capacity, Stack;
    forall i: nat | i < n ensures ListOf(trace, route, maxEntries, n, i) <= ListOf(trace, route, larger, n, i) {
      ShareGrows(maxEntries, larger, n, i);
      Inclusion(Part(trace, route, i), Capacity(maxEntries, n, i), Capacity(larger, n, i));
    }
    if trace != [] {
      RoutedHitsGrow(trace[..|trace| - 1], route, maxEntries, larger, n);
    }
  }

  ghost function PartHits(trace: seq<Key>, route: Router, maxEntries: nat, n: nat, m: nat): nat
    requires m <= n <= maxEntries
  {
    if m == 0 then 0 else
      PartHits(trace, route, maxEntries, n, m - 1) + Hits(Part(trace, route, m - 1), Capacity(maxEntries, n, m - 1))
  }

  lemma {:induction false} OneMoreReference(trace: seq<Key>, k: Key, route: Router, maxEntries: nat, n: nat, m: nat)
    requires m <= n <= maxEntries && route(k) < n
    ensures PartHits(trace + [k], route, maxEntries, n, m) ==
              PartHits(trace, route, maxEntries, n, m)
              + (if route(k) < m && k in ListOf(trace, route, maxEntries, n, route(k)) then 1 else 0)
  {
    hide Capacity, Stack, Part, Hits;
    if m > 0 {
      OneMoreReference(trace, k, route, maxEntries, n, m - 1);
      PartGrows(trace, k, route, m - 1);
      Extended(Part(trace, route, m - 1), k, Capacity(maxEntries, n, m - 1));
    }
  }

  lemma PartGrows(trace: seq<Key>, k: Key, route: Router, i: nat)
    ensures Part(trace + [k], route, i) == if route(k) == i then Part(trace, route, i) + [k] else Part(trace, route, i)
  {
    assert (trace + [k])[..|trace|] == trace;
  }

  lemma Extended(t: seq<Key>, k: Key, capacity: nat)
    requires capacity > 0
    ensures Stack(t + [k], capacity) == Touched(Stack(t, capacity), k, capacity)
    ensures Hits(t + [k], capacity) == Hits(t, capacity) + (if k in Stack(t, capacity) then 1 else 0)
  {
    assert (t + [k])[..|t|] == t;
  }

  /** The hits of a segmented cache are those that its segments have on their own parts of the trace. */
  lemma {:induction false} HitsAddUp(trace: seq<Key>, route: Router, maxEntries: nat, n: nat)
    requires 0 < n <= maxEntries && forall k :: route(k) < n
    ensures RoutedHits(trace, route, maxEntries, n) == PartHits(trace, route, maxEntries, n, n)
  {
    if trace == [] {
      NoReferences(route, maxEntries, n, n);
    } else {
      var before, k := trace[..|trace| - 1], trace[|trace| - 1];
      HitsAddUp(before, route, maxEntries, n);
      OneMoreReference(before, k, route, maxEntries, n, n);
      assert trace == before + [k];
    }
  }

  lemma {:induction false} NoReferences(route: Router, maxEntries: nat, n: nat, m: nat)
    requires m <= n <= maxEntries
    ensures PartHits([], route, maxEntries, n, m) == 0
  {
    if m > 0 {
      NoReferences(route, maxEntries, n, m - 1);
    }
  }

  /** Each segment holds the recency list of its part of the trace. */
  ghost predicate HoldsLists(c: Contents, trace: seq<Key>, route: Router, maxEntries: nat, n: nat, encode: Key -> Value)
    requires 0 < n <= maxEntries
  {
    && |c| == n
    && forall i: nat :: i < n ==> Plain(c[i], encode) && KeysOf(c[i]) == ListOf(trace, route, maxEntries, n, i)
  }

  lemma HoldsNothing(c: Contents, route: Router, maxEntries: nat, n: nat, encode: Key -> Value)
    requires 0 < n <= maxEntries && |c| == n && forall i :: 0 <= i < n ==> c[i] == []
    ensures HoldsLists(c, [], route, maxEntries, n, encode)
  {
  }

  /** One more reference, when the segment that it is routed to does with it what its list does. */
  lemma HoldsMore(c: Contents, trace: seq<Key>, k: Key, route: Router, maxEntries: nat, n: nat, encode: Key -> Value,
                  items: seq<Item>)
    requires 0 < n <= maxEntries && HoldsLists(c, trace, route, maxEntries, n, encode) && forall k :: route(k) < n
    requires KeysOf(items) == Touched(KeysOf(c[route(k)]), k, Capacity(maxEntries, n, route(k))) && Plain(items, encode)
    ensures HoldsLists(c[route(k) := items], trace + [k], route, maxEntries, n, encode)
    ensures RoutedHits(trace + [k], route, maxEntries, n) ==
              RoutedHits(trace, route, maxEntries, n) + (if k in KeysOf(c[route(k)]) then 1 else 0)
  {
    hide Capacity, Stack, Part, Hits, Touched, Plain, KeysOf;
    forall i: nat | i < n
      ensures Plain(c[route(k) := items][i], encode)
      ensures KeysOf(c[route(k) := items][i]) == ListOf(trace + [k], route, maxEntries, n, i)
    {
      PartGrows(trace, k, route, i);
      Extended(Part(trace, route, i), k, Capacity(maxEntries, n, i));
    }
    assert (trace + [k])[..|trace|] == trace;
  }

  class Policy {
    const cache: Cache
    const maxEntries: nat
    const encode: Key -> Value
    var hits: nat
    var misses: nat
    ghost var trace: seq<Key>

    ghost function Segments(): nat {
      |cache.store.segments|
    }

    ghost predicate Apart()
      reads cache`calls, cache.store`Repr
    {
      && this !in cache.store.Repr && cache !in cache.store.Repr
    }

    ghost predicate Listed()
      reads this`trace, cache.store`contents
    {
      && 0 < Segments() <= maxEntries
      && HoldsLists(cache.store.contents, trace, cache.Router(), maxEntries, Segments(), encode)
      && forall i: nat :: i < Segments() ==> cache.store.segments[i].maxEntries == Capacity(maxEntries, Segments(), i)
    }

    ghost predicate Valid()
      reads this, cache, cache.store, cache.store.Repr, cache.store.segments, cache.groups, cache.calls
    {
      && cache.Valid() && cache.held == cache.shared == {} && Apart() && Listed()
      && hits == RoutedHits(trace, cache.Router(), maxEntries, Segments())
      && hits + misses == |trace|
    }

    constructor (maxEntries: nat, segmentCount: nat, resolution: Int64, hash: Key -> nat, encode: Key -> Value)
      requires 0 < segmentCount <= maxEntries && resolution > 0
      ensures Valid() && trace == [] && this.maxEntries == maxEntries && Segments() == segmentCount
      ensures cache.hash == hash
    {
      hide Cache.Valid;
      var c := new Cache(maxEntries, segmentCount, resolution, false, hash, NO_EXPIRATION, 0);
      cache := c;
      this.maxEntries, this.encode := maxEntries, encode;
      hits, misses, trace := 0, 0, [];
      new;
      HoldsNothing(c.store.contents, c.Router(), maxEntries, segmentCount, encode);
    }

    method Record(key: Key, now: Nanos, draw: Int64 -> Int64)
      requires Valid() && IsDraw(draw)
      modifies this, cache, cache.groups, cache.calls, cache.store, cache.store.Repr
      ensures Valid() && trace == old(trace) + [key]
    {
      hide Cache.Valid, AfterGet, AfterSet, Touched, Plain, HoldsLists, KeysOf, RoutedHits, Capacity, EffectiveTTL;
      ghost var c, route, i := cache.store.contents, cache.Router(), cache.Router()(key);
      cache.SegmentOf(key);
      ghost var sliding, capacity := cache.store.segments[i].slidingExpiration, cache.store.segments[i].maxEntries;
      InSegment(key);
      RecordIsTouch(c[i], key, now, sliding, capacity, encode);
      ghost var got := AfterGet(c[i], key, now, sliding);
      ghost var items :=
        if got.found.Some? then got.items else AfterSet(got.items, key, encode(key), 0, 0, capacity).items;
      HoldsMore(c, trace, key, route, maxEntries, Segments(), encode, items);
      var found := cache.Get(key, now);
      if found.Some? {
        if found.value.value != encode(key) {
          assert false; // a key is only ever stored with itself as its value
        }
        hits := hits + 1;
      } else {
        cache.Set(key, encode(key), NO_EXPIRATION, now, draw);
        misses := misses + 1;
      }
      trace := trace + [key];
      assert cache.store.contents == c[i := items];
    }

    lemma InSegment(key: Key)
      requires Listed()
      ensures var i := cache.Router()(key);
              && i < Segments() == |cache.store.contents| && Plain(cache.store.contents[i], encode)
              && cache.store.segments[i].maxEntries == Capacity(maxEntries, Segments(), i)
    {
      hide Capacity, Plain;
    }
  }

  /**
   * Of two drivers fed the same trace through the same routing, the one with more room has at least as many hits, and
   * in every segment the other's keys in front.
   */
  lemma MoreRoomMoreHits(small: Policy, large: Policy)
    requires small.Valid() && large.Valid() && small.trace == large.trace
    requires small.Segments() == large.Segments() && small.cache.hash == large.cache.hash
    requires small.maxEntries <= large.maxEntries
    ensures small.hits <= large.hits && large.misses <= small.misses
    ensures forall i: nat :: i < small.Segments() ==>
              KeysOf(small.cache.store.contents[i]) <= KeysOf(large.cache.store.contents[i])
  {
    hide Cache.Valid, RoutedHits, ListOf, Plain;
    RoutedHitsGrow(small.trace, small.cache.Router(), small.maxEntries, large.maxEntries, small.Segments());
  }
}
