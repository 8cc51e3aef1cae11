/** Routing of keys to segments. */
module Routing {

  /** The bits that two numbers have in common. */
  function BitAnd(a: nat, b: nat): nat {
    if a == 0 || b == 0 then 0 else 2 * BitAnd(a / 2, b / 2) + (a % 2) * (b % 2)
  }

  /** The mask by which a segment count is applied to a hash: zero when there is none. */
  function Mask(segmentCount: nat): nat
    requires segmentCount > 0
  {
    if BitAnd(segmentCount, segmentCount - 1) == 0 then segmentCount - 1 else 0
  }

  function SegmentIndex(hash: nat, segmentCount: nat, mask: nat): nat
    requires segmentCount > 0
  {
    if segmentCount == 1 then 0 else if mask != 0 then BitAnd(hash, mask) else hash % segmentCount
  }

  lemma {:induction false} BitAndSelf(a: nat)
    ensures BitAnd(a, a) == a
  {
    if a > 0 {
      BitAndSelf(a / 2);
      assert (a % 2) * (a % 2) == a % 2 by {
        assert a % 2 == 0 || a % 2 == 1;
      }
      assert a == 2 * (a / 2) + a % 2;
    }
  }

  /** A number and its predecessor share no bit only if the predecessor is a mask for remainders. */
  lemma {:induction false} MaskIsRemainder(hash: nat, n: nat)
    requires n > 0 && BitAnd(n, n - 1) == 0
    ensures BitAnd(hash, n - 1) == hash % n
  {
    if n == 1 {
    } else if n % 2 == 1 {
      BitAndSelf(n / 2);
    } else {
      MaskIsRemainder(hash / 2, n / 2);
      HalvedRemainder(hash, n / 2);
    }
  }

  lemma HalvedRemainder(a: nat, m: nat)
    requires m > 0
    ensures a % (2 * m) == 2 * ((a / 2) % m) + a % 2
  {
    var q := (a / 2) / m;
    DivMod(a / 2, m);
    assert q * (2 * m) == 2 * (q * m);
    RemainderIsUnique(a, 2 * m, q, 2 * ((a / 2) % m) + a % 2);
  }

  lemma DivMod(a: nat, n: nat)
    requires n > 0
    ensures a == (a / n) * n + a % n && a % n < n
  {
  }

  lemma RemainderIsUnique(a: nat, n: nat, q: nat, r: nat)
    requires n > 0 && r < n && a == q * n + r
    ensures a % n == r
  {
    DivMod(a, n);
    Multiples(q, a / n, n);
  }

  /** Distinct multiples of n are at least n apart. */
  lemma Multiples(p: int, q: int, n: nat)
    ensures p > q ==> p * n >= q * n + n
    ensures q > p ==> q * n >= p * n + n
  {
    if p > q {
      AtLeastOnce(p - q, n);
      assert p * n == (p - q) * n + q * n;
    } else if q > p {
      AtLeastOnce(q - p, n);
      assert q * n == (q - p) * n + p * n;
    }
  }

  lemma {:induction false} AtLeastOnce(d: nat, n: nat)
    requires d >= 1
    ensures d * n >= n
  {
    if d > 1 {
      AtLeastOnce(d - 1, n);
      assert d * n == (d - 1) * n + n;
    }
  }

  /** Every hash is routed to its remainder, through the mask or not. */
  lemma RouteIsRemainder(hash: nat, segmentCount: nat)
    requires segmentCount > 0
    ensures SegmentIndex(hash, segmentCount, Mask(segmentCount)) == hash % segmentCount < segmentCount
  {
    if BitAnd(segmentCount, segmentCount - 1) == 0 {
      MaskIsRemainder(hash, segmentCount);
    }
  }
}

/** The segments of a cache, and the operations that go through all of them. */
module SegmentedStorage {
  import opened Types
  import opened Deadlines
  import opened SegmentModel
  import opened Segments
  import opened Balances
  import opened Drains

  /** The share of segment `index` in the entry budget. */
  function Share(maxEntries: nat, segmentCount: nat, index: nat): nat
    requires segmentCount > 0
  {
    maxEntries / segmentCount + (if index < maxEntries % segmentCount then 1 else 0)
  }

  lemma BaseShare(maxEntries: nat, segmentCount: nat)
    requires 0 < segmentCount <= maxEntries
    ensures maxEntries / segmentCount >= 1
    ensures forall index: nat :: Share(maxEntries, segmentCount, index) ==
              maxEntries / segmentCount + (if index < maxEntries % segmentCount then 1 else 0)
  {
  }

  function TotalShare(maxEntries: nat, segmentCount: nat, n: nat): nat
    requires segmentCount > 0
  {
    if n == 0 then 0 else TotalShare(maxEntries, segmentCount, n - 1) + Share(maxEntries, segmentCount, n - 1)
  }

  lemma {:induction false} SharesSoFar(maxEntries: nat, segmentCount: nat, n: nat)
    requires segmentCount > 0
    ensures TotalShare(maxEntries, segmentCount, n) ==
              n * (maxEntries / segmentCount) + Min(n, maxEntries % segmentCount)
  {
    if n > 0 {
      SharesSoFar(maxEntries, segmentCount, n - 1);
      assert n * (maxEntries / segmentCount) == (n - 1) * (maxEntries / segmentCount) + maxEntries / segmentCount;
    }
  }

  /** The shares add up to the budget, differ by at most one, and are positive when there are enough entries. */
  lemma SharesAddUp(maxEntries: nat, segmentCount: nat)
    requires 0 < segmentCount <= maxEntries
    ensures TotalShare(maxEntries, segmentCount, segmentCount) == maxEntries
    ensures forall i, j :: 0 <= i < j < segmentCount ==>
              && 0 < Share(maxEntries, segmentCount, j) <= Share(maxEntries, segmentCount, i)
              && Share(maxEntries, segmentCount, i) <= Share(maxEntries, segmentCount, j) + 1
  {
    SharesSoFar(maxEntries, segmentCount, segmentCount);
    assert maxEntries / segmentCount >= 1;
  }

  ghost function TotalItems(c: Contents, n: nat): nat
    requires n <= |c|
  {
    if n == 0 then 0 else TotalItems(c, n - 1) + |c[n - 1]|
  }

  lemma {:induction false} TotalUpdate(c: Contents, n: nat, index: nat, s: seq<Item>)
    requires n <= |c| && index < |c|
    ensures TotalItems(c[index := s], n) == TotalItems(c, n) + (if index < n then |s| - |c[index]| else 0)
  {
    if n > 0 {
      TotalUpdate(c, n - 1, index, s);
    }
  }

  /** The counters that a segment keeps of the entries it gives up by itself. */
  datatype Counts = Counts(evictions: nat, expirations: nat)

  ghost function Expiring(c: Counts, n: nat): Counts {
    Counts(c.evictions, c.expirations + n)
  }

  ghost function Leaving(c: Counts, change: Change): Counts {
    Counts(c.evictions + change.evicted, c.expirations + change.expired)
  }

  lemma NothingExpires(s: seq<Item>, k: Key, v: Value, ttl: Nanos, deadline: Nanos, capacity: nat)
    ensures AfterSet(s, k, v, ttl, deadline, capacity).expired == 0
  {
  }

  ghost function TotalEvicted(counts: seq<Counts>): nat {
    if counts == [] then 0 else TotalEvicted(counts[..|counts| - 1]) + counts[|counts| - 1].evictions
  }

  ghost function TotalExpired(counts: seq<Counts>): nat {
    if counts == [] then 0 else TotalExpired(counts[..|counts| - 1]) + counts[|counts| - 1].expirations
  }

  lemma {:induction false} CountsUpdate(counts: seq<Counts>, index: nat, c: Counts)
    requires index < |counts|
    ensures TotalEvicted(counts[index := c]) == TotalEvicted(counts) - counts[index].evictions + c.evictions
    ensures TotalExpired(counts[index := c]) == TotalExpired(counts) - counts[index].expirations + c.expirations
  {
    var n := |counts| - 1;
    if index < n {
      assert counts[index := c][..n] == counts[..n][index := c];
      CountsUpdate(counts[..n], index, c);
    } else {
      assert counts[index := c][..n] == counts[..n];
    }
  }

  lemma {:induction false} NothingCounted(counts: seq<Counts>)
    requires forall i :: 0 <= i < |counts| ==> counts[i] == Counts(0, 0)
    ensures TotalEvicted(counts) == TotalExpired(counts) == 0
  {
    if counts != [] {
      NothingCounted(counts[..|counts| - 1]);
    }
  }

  /** The entries that are in the segments, or have left them by eviction or expiration. */
  ghost function Passed(c: Contents, counts: seq<Counts>): nat {
    TotalItems(c, |c|) + TotalEvicted(counts) + TotalExpired(counts)
  }

  /** A change to one segment changes the total by what it changes there. */
  lemma PassedUpdate(c: Contents, counts: seq<Counts>, index: nat, s: seq<Item>, n: Counts)
    requires index < |c| == |counts|
    ensures Passed(c[index := s], counts[index := n]) ==
              Passed(c, counts) - |c[index]| - counts[index].evictions - counts[index].expirations
              + |s| + n.evictions + n.expirations
  {
    TotalUpdate(c, |c|, index, s);
    CountsUpdate(counts, index, n);
  }

  lemma {:induction false} NothingHeld(c: Contents, n: nat)
    requires n <= |c| && forall i :: 0 <= i < |c| ==> c[i] == []
    ensures TotalItems(c, n) == 0
  {
    if n > 0 {
      NothingHeld(c, n - 1);
    }
  }

  /** The counters as the segments keep them. */
  ghost function EvictionsOf(stats: seq<SegmentStats>): nat
    reads stats
  {
    if stats == [] then 0 else EvictionsOf(stats[..|stats| - 1]) + stats[|stats| - 1].evictionCount
  }

  ghost function ExpirationsOf(stats: seq<SegmentStats>): nat
    reads stats
  {
    if stats == [] then 0 else ExpirationsOf(stats[..|stats| - 1]) + stats[|stats| - 1].expirationCount
  }

  lemma {:induction false} CountsAreKept(stats: seq<SegmentStats>, counts: seq<Counts>)
    requires |stats| == |counts|
    requires forall i :: 0 <= i < |stats| ==>
               stats[i].evictionCount == counts[i].evictions && stats[i].expirationCount == counts[i].expirations
    ensures EvictionsOf(stats) == TotalEvicted(counts) && ExpirationsOf(stats) == TotalExpired(counts)
  {
    if stats != [] {
      CountsAreKept(stats[..|stats| - 1], counts[..|counts| - 1]);
    }
  }

  class Store {
    const segments: seq<Segment>
    const stats: seq<SegmentStats>
    const resolution: Int64

    // What each segment holds and has counted, and every object of the store but itself.
    ghost var contents: Contents
    ghost var counts: seq<Counts>
    ghost var Repr: set<object>

    ghost predicate Apart()
      reads this`Repr, segments
    {
      && (forall i :: 0 <= i < |segments| ==> segments[i].Repr <= Repr && segments[i] in segments[i].Repr)
      && (forall i, j {:trigger segments[i], segments[j]} :: 0 <= i < j < |segments| ==>
           segments[i].Repr !! segments[j].Repr)
      && (forall i :: 0 <= i < |stats| ==> stats[i] in Repr)
      && (forall i, j {:trigger stats[i], stats[j]} :: 0 <= i < j < |stats| ==> stats[i] != stats[j])
      && (forall i, j {:trigger stats[i], segments[j]} :: 0 <= i < |stats| && 0 <= j < |segments| ==>
            stats[i] !in segments[j].Repr)
    }

    ghost predicate Valid()
      reads this, Repr, segments
    {
      && this !in Repr
      && |segments| == |stats| == |contents| == |counts| > 0
      && resolution > 0
      && Apart()
      && (forall i :: 0 <= i < |segments| ==>
            segments[i].Valid() && segments[i].items == contents[i] && segments[i].expirations.resolution == resolution)
      && (forall i {:trigger counts[i]} {:trigger stats[i]} :: 0 <= i < |stats| ==>
            stats[i].evictionCount == counts[i].evictions && stats[i].expirationCount == counts[i].expirations)
    }

    constructor (maxEntries: nat, segmentCount: nat, resolution: Int64, slidingExpiration: bool)
      requires 0 < segmentCount <= maxEntries && resolution > 0
      ensures Valid() && fresh(Repr) && |segments| == segmentCount && this.resolution == resolution
      ensures forall i :: 0 <= i < |segments| ==>
                && segments[i].maxEntries == Share(maxEntries, segmentCount, i)
                && segments[i].slidingExpiration == slidingExpiration
                && contents[i] == [] && counts[i] == Counts(0, 0)
      ensures Passed(contents, counts) == 0
    {
      hide Segment.Valid, Share;
      ghost var all;
      var ss, cs;
      ss, cs, all := NewSegments(maxEntries, segmentCount, resolution, slidingExpiration);
      segments, stats, Repr := ss, cs, all;
      contents, counts := seq(segmentCount, _ => []), seq(segmentCount, _ => Counts(0, 0));
      NothingCounted(seq(segmentCount, _ => Counts(0, 0)));
      NothingHeld(seq(segmentCount, _ => []), segmentCount);
      this.resolution := resolution;
    }

    static method NewSegments(maxEntries: nat, segmentCount: nat, resolution: Int64, slidingExpiration: bool)
      returns (ss: seq<Segment>, cs: seq<SegmentStats>, ghost all: set<object>)
      requires 0 < segmentCount <= maxEntries && resolution > 0
      ensures |ss| == |cs| == segmentCount && fresh(all)
      ensures forall i :: 0 <= i < segmentCount ==>
                && ss[i].Valid() && ss[i].items == [] && ss[i].expirations.resolution == resolution
                && ss[i].maxEntries == Share(maxEntries, segmentCount, i)
                && ss[i].slidingExpiration == slidingExpiration
                && ss[i].Repr <= all && ss[i] in ss[i].Repr && cs[i] in all
      ensures forall i :: 0 <= i < segmentCount ==> cs[i].evictionCount == cs[i].expirationCount == 0
      ensures forall i, j {:trigger ss[i], ss[j]} :: 0 <= i < j < segmentCount ==> ss[i].Repr !! ss[j].Repr
      ensures forall i, j {:trigger cs[i], cs[j]} :: 0 <= i < j < segmentCount ==> cs[i] != cs[j]
      ensures forall i, j {:trigger cs[i], ss[j]} :: 0 <= i < segmentCount && 0 <= j < segmentCount ==>
                cs[i] !in ss[j].Repr
    {
      hide Segment.Valid, Share;
      var base, extra := maxEntries / segmentCount, maxEntries % segmentCount;
      BaseShare(maxEntries, segmentCount);
      ss, cs, all := [], [], {};
      for index := 0 to segmentCount
        invariant |ss| == |cs| == index && fresh(all)
        invariant forall i :: 0 <= i < index ==>
                    && ss[i].Valid() && ss[i].items == [] && ss[i].expirations.resolution == resolution
                    && ss[i].maxEntries == Share(maxEntries, segmentCount, i)
                    && ss[i].slidingExpiration == slidingExpiration
                    && ss[i].Repr <= all && ss[i] in ss[i].Repr && cs[i] in all
        invariant forall i :: 0 <= i < index ==> cs[i].evictionCount == cs[i].expirationCount == 0
        invariant forall i, j {:trigger ss[i], ss[j]} :: 0 <= i < j < index ==> ss[i].Repr !! ss[j].Repr
        invariant forall i, j {:trigger cs[i], cs[j]} :: 0 <= i < j < index ==> cs[i] != cs[j]
        invariant forall i, j {:trigger cs[i], ss[j]} :: 0 <= i < index && 0 <= j < index ==> cs[i] !in ss[j].Repr
      {
        var share := base;
        if index < extra {
          share := share + 1;
        }
        var counters := new SegmentStats();
        var segment := new Segment(share, resolution, slidingExpiration);
        ss, cs := ss + [segment], cs + [counters];
        all := all + segment.Repr + {counters};
      }
    }

    /** The objects of a segment are its own, and no segment holds counters. */
    lemma OwnObjects(index: nat)
      requires Apart() && index < |segments| == |stats|
      ensures segments[index].Repr <= Repr && segments[index] in segments[index].Repr && stats[index] in Repr
      ensures forall i :: 0 <= i < |segments| && i != index ==>
                segments[i].Repr <= Repr && segments[i].Repr !! segments[index].Repr && segments[i] in segments[i].Repr
      ensures forall i :: 0 <= i < |segments| ==> stats[index] !in segments[i].Repr
      ensures forall i :: 0 <= i < |stats| ==>
                stats[i] !in segments[index].Repr && (i != index ==> stats[i] != stats[index])
    {
    }

    /** A segment takes only new objects. */
    twostate lemma StillApart(index: nat)
      requires old(Apart()) && index < |segments| && old(Repr) <= Repr
      requires segments[index].Repr <= Repr && segments[index] in segments[index].Repr
      requires fresh(segments[index].Repr - old(segments[index].Repr))
      requires forall i :: 0 <= i < |segments| && i != index ==> segments[i].Repr == old(segments[i].Repr)
      ensures Apart()
    {
    }

    method CleanupExpiredAt(index: nat, now: Nanos, limit: nat)
      returns (removed: nat, pending: bool, ghost gone: set<Key>)
      requires Valid() && index < |segments| && limit > 0
      modifies this, Repr
      ensures Valid() && Repr == old(Repr)
      ensures |contents| == |old(contents)| && contents == old(contents)[index := contents[index]]
      ensures Cleaned(old(contents)[index], contents[index], gone, now, limit, resolution)
      ensures removed == |gone| && pending == (|DueKeys(old(contents)[index], now, resolution)| > limit)
      ensures |counts| == |old(counts)| && counts == old(counts)[index := Expiring(old(counts)[index], removed)]
      ensures TotalExpired(counts) == TotalExpired(old(counts)) + removed &&
                TotalEvicted(counts) == TotalEvicted(old(counts))
      ensures Passed(contents, counts) == Passed(old(contents), old(counts))
    {
      hide Cleaned, DueKeys, Segment.Valid, Apart, Passed;
      OwnObjects(index);
      var segment, counters := segments[index], stats[index];
      segment.StillDistinct();
      removed, pending, gone := segment.CleanupExpired(now, limit, counters);
      CleanedIsReclaimed(contents[index], segment.items, gone, now, limit, resolution);
      CleanupBalance(contents[index], segment.items, gone, now, resolution);
      PassedUpdate(contents, counts, index, segment.items, Expiring(counts[index], removed));
      CountsUpdate(counts, index, Expiring(counts[index], removed));
      contents := contents[index := segment.items];
      counts := counts[index := Expiring(counts[index], removed)];
      StillApart(index);
    }

    method LookupAt(index: nat, key: Key, now: Nanos) returns (found: Option<Item>)
      requires Valid() && index < |segments|
      modifies this, Repr
      ensures Valid() && old(Repr) <= Repr && fresh(Repr - old(Repr))
      ensures |contents| == |old(contents)|
      ensures var c := AfterGet(old(contents)[index], key, now, segments[index].slidingExpiration);
              && contents == old(contents)[index := c.items] && found == c.found
              && |counts| == |old(counts)| == |contents|
              && counts == old(counts)[index := Expiring(old(counts)[index], c.expired)]
    {
      hide Segment.Valid, Apart, AfterGet;
      OwnObjects(index);
      ghost var c := AfterGet(contents[index], key, now, segments[index].slidingExpiration);
      found := segments[index].Lookup(key, now, stats[index]);
      contents := contents[index := segments[index].items];
      counts := counts[index := Expiring(counts[index], c.expired)];
      Repr := Repr + segments[index].Repr;
      StillApart(index);
    }

    method ExistsAt(index: nat, key: Key, now: Nanos) returns (found: bool)
      requires Valid() && index < |segments|
      modifies this, Repr
      ensures Valid() && old(Repr) <= Repr && fresh(Repr - old(Repr))
      ensures |contents| == |old(contents)|
      ensures var c := AfterExists(old(contents)[index], key, now);
              && contents == old(contents)[index := c.items] && found == c.found.Some?
              && |counts| == |old(counts)| == |contents|
              && counts == old(counts)[index := Expiring(old(counts)[index], c.expired)]
    {
      hide Segment.Valid, Apart, AfterExists;
      OwnObjects(index);
      ghost var c := AfterExists(contents[index], key, now);
      found := segments[index].Exists(key, now, stats[index]);
      contents := contents[index := segments[index].items];
      counts := counts[index := Expiring(counts[index], c.expired)];
      Repr := Repr + segments[index].Repr;
      StillApart(index);
    }

    method RefreshAt(index: nat, key: Key, now: Nanos) returns (found: bool)
      requires Valid() && index < |segments|
      modifies this, Repr
      ensures Valid() && old(Repr) <= Repr && fresh(Repr - old(Repr))
      ensures |contents| == |old(contents)|
      ensures var c := AfterRefreshTTL(old(contents)[index], key, now);
              && contents == old(contents)[index := c.items] && found == c.found.Some?
              && |counts| == |old(counts)| == |contents|
              && counts == old(counts)[index := Expiring(old(counts)[index], c.expired)]
    {
      hide Segment.Valid, Apart, AfterRefreshTTL;
      OwnObjects(index);
      ghost var c := AfterRefreshTTL(contents[index], key, now);
      found := segments[index].RefreshTTL(key, now, stats[index]);
      contents := contents[index := segments[index].items];
      counts := counts[index := Expiring(counts[index], c.expired)];
      Repr := Repr + segments[index].Repr;
      StillApart(index);
    }

    method SetAt(index: nat, key: Key, value: Value, ttl: Nanos, deadline: Nanos)
      requires Valid() && index < |segments|
      modifies this, Repr
      ensures Valid() && old(Repr) <= Repr && fresh(Repr - old(Repr))
      ensures |contents| == |old(contents)|
      ensures var c := AfterSet(old(contents)[index], key, value, ttl, deadline, segments[index].maxEntries);
              && contents == old(contents)[index := c.items]
              && |counts| == |old(counts)| == |contents|
              && counts == old(counts)[index := Leaving(old(counts)[index], c)]
    {
      hide Segment.Valid, Apart, AfterSet;
      OwnObjects(index);
      ghost var c := AfterSet(contents[index], key, value, ttl, deadline, segments[index].maxEntries);
      segments[index].SetLocked(key, value, ttl, deadline, stats[index]);
      NothingExpires(contents[index], key, value, ttl, deadline, segments[index].maxEntries);
      contents := contents[index := segments[index].items];
      counts := counts[index := Leaving(counts[index], c)];
      Repr := Repr + segments[index].Repr;
      StillApart(index);
    }

    method GetOrSetAt(index: nat, key: Key, value: Value, ttl: Nanos, deadline: Nanos, now: Nanos)
      returns (current: Item, found: bool)
      requires Valid() && index < |segments|
      modifies this, Repr
      ensures Valid() && old(Repr) <= Repr && fresh(Repr - old(Repr))
      ensures |contents| == |old(contents)|
      ensures var s := old(contents)[index];
              var sliding := segments[index].slidingExpiration;
              var c := AfterGetOrSet(s, key, value, ttl, deadline, now, sliding, segments[index].maxEntries);
              && contents == old(contents)[index := c.items] && Some(current) == c.found
              && found == AfterGet(s, key, now, sliding).found.Some?
              && |counts| == |old(counts)| == |contents|
              && counts == old(counts)[index := Leaving(old(counts)[index], c)]
    {
      hide Segment.Valid, Apart, AfterGetOrSet, AfterGet;
      OwnObjects(index);
      ghost var c := AfterGetOrSet(contents[index], key, value, ttl, deadline, now, segments[index].slidingExpiration,
                                   segments[index].maxEntries);
      current, found := segments[index].GetOrSet(key, value, ttl, deadline, now, stats[index]);
      contents := contents[index := segments[index].items];
      counts := counts[index := Leaving(counts[index], c)];
      Repr := Repr + segments[index].Repr;
      StillApart(index);
    }

    method GetAndDeleteAt(index: nat, key: Key, now: Nanos) returns (found: Option<Value>)
      requires Valid() && index < |segments|
      modifies this, Repr
      ensures Valid() && Repr == old(Repr)
      ensures |contents| == |old(contents)|
      ensures var c := AfterGetAndDelete(old(contents)[index], key, now);
              && contents == old(contents)[index := c.items]
              && found == (if c.found.Some? then Some(c.found.value.value) else None)
              && |counts| == |old(counts)| == |contents|
              && counts == old(counts)[index := Expiring(old(counts)[index], c.expired)]
    {
      hide Segment.Valid, Apart, AfterGetAndDelete;
      OwnObjects(index);
      ghost var c := AfterGetAndDelete(contents[index], key, now);
      found := segments[index].GetAndDelete(key, now, stats[index]);
      contents := contents[index := segments[index].items];
      counts := counts[index := Expiring(counts[index], c.expired)];
      StillApart(index);
    }

    method DeleteAt(index: nat, key: Key) returns (removed: bool)
      requires Valid() && index < |segments|
      modifies this, Repr
      ensures Valid() && Repr == old(Repr)
      ensures |contents| == |old(contents)| && contents == old(contents)[index := Without(old(contents)[index], {key})]
      ensures removed == (key in Keys(old(contents)[index])) && counts == old(counts)
    {
      hide Segment.Valid, Apart, Without;
      OwnObjects(index);
      removed := segments[index].Delete(key);
      contents := contents[index := segments[index].items];
      StillApart(index);
    }

    method EmptyAt(index: nat) returns (deleted: nat)
      requires Valid() && index < |segments|
      modifies this, Repr
      ensures Valid() && Repr == old(Repr)
      ensures |contents| == |old(contents)| && contents == old(contents)[index := []]
      ensures deleted == |old(contents)[index]| && counts == old(counts)
    {
      hide Segment.Valid, Apart;
      OwnObjects(index);
      deleted := segments[index].DeleteAll();
      contents := contents[index := []];
      StillApart(index);
    }

    lemma SegmentCounts()
      requires Valid()
      ensures |contents| == |segments| == |stats| > 0
    {
    }

    method DeleteAll() returns (deleted: nat)
      requires Valid()
      modifies this, Repr
      ensures Valid() && Repr == old(Repr)
      ensures |contents| == |old(contents)| && (forall i :: 0 <= i < |contents| ==> contents[i] == [])
      ensures deleted == TotalItems(old(contents), |old(contents)|) && counts == old(counts)
    {
      hide Valid;
      SegmentCounts();
      deleted := 0;
      for index := 0 to |segments|
        invariant Valid() && Repr == old(Repr) && |contents| == |old(contents)| == |segments|
        invariant forall i :: 0 <= i < index ==> contents[i] == []
        invariant forall i :: index <= i < |contents| ==> contents[i] == old(contents)[i]
        invariant deleted == TotalItems(old(contents), index) && counts == old(counts)
      {
        var count := EmptyAt(index);
        deleted := deleted + count;
      }
    }

    /** Since `was`, exactly `removed` entries have expired, and none has been evicted or lost. */
    ghost predicate Counting(was: Contents, before: seq<Counts>, removed: nat)
      reads this`contents, this`counts
    {
      && TotalExpired(counts) == TotalExpired(before) + removed
      && TotalEvicted(counts) == TotalEvicted(before)
      && Passed(contents, counts) == Passed(was, before)
    }

    /** Removes everything due at `now`, in batches, one pass over the segments after another. */
    method CleanupExpired(now: Nanos, batchSize: nat, entryBudget: nat) returns (removed: nat)
      requires Valid() && batchSize > 0 && entryBudget > 0
      modifies this, Repr
      ensures Valid() && Repr == old(Repr) && |contents| == |old(contents)|
      ensures removed == TotalDue(old(contents), now, resolution)
      ensures TotalExpired(counts) == TotalExpired(old(counts)) + removed &&
                TotalEvicted(counts) == TotalEvicted(old(counts))
      ensures Passed(contents, counts) == Passed(old(contents), old(counts))
      ensures forall i :: 0 <= i < |contents| ==>
                contents[i] == Without(old(contents)[i], DueKeys(old(contents)[i], now, resolution))
    {
      hide Valid, Progress, NoneDue, DueKeys, Cleaned, Without, Due, Passed, TotalExpired, TotalEvicted;
      removed := 0;
      var remaining := entryBudget;
      AllDistinct();
      ghost var gone := ProgressStart(contents, now, resolution);
      ProgressTotal(contents, contents, gone, now, resolution);
      var hasMore := true;
      while hasMore
        invariant Valid() && Repr == old(Repr) && |contents| == |gone| == |segments|
        invariant 0 <= remaining <= entryBudget
        invariant Progress(old(contents), contents, gone, now, resolution) && removed == TotalGone(gone)
        invariant removed <= TotalDue(old(contents), now, resolution)
        invariant Counting(old(contents), old(counts), removed)
        invariant !hasMore ==> NoneDue(contents, now, resolution)
        decreases TotalDue(old(contents), now, resolution) - removed, hasMore
      {
        hasMore := false;
        ghost var started := removed;
        for index := 0 to |segments|
          invariant Valid() && Repr == old(Repr) && |contents| == |gone| == |segments|
          invariant 0 <= remaining <= entryBudget
          invariant Progress(old(contents), contents, gone, now, resolution) && removed == TotalGone(gone) >= started
          invariant Counting(old(contents), old(counts), removed)
          invariant !hasMore ==> forall i :: 0 <= i < index ==> DueKeys(contents[i], now, resolution) == {}
          invariant hasMore ==> removed > started
        {
          if remaining == 0 {
            remaining := entryBudget;
          }
          var limit := Min(batchSize, remaining);
          AllDistinct();
          ghost var before := contents;
          ghost var more;
          var count, pending;
          count, pending, more := CleanupExpiredAt(index, now, limit);
          CleanedCount(before[index], contents[index], more, now, limit, resolution);
          ProgressStep(old(contents), before, gone, index, contents[index], more, limit, now, resolution);
          gone := gone[index := gone[index] + more];
          removed := removed + count;
          remaining := remaining - count;
          hasMore := hasMore || pending;
        }
        AllClear(contents, now, resolution);
        ProgressTotal(old(contents), contents, gone, now, resolution);
        if hasMore {
          remaining := entryBudget;
        }
      }
      ProgressEnd(old(contents), contents, gone, now, resolution);
    }

    lemma CountersKept()
      requires Valid()
      ensures EvictionsOf(stats) == TotalEvicted(counts) && ExpirationsOf(stats) == TotalExpired(counts)
    {
      hide Segment.Valid;
      CountsAreKept(stats, counts);
    }

    lemma AllDistinct()
      requires Valid()
      ensures |contents| == |segments| && resolution > 0 && forall i :: 0 <= i < |contents| ==> Distinct(contents[i])
    {
      hide Segment.Valid;
      forall i | 0 <= i < |contents| ensures Distinct(contents[i]) {
        segments[i].StillDistinct();
      }
    }
  }
}
