/** Runs of segment operations: what holds of any of them, in any order. */
module Runs {
  import opened Types
  import opened Deadlines
  import opened SegmentModel
  import opened Balances
  import opened Drains
  import opened SegmentedStorage

  datatype Op =
    | Get(key: Key, now: Nanos)
    | Exists(key: Key, now: Nanos)
    | RefreshTTL(key: Key, now: Nanos)
    | Set(key: Key, value: Value, ttl: Nanos, deadline: Nanos)
    | GetOrSet(key: Key, value: Value, ttl: Nanos, deadline: Nanos, now: Nanos)
    | Delete(key: Key)
    | GetAndDelete(key: Key, now: Nanos)
    | DeleteAll
    | Cleanup(gone: set<Key>, now: Nanos, limit: nat)

  datatype Settings = Settings(sliding: bool, resolution: Int64)

  /** Entries that have come and gone. */
  datatype Tally = Tally(inserted: nat, evicted: nat, expired: nat, deleted: nat, cleared: nat)

  function Counted(t: Tally, inserted: nat, evicted: nat, expired: nat, deleted: nat, cleared: nat): Tally {
    Tally(t.inserted + inserted, t.evicted + evicted, t.expired + expired, t.deleted + deleted, t.cleared + cleared)
  }

  /** A segment of `capacity` entries may go from `s` to `s'`, and what that adds to the tally. */
  ghost predicate SegmentStep(g: Settings, capacity: nat, op: Op, s: seq<Item>, s': seq<Item>, t: Tally, t': Tally)
    requires g.resolution > 0
  {
    match op
    case Get(k, now) =>
      var c := AfterGet(s, k, now, g.sliding);
      s' == c.items && t' == Counted(t, 0, 0, c.expired, 0, 0)
    case Exists(k, now) =>
      var c := AfterExists(s, k, now);
      s' == c.items && t' == Counted(t, 0, 0, c.expired, 0, 0)
    case RefreshTTL(k, now) =>
      var c := AfterRefreshTTL(s, k, now);
      s' == c.items && t' == Counted(t, 0, 0, c.expired, 0, 0)
    case Set(k, v, ttl, deadline) =>
      var c := AfterSet(s, k, v, ttl, deadline, capacity);
      s' == c.items && t' == Counted(t, One(Found(s, k).None?), c.evicted, 0, 0, 0)
    case GetOrSet(k, v, ttl, deadline, now) =>
      var got := AfterGet(s, k, now, g.sliding);
      var c := AfterGetOrSet(s, k, v, ttl, deadline, now, g.sliding, capacity);
      s' == c.items && t' == Counted(t, One(got.found.None?), c.evicted, c.expired, 0, 0)
    case Delete(k) =>
      s' == Without(s, {k}) && t' == Counted(t, 0, 0, 0, One(k in Keys(s)), 0)
    case GetAndDelete(k, now) =>
      var c := AfterGetAndDelete(s, k, now);
      s' == c.items && t' == Counted(t, 0, 0, c.expired, One(c.found.Some?), 0)
    case DeleteAll =>
      s' == [] && t' == Counted(t, 0, 0, 0, 0, |s|)
    case Cleanup(gone, now, limit) =>
      Cleaned(s, s', gone, now, limit, g.resolution) && t' == Counted(t, 0, 0, |gone|, 0, 0)
  }

  ghost function Gone(t: Tally): nat {
    t.evicted + t.expired + t.deleted + t.cleared
  }

  /** One operation on one segment: keys stay distinct, the capacity is kept, and no entry is lost or counted twice. */
  lemma StepBalance(g: Settings, capacity: nat, op: Op, s: seq<Item>, s': seq<Item>, t: Tally, t': Tally)
    requires g.resolution > 0 && SegmentStep(g, capacity, op, s, s', t, t')
    requires Distinct(s) && 0 < capacity && |s| <= capacity
    ensures Distinct(s') && |s'| <= capacity
    ensures |s'| + Gone(t') - t'.inserted == |s| + Gone(t) - t.inserted
  {
    hide Found, Without, Distinct, Keys, AfterGet, AfterSet, AfterRefreshTTL, Cleaned;
    match op
    case Get(k, now) => GetBalance(s, k, now, g.sliding);
    case Exists(k, now) => Lose(s, k);
    case RefreshTTL(k, now) => RefreshBalance(s, k, now);
    case Set(k, v, ttl, deadline) => SetBalance(s, k, v, ttl, deadline, capacity);
    case GetOrSet(k, v, ttl, deadline, now) =>
      GetBalance(s, k, now, g.sliding);
      SetBalance(AfterGet(s, k, now, g.sliding).items, k, v, ttl, deadline, capacity);
    case Delete(k) => Lose(s, k);
    case GetAndDelete(k, now) => Lose(s, k);
    case DeleteAll => NothingTwice();
    case Cleanup(gone, now, limit) =>
      CleanedIsReclaimed(s, s', gone, now, limit, g.resolution);
      CleanupBalance(s, s', gone, now, g.resolution);
  }

  // ---------------------------------------------------------------- conservation

  /** A cache at some point of a run. */
  datatype Snapshot = Snapshot(contents: Contents, tally: Tally)

  /** One operation on segment `index`; a clear goes through the segments one after another. */
  ghost predicate CacheStep(g: Settings, maxEntries: nat, index: nat, op: Op, a: Snapshot, b: Snapshot)
    requires g.resolution > 0
  {
    && index < |a.contents| == |b.contents|
    && SegmentStep(g, Share(maxEntries, |a.contents|, index), op, a.contents[index], b.contents[index],
                   a.tally, b.tally)
    && b.contents == a.contents[index := b.contents[index]]
  }

  /** A run from an empty cache. */
  ghost predicate Run(g: Settings, maxEntries: nat, segmentCount: nat, run: seq<Snapshot>, where: seq<nat>,
                      ops: seq<Op>)
    requires g.resolution > 0
  {
    && |run| == |ops| + 1 == |where| + 1
    && run[0] == Snapshot(seq(segmentCount, _ => []), Tally(0, 0, 0, 0, 0))
    && (forall n :: 0 <= n < |ops| ==> CacheStep(g, maxEntries, where[n], ops[n], run[n], run[n + 1]))
  }

  /** Every entry ever inserted is still there, or has been evicted, expired, deleted or cleared. */
  ghost predicate Balanced(maxEntries: nat, segmentCount: nat, s: Snapshot)
    requires segmentCount > 0
  {
    && |s.contents| == segmentCount
    && (forall i :: 0 <= i < segmentCount ==>
          Distinct(s.contents[i]) && |s.contents[i]| <= Share(maxEntries, segmentCount, i))
    && s.tally.inserted == TotalItems(s.contents, segmentCount) + Gone(s.tally)
  }

  lemma {:induction false} TotalEmpty(n: nat, segmentCount: nat)
    requires n <= segmentCount
    ensures TotalItems(seq(segmentCount, _ => []), n) == 0
  {
    if n > 0 {
      TotalEmpty(n - 1, segmentCount);
    }
  }

  lemma {:induction false} Conservation(g: Settings, maxEntries: nat, segmentCount: nat,
                                        run: seq<Snapshot>, where: seq<nat>, ops: seq<Op>, n: nat)
    requires g.resolution > 0 && 0 < segmentCount <= maxEntries
    requires Run(g, maxEntries, segmentCount, run, where, ops) && n <= |ops|
    ensures Balanced(maxEntries, segmentCount, run[n])
  {
    hide SegmentStep, Distinct, Share;
    if n == 0 {
      TotalEmpty(segmentCount, segmentCount);
      NothingTwice();
    } else {
      Conservation(g, maxEntries, segmentCount, run, where, ops, n - 1);
      SharesPositive(maxEntries, segmentCount, where[n - 1]);
      var a, b, i := run[n - 1], run[n], where[n - 1];
      assert CacheStep(g, maxEntries, i, ops[n - 1], a, run[n - 1 + 1]);
      StepBalance(g, Share(maxEntries, segmentCount, i), ops[n - 1], a.contents[i], b.contents[i], a.tally, b.tally);
      TotalUpdate(a.contents, segmentCount, i, b.contents[i]);
    }
  }

  lemma SharesPositive(maxEntries: nat, segmentCount: nat, index: nat)
    requires 0 < segmentCount <= maxEntries
    ensures Share(maxEntries, segmentCount, index) > 0
  {
    assert maxEntries / segmentCount >= 1;
  }

  lemma {:induction false} WithinShares(maxEntries: nat, segmentCount: nat, s: Snapshot, n: nat)
    requires segmentCount > 0 && n <= segmentCount && Balanced(maxEntries, segmentCount, s)
    ensures TotalItems(s.contents, n) <= TotalShare(maxEntries, segmentCount, n)
  {
    if n > 0 {
      WithinShares(maxEntries, segmentCount, s, n - 1);
    }
  }

  /** A cache never holds more than its budget, at any point of any run. */
  lemma NeverOverBudget(g: Settings, maxEntries: nat, segmentCount: nat,
                        run: seq<Snapshot>, where: seq<nat>, ops: seq<Op>, n: nat)
    requires g.resolution > 0 && 0 < segmentCount <= maxEntries
    requires Run(g, maxEntries, segmentCount, run, where, ops) && n <= |ops|
    ensures |run[n].contents| == segmentCount && TotalItems(run[n].contents, segmentCount) <= maxEntries
  {
    Conservation(g, maxEntries, segmentCount, run, where, ops, n);
    WithinShares(maxEntries, segmentCount, run[n], segmentCount);
    SharesAddUp(maxEntries, segmentCount);
  }

  // ---------------------------------------------------------------- deadlines

  /** The deadline that an operation offers for `k`, zero if none. */
  function Offered(g: Settings, op: Op, k: Key, ttl: Nanos): Nanos {
    match op
    case Get(key, now) => if key == k && g.sliding then DeadlineAfter(now, ttl) else 0
    case RefreshTTL(key, now) => if key == k then DeadlineAfter(now, ttl) else 0
    case GetOrSet(key, _, _, _, now) => if key == k && g.sliding then DeadlineAfter(now, ttl) else 0
    case _ => 0
  }

  /** The latest of `deadline` and all deadlines offered by `ops`. */
  function Latest(g: Settings, ops: seq<Op>, k: Key, ttl: Nanos, deadline: Nanos): Nanos {
    if ops == [] then deadline else
      Max(Latest(g, ops[..|ops| - 1], k, ttl, deadline), Offered(g, ops[|ops| - 1], k, ttl))
  }

  /** An operation that can make an entry for `k` out of nothing. */
  ghost predicate Stores(g: Settings, op: Op, s: seq<Item>, k: Key) {
    || (op.Set? && op.key == k)
    || (op.GetOrSet? && op.key == k && AfterGet(s, k, op.now, g.sliding).found.None?)
  }

  lemma {:induction false} FoundWithout(s: seq<Item>, ks: set<Key>, k: Key)
    ensures Found(Without(s, ks), k) == if k in ks then None else Found(s, k)
  {
    if s != [] {
      FoundWithout(s[1..], ks, k);
      if s[0].key !in ks {
        assert ([s[0]] + Without(s[1..], ks))[1..] == Without(s[1..], ks);
      }
    }
  }

  lemma FoundFront(s: seq<Item>, it: Item, k: Key)
    ensures Found([it] + s, k) == if it.key == k then Some(it) else Found(s, k)
    ensures Found(Front(s, it), k) == if it.key == k then Some(it) else Found(s, k)
  {
    FoundWithout(s, {it.key}, k);
    var rest := Without(s, {it.key});
    assert ([it] + rest)[1..] == rest && ([it] + s)[1..] == s;
  }

  lemma {:induction false} FoundReplaced(s: seq<Item>, it: Item, k: Key)
    ensures Found(Replaced(s, it), k) ==
              if it.key == k && Found(s, k).Some? then Some(it) else Found(s, k)
  {
    if s != [] {
      FoundReplaced(s[1..], it, k);
      assert Replaced(s, it)[1..] == Replaced(s[1..], it);
    }
  }

  lemma {:induction false} FoundButLast(s: seq<Item>, k: Key)
    requires s != []
    ensures Found(s[..|s| - 1], k).Some? ==> Found(s[..|s| - 1], k) == Found(s, k)
  {
    if |s| > 1 {
      FoundButLast(s[1..], k);
      assert s[..|s| - 1][1..] == s[1..][..|s| - 2];
    }
  }

  /** What an operation that does not store `k` leaves of it. */
  ghost predicate Carried(g: Settings, op: Op, k: Key, before: Option<Item>, after: Option<Item>) {
    after.Some? ==>
      && before.Some?
      && after.value == before.value.(deadline := Max(before.value.deadline, Offered(g, op, k, before.value.ttl)))
  }

  lemma GetCarries(g: Settings, s: seq<Item>, k: Key, key: Key, now: Nanos)
    ensures Carried(g, Get(key, now), k, Found(s, k), Found(AfterGet(s, key, now, g.sliding).items, k))
  {
    FoundNone(s, key);
    FoundWithout(s, {key}, k);
    if Found(s, key).Some? {
      var it := Found(s, key).value;
      FoundFront(s, if g.sliding then Refreshed(it, now) else it, k);
    }
  }

  lemma RefreshCarries(g: Settings, s: seq<Item>, k: Key, key: Key, now: Nanos)
    ensures Carried(g, RefreshTTL(key, now), k, Found(s, k), Found(AfterRefreshTTL(s, key, now).items, k))
  {
    FoundNone(s, key);
    FoundWithout(s, {key}, k);
    if Found(s, key).Some? {
      FoundReplaced(s, Refreshed(Found(s, key).value, now), k);
    }
  }

  lemma SetCarries(s: seq<Item>, k: Key, key: Key, v: Value, ttl: Nanos, deadline: Nanos, capacity: nat)
    requires key != k
    ensures var after := Found(AfterSet(s, key, v, ttl, deadline, capacity).items, k);
            after.Some? ==> after == Found(s, k)
  {
    var it := Item(key, v, if deadline == 0 then 0 else ttl, deadline);
    FoundFront(s, it, k);
    if s != [] {
      FoundButLast(s, k);
      FoundFront(s[..|s| - 1], it, k);
    }
  }

  lemma StepCarries(g: Settings, capacity: nat, op: Op, s: seq<Item>, s': seq<Item>, t: Tally, t': Tally, k: Key)
    requires g.resolution > 0 && SegmentStep(g, capacity, op, s, s', t, t') && !Stores(g, op, s, k)
    ensures Carried(g, op, k, Found(s, k), Found(s', k))
  {
    hide Found, Without, AfterGet, AfterSet, AfterRefreshTTL, Replaced;
    match op
    case Get(key, now) => GetCarries(g, s, k, key, now);
    case Exists(key, now) => FoundWithout(s, {key}, k);
    case RefreshTTL(key, now) => RefreshCarries(g, s, k, key, now);
    case Set(key, v, ttl, deadline) => SetCarries(s, k, key, v, ttl, deadline, capacity);
    case GetOrSet(key, v, ttl, deadline, now) =>
      GetCarries(g, s, k, key, now);
      if key != k {
        SetCarries(AfterGet(s, key, now, g.sliding).items, k, key, v, ttl, deadline, capacity);
      }
    case Delete(key) => FoundWithout(s, {key}, k);
    case GetAndDelete(key, now) => FoundWithout(s, {key}, k);
    case DeleteAll => FoundEmpty(k);
    case Cleanup(gone, now, limit) => FoundWithout(s, gone, k);
  }

  lemma FoundEmpty(k: Key)
    ensures Found([], k).None?
  {
  }

  /** A run of one segment from any state, in which no operation stores `k`. */
  ghost predicate Unstored(g: Settings, capacity: nat, run: seq<seq<Item>>, tallies: seq<Tally>, ops: seq<Op>, k: Key)
    requires g.resolution > 0
  {
    && |run| == |tallies| == |ops| + 1
    && (forall n :: 0 <= n < |ops| ==>
          SegmentStep(g, capacity, ops[n], run[n], run[n + 1], tallies[n], tallies[n + 1]) &&
              !Stores(g, ops[n], run[n], k))
  }

  /**
   * As long as `k` is not stored again, an entry found for it is the original one, with the latest of its
   * deadline and those offered by the reads and refreshes since, in whatever order their timestamps came.
   */
  lemma {:induction false} DeadlineIsLatest(g: Settings, capacity: nat, run: seq<seq<Item>>, tallies: seq<Tally>,
                                            ops: seq<Op>, k: Key, n: nat)
    requires g.resolution > 0 && Unstored(g, capacity, run, tallies, ops, k) && n <= |ops|
    ensures Found(run[n], k).Some? ==>
              && Found(run[0], k).Some?
              && var it := Found(run[0], k).value;
                 Found(run[n], k).value == it.(deadline := Latest(g, ops[..n], k, it.ttl, it.deadline))
  {
    hide SegmentStep, Found, Stores;
    if n > 0 {
      DeadlineIsLatest(g, capacity, run, tallies, ops, k, n - 1);
      assert SegmentStep(g, capacity, ops[n - 1], run[n - 1], run[n - 1 + 1], tallies[n - 1], tallies[n - 1 + 1]);
      StepCarries(g, capacity, ops[n - 1], run[n - 1], run[n], tallies[n - 1], tallies[n], k);
      assert ops[..n][..n - 1] == ops[..n - 1];
    }
  }

  /** A stale timestamp never shortens a deadline, and a renewal is never lost. */
  lemma {:induction false} LatestBounds(g: Settings, ops: seq<Op>, k: Key, ttl: Nanos, deadline: Nanos)
    ensures Latest(g, ops, k, ttl, deadline) >= deadline
    ensures forall n :: 0 <= n < |ops| ==> Latest(g, ops, k, ttl, deadline) >= Offered(g, ops[n], k, ttl)
    ensures Latest(g, ops, k, ttl, deadline) == deadline ||
            exists n :: 0 <= n < |ops| && Latest(g, ops, k, ttl, deadline) == Offered(g, ops[n], k, ttl)
  {
    if ops != [] {
      var before := ops[..|ops| - 1];
      LatestBounds(g, before, k, ttl, deadline);
      assert forall n :: 0 <= n < |before| ==> before[n] == ops[n];
    }
  }
}
