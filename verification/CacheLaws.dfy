/** What a caller of the cache reads back. */
module CacheLaws {
  import opened Types
  import opened Deadlines
  import opened SegmentModel
  import opened SegmentLaws
  import opened Drains
  import opened LockPlans
  import opened Batches
  import opened Mutations

  /** The moment at which an entry stored at `now` with `expiration` ends, if the cache adds no jitter. */
  ghost predicate Lasts(expiration: Int64, now: Nanos, later: Nanos) {
    expiration < 0 || later < Min(now + expiration, MAX_INT64)
  }

  /**
   * What has been stored is read back until its deadline and not from then on. Without jitter the deadline is exactly
   * the time of the store plus the ttl asked for; a negative one means forever.
   */
  method SetThenGet(cache: Cache, key: Key, value: Value, expiration: Int64, now: Nanos, later: Nanos,
                    draw: Int64 -> Int64)
    returns (found: Option<Item>)
    requires cache.Valid() && cache.held == {} && IsDraw(draw)
    modifies cache, cache.groups, cache.calls, cache.store, cache.store.Repr
    ensures cache.Valid()
    ensures found.Some? ==> found.value.key == key && found.value.value == value
    ensures cache.jitter == 0 && expiration != DEFAULT_EXPIRATION ==> (found.Some? <==> Lasts(expiration, now, later))
    ensures var ttl := EffectiveTTL(expiration, cache.defaultTTL, cache.jitter, draw);
            found.Some? <==> ttl == 0 || later < DeadlineAfter(now, ttl)
  {
    hide Cache.Valid, AfterGet, AfterSet, EffectiveTTL;
    cache.Sizes();
    cache.SegmentOf(key);
    ghost var i := cache.Router()(key);
    ghost var g, s := cache.store.segments[i], cache.store.contents[i];
    ghost var ttl := EffectiveTTL(expiration, cache.defaultTTL, cache.jitter, draw);
    SegmentLaws.SetThenGet(s, key, value, ttl, DeadlineAfter(now, ttl), g.maxEntries, later, g.slidingExpiration);
    cache.Set(key, value, expiration, now, draw);
    found := cache.Get(key, later);
  }

  /** What a get-or-set returns is what the next get returns, until the deadline that came with it. */
  method GetOrSetThenGet(cache: Cache, key: Key, value: Value, expiration: Int64, now: Nanos, later: Nanos,
                         draw: Int64 -> Int64)
    returns (current: Item, found: bool, again: Option<Item>)
    requires cache.Valid() && cache.held == {} && IsDraw(draw)
    modifies cache, cache.groups, cache.calls, cache.store, cache.store.Repr
    ensures cache.Valid() && current.key == key && (!found ==> current.value == value)
    ensures again.Some? <==> current.deadline == 0 || later < current.deadline
    ensures again.Some? ==> again.value.key == key && again.value.value == current.value
  {
    hide Cache.Valid, AfterGet, AfterSet, AfterGetOrSet, EffectiveTTL, HasLive;
    cache.Sizes();
    cache.SegmentOf(key);
    ghost var i := cache.Router()(key);
    ghost var g, s := cache.store.segments[i], cache.store.contents[i];
    ghost var ttl := EffectiveTTL(expiration, cache.defaultTTL, cache.jitter, draw);
    InFrontOfBoth(s, key, value, ttl, DeadlineAfter(now, ttl), now, g.slidingExpiration, g.maxEntries);
    current, found := cache.GetOrSet(key, value, expiration, now, now, draw);
    cache.SegmentOf(key);
    FrontIsFound(cache.store.contents[i], later, g.slidingExpiration);
    again := cache.Get(key, later);
  }

  lemma InFrontOfBoth(s: seq<Item>, k: Key, v: Value, ttl: Nanos, deadline: Nanos, now: Nanos, sliding: bool,
                      capacity: nat)
    requires Distinct(s) && 0 < capacity && |s| <= capacity
    ensures var got := AfterGet(s, k, now, sliding);
            var c := AfterGetOrSet(got.items, k, v, ttl, deadline, now, sliding, capacity);
            if got.found.Some? then got.items != [] && got.found.value == got.items[0] && got.items[0].key == k
            else c.items != [] && c.found == Some(c.items[0]) && c.items[0].key == k && c.items[0].value == v
  {
    hide AfterGet, AfterGetOrSet, HasLive;
    InFront(s, k, v, ttl, deadline, now, sliding, capacity);
    var got := AfterGet(s, k, now, sliding);
    if got.found.None? {
      NoneLive(s, k, now, sliding);
      InFront(got.items, k, v, ttl, deadline, now, sliding, capacity);
    }
  }

  lemma NoneLive(s: seq<Item>, k: Key, now: Nanos, sliding: bool)
    requires Distinct(s) && AfterGet(s, k, now, sliding).found.None?
    ensures var rest := AfterGet(s, k, now, sliding).items;
            Distinct(rest) && |rest| <= |s| && !HasLive(rest, k, now)
  {
    hide AfterGet;
    GetMeans(s, k, now, sliding);
    Missed(s, k, now, sliding);
    var rest := AfterGet(s, k, now, sliding).items;
    assert forall i :: 0 <= i < |rest| ==> Has(rest, rest[i]);
  }

  /** What has been deleted is not found, at any time. */
  method DeleteThenGet(cache: Cache, keys: seq<Key>, targets: seq<Key>, key: Key, later: Nanos)
    returns (found: Option<Item>)
    requires cache.Valid() && cache.held == {} && key in keys && |cache.store.segments| > 0
    requires multiset(targets) == multiset(keys) && Sorted(targets, cache.Router())
    modifies cache, cache.groups, cache.calls, cache.store, cache.store.Repr
    ensures cache.Valid() && found.None?
  {
    hide Cache.Valid, AfterGet, WithoutAll, KeySet, Sorted;
    cache.Sizes();
    ghost var before := cache.store.contents;
    ghost var removed := cache.Delete(keys, targets);
    cache.SegmentOf(key);
    ghost var i := cache.Router()(key);
    GoneFrom(before, keys, key, i, later, cache.store.segments[i].slidingExpiration);
    found := cache.Get(key, later);
  }

  lemma GoneFrom(before: Contents, keys: seq<Key>, key: Key, i: nat, later: Nanos, sliding: bool)
    requires key in keys && i < |before|
    ensures var c := WithoutAll(before, KeySet(keys));
            i < |c| && (Distinct(c[i]) ==> AfterGet(c[i], key, later, sliding).found.None?)
  {
    WithoutMembers(before[i], KeySet(keys));
    FindsNone(Without(before[i], KeySet(keys)), key);
    var rest := Without(before[i], KeySet(keys));
    forall j | 0 <= j < |rest| ensures rest[j].key != key {
      assert rest[j] in rest;
    }
  }
}
