/** Forgetting and removing many keys at once. */
module Batches {
  import opened Types
  import opened SegmentModel
  import opened Balances
  import opened Waves
  import opened Drains
  import opened SegmentedStorage
  import opened LockPlans

  ghost function KeySet(keys: seq<Key>): set<Key> {
    set k | k in keys
  }

  /** `f` after the live waves of all keys in `ks` have been forgotten. */
  ghost function ForgotMany(f: Flight, ks: set<Key>): Flight {
    Flight(seq(|f.waves|, w requires 0 <= w < |f.waves| =>
                 if f.waves[w].key in ks && f.waves[w].key in f.live && f.live[f.waves[w].key] == w
                 then f.waves[w].(forgotten := true) else f.waves[w]),
           f.live - ks)
  }

  lemma ForgotNone(f: Flight)
    ensures ForgotMany(f, {}) == f
  {
    assert f.live - {} == f.live;
  }

  lemma ForgotOneMore(f: Flight, ks: set<Key>, k: Key)
    requires Disciplined(f)
    ensures Disciplined(ForgotMany(f, ks))
    ensures Forgot(ForgotMany(f, ks), k) == ForgotMany(f, ks + {k})
  {
  }

  /** Other keys keep their waves as they are; the waves of `ks` that could publish no longer can. */
  lemma ForgotManyMeans(f: Flight, ks: set<Key>, w: nat)
    requires Disciplined(f) && w < |f.waves|
    ensures ForgotMany(f, ks).waves[w] ==
              f.waves[w].(forgotten := f.waves[w].forgotten || (Registered(f.waves[w]) && f.waves[w].key in ks))
    ensures forall k :: k in ForgotMany(f, ks).live <==> k in f.live && k !in ks
  {
  }

  lemma NoKeys(keys: seq<Key>)
    ensures KeySet(keys[..0]) == {}
  {
  }

  lemma SameKeys(keys: seq<Key>, targets: seq<Key>)
    requires multiset(targets) == multiset(keys)
    ensures KeySet(targets) == KeySet(keys) && |targets| == |keys|
  {
    forall k ensures k in targets <==> k in keys {
      assert k in targets <==> k in multiset(targets);
      assert k in keys <==> k in multiset(keys);
    }
    assert |targets| == |multiset(targets)| == |multiset(keys)| == |keys|;
  }

  lemma NoLocks(keys: seq<Key>, targets: seq<Key>, route: Router)
    requires keys == [] && multiset(targets) == multiset(keys)
    ensures KeySet(keys) == {} && AcquireAll(Locks(targets, route)) == [] && ReleaseAll(Locks(targets, route)) == []
  {
    SameKeys(keys, targets);
  }

  lemma OneLock(keys: seq<Key>, targets: seq<Key>, route: Router)
    requires |keys| == 1 && multiset(targets) == multiset(keys)
    ensures targets == keys && KeySet(keys) == {keys[0]} && Locks(targets, route) == [route(keys[0])]
  {
    SameKeys(keys, targets);
    assert targets[0] in multiset(keys);
  }

  ghost function Resident(c: Contents): set<Key> {
    set i, k | 0 <= i < |c| && k in Keys(c[i]) :: k
  }

  /** Every key is in the segment it is routed to. */
  ghost predicate Placed(c: Contents, route: Router) {
    forall i, k :: 0 <= i < |c| && k in Keys(c[i]) ==> route(k) == i
  }

  ghost predicate FlightsPlaced(fs: seq<Flight>, route: Router) {
    forall i, k :: 0 <= i < |fs| && k in fs[i].live ==> route(k) == i
  }

  ghost function WithoutAll(c: Contents, ks: set<Key>): (without: Contents)
    ensures |without| == |c|
  {
    seq(|c|, i requires 0 <= i < |c| => Without(c[i], ks))
  }

  ghost function ForgotEverywhere(fs: seq<Flight>, ks: set<Key>): (forgotten: seq<Flight>)
    ensures |forgotten| == |fs|
  {
    seq(|fs|, i requires 0 <= i < |fs| => ForgotMany(fs[i], ks))
  }

  lemma NothingRemoved(c: Contents, fs: seq<Flight>)
    ensures WithoutAll(c, {}) == c && ForgotEverywhere(fs, {}) == fs
  {
    forall i | 0 <= i < |c| ensures Without(c[i], {}) == c[i] {
      WithoutNone(c[i], {});
    }
    forall i | 0 <= i < |fs| ensures ForgotMany(fs[i], {}) == fs[i] {
      ForgotNone(fs[i]);
    }
  }

  /** Removing one more key, from the one segment that can hold it. */
  lemma RemoveOneMore(c: Contents, ks: set<Key>, k: Key, route: Router)
    requires Placed(c, route) && route(k) < |c|
    ensures var i := route(k);
            && WithoutAll(c, ks)[i := Without(WithoutAll(c, ks)[i], {k})] == WithoutAll(c, ks + {k})
            && (k in Keys(WithoutAll(c, ks)[i]) <==> k in Resident(c) && k !in ks)
  {
    var i := route(k);
    forall j | 0 <= j < |c| && j != i ensures Without(c[j], ks) == Without(c[j], ks + {k}) {
      WithoutTwice(c[j], ks, {k});
      WithoutMembers(c[j], ks);
      WithoutNone(Without(c[j], ks), {k});
    }
    WithoutTwice(c[i], ks, {k});
    WithoutMembers(c[i], ks);
  }

  /** The contents and the count when each key is deleted by itself, in the given order. */
  ghost function OneByOne(c: Contents, keys: seq<Key>, route: Router): (r: (Contents, nat))
    requires forall k :: route(k) < |c|
    ensures |r.0| == |c|
  {
    if keys == [] then (c, 0) else
      var k := keys[|keys| - 1];
      var (d, n) := OneByOne(c, keys[..|keys| - 1], route);
      (d[route(k) := Without(d[route(k)], {k})], if k in Keys(d[route(k)]) then n + 1 else n)
  }

  /** A batch comes to the same as one-by-one deletion, whatever the order and however often a key occurs. */
  lemma {:induction false} BatchIsOneByOne(c: Contents, keys: seq<Key>, route: Router)
    requires Placed(c, route) && forall k :: route(k) < |c|
    ensures OneByOne(c, keys, route) == (WithoutAll(c, KeySet(keys)), |KeySet(keys) * Resident(c)|)
  {
    if keys == [] {
      NothingRemoved(c, []);
    } else {
      var n := |keys| - 1;
      BatchIsOneByOne(c, keys[..n], route);
      RemoveOneMore(c, KeySet(keys[..n]), keys[n], route);
      CountOneMore(keys, n, Resident(c));
      assert keys[..n + 1] == keys;
    }
  }

  lemma RemovedPlaced(c: Contents, ks: set<Key>, route: Router)
    requires Placed(c, route)
    ensures Placed(WithoutAll(c, ks), route)
  {
    forall i, k | 0 <= i < |c| && k in Keys(WithoutAll(c, ks)[i]) ensures route(k) == i {
      WithoutMembers(c[i], ks);
    }
  }

  /** Forgetting one more key, in the one group that can have a call for it. */
  lemma ForgetOneMore(fs: seq<Flight>, ks: set<Key>, k: Key, route: Router)
    requires FlightsPlaced(fs, route) && route(k) < |fs|
    requires forall i :: 0 <= i < |fs| ==> Disciplined(fs[i])
    ensures var i := route(k);
            ForgotEverywhere(fs, ks)[i := Forgot(ForgotEverywhere(fs, ks)[i], k)] == ForgotEverywhere(fs, ks + {k})
    ensures FlightsPlaced(ForgotEverywhere(fs, ks + {k}), route)
  {
    ForgotOneMore(fs[route(k)], ks, k);
    forall i | 0 <= i < |fs| && i != route(k) ensures ForgotMany(fs[i], ks) == ForgotMany(fs[i], ks + {k}) {
      assert k !in fs[i].live;
      assert fs[i].live - ks == fs[i].live - (ks + {k});
    }
  }

  /** A segment that has gained no key but `k` is still in its place. */
  lemma PlacedUpdate(c: Contents, i: nat, s: seq<Item>, k: Key, route: Router)
    requires Placed(c, route) && i < |c| && route(k) == i && Keys(s) <= Keys(c[i]) + {k}
    ensures Placed(c[i := s], route)
  {
  }

  lemma GetKeys(s: seq<Item>, k: Key, now: Nanos, sliding: bool)
    ensures Keys(AfterGet(s, k, now, sliding).items) <= Keys(s) + {k}
  {
    FoundNone(s, k);
    WithoutMembers(s, {k});
  }

  lemma ExistsKeys(s: seq<Item>, k: Key, now: Nanos)
    ensures Keys(AfterExists(s, k, now).items) <= Keys(s) + {k}
  {
    WithoutMembers(s, {k});
  }

  lemma RefreshKeys(s: seq<Item>, k: Key, now: Nanos)
    ensures Keys(AfterRefreshTTL(s, k, now).items) <= Keys(s) + {k}
  {
    hide Without;
    WithoutMembers(s, {k});
    FoundNone(s, k);
    forall it | Found(s, k).Some? && it in Replaced(s, Refreshed(Found(s, k).value, now)) ensures it.key in Keys(s) {
      var i :| 0 <= i < |s| && it == Replaced(s, Refreshed(Found(s, k).value, now))[i];
      assert s[i] in s && it.key == s[i].key;
    }
  }

  lemma SetKeys(s: seq<Item>, k: Key, v: Value, ttl: Nanos, deadline: Nanos, capacity: nat)
    ensures Keys(AfterSet(s, k, v, ttl, deadline, capacity).items) <= Keys(s) + {k}
  {
    WithoutMembers(s, {k});
  }

  lemma GetOrSetKeys(s: seq<Item>, k: Key, v: Value, ttl: Nanos, deadline: Nanos, now: Nanos, sliding: bool,
                     capacity: nat)
    ensures Keys(AfterGetOrSet(s, k, v, ttl, deadline, now, sliding, capacity).items) <= Keys(s) + {k}
  {
    hide AfterGet, AfterSet;
    GetKeys(s, k, now, sliding);
    SetKeys(AfterGet(s, k, now, sliding).items, k, v, ttl, deadline, capacity);
  }

  lemma DrainedPlaced(c: Contents, c': Contents, now: Nanos, resolution: Int64, route: Router)
    requires resolution > 0 && Placed(c, route) && |c'| == |c|
    requires forall i :: 0 <= i < |c| ==> c'[i] == Without(c[i], DueKeys(c[i], now, resolution))
    ensures Placed(c', route)
  {
    forall i, k | 0 <= i < |c'| && k in Keys(c'[i]) ensures route(k) == i {
      WithoutMembers(c[i], DueKeys(c[i], now, resolution));
    }
  }

  lemma TakeKeys(s: seq<Item>, k: Key, now: Nanos)
    ensures Keys(AfterGetAndDelete(s, k, now).items) <= Keys(s) + {k}
  {
    WithoutMembers(s, {k});
  }

  lemma ForgottenPlaced(fs: seq<Flight>, k: Key, route: Router)
    requires FlightsPlaced(fs, route) && route(k) < |fs|
    ensures FlightsPlaced(fs[route(k) := Forgot(fs[route(k)], k)], route)
  {
  }

  // ---------------------------------------------------------------- where entries are and have gone

  ghost function Sum(s: seq<nat>): nat {
    if s == [] then 0 else Sum(s[..|s| - 1]) + s[|s| - 1]
  }

  lemma {:induction false} SumUpdate(s: seq<nat>, i: nat, n: nat)
    requires i < |s|
    ensures Sum(s[i := n]) == Sum(s) - s[i] + n
  {
    var last := |s| - 1;
    if i < last {
      assert s[i := n][..last] == s[..last][i := n];
      SumUpdate(s[..last], i, n);
    } else {
      assert s[i := n][..last] == s[..last];
    }
  }

  lemma {:induction false} SumZero(s: seq<nat>)
    requires forall i :: 0 <= i < |s| ==> s[i] == 0
    ensures Sum(s) == 0
  {
    if s != [] {
      SumZero(s[..|s| - 1]);
    }
  }

  lemma LookupPasses(c: Contents, counts: seq<Counts>, i: nat, k: Key, now: Nanos, sliding: bool)
    requires i < |c| == |counts| && Distinct(c[i])
    ensures var got := AfterGet(c[i], k, now, sliding);
            Passed(c[i := got.items], counts[i := Expiring(counts[i], got.expired)]) == Passed(c, counts)
  {
    hide Passed, AfterGet;
    var got := AfterGet(c[i], k, now, sliding);
    GetBalance(c[i], k, now, sliding);
    PassedUpdate(c, counts, i, got.items, Expiring(counts[i], got.expired));
  }

  lemma ExistsPasses(c: Contents, counts: seq<Counts>, i: nat, k: Key, now: Nanos)
    requires i < |c| == |counts| && Distinct(c[i])
    ensures var after := AfterExists(c[i], k, now);
            Passed(c[i := after.items], counts[i := Expiring(counts[i], after.expired)]) == Passed(c, counts)
  {
    hide Passed, AfterExists;
    var after := AfterExists(c[i], k, now);
    ExistsBalance(c[i], k, now);
    PassedUpdate(c, counts, i, after.items, Expiring(counts[i], after.expired));
  }

  lemma RefreshPasses(c: Contents, counts: seq<Counts>, i: nat, k: Key, now: Nanos)
    requires i < |c| == |counts| && Distinct(c[i])
    ensures var after := AfterRefreshTTL(c[i], k, now);
            Passed(c[i := after.items], counts[i := Expiring(counts[i], after.expired)]) == Passed(c, counts)
  {
    hide Passed, AfterRefreshTTL;
    var after := AfterRefreshTTL(c[i], k, now);
    RefreshBalance(c[i], k, now);
    PassedUpdate(c, counts, i, after.items, Expiring(counts[i], after.expired));
  }

  lemma SetPasses(c: Contents, counts: seq<Counts>, i: nat, k: Key, v: Value, ttl: Nanos, deadline: Nanos,
                  capacity: nat)
    requires i < |c| == |counts| && Distinct(c[i]) && |c[i]| <= capacity && capacity > 0
    ensures var after := AfterSet(c[i], k, v, ttl, deadline, capacity);
            Passed(c[i := after.items], counts[i := Leaving(counts[i], after)]) ==
            Passed(c, counts) + One(Found(c[i], k).None?)
  {
    hide Passed, AfterSet;
    var after := AfterSet(c[i], k, v, ttl, deadline, capacity);
    SetBalance(c[i], k, v, ttl, deadline, capacity);
    NothingExpires(c[i], k, v, ttl, deadline, capacity);
    PassedUpdate(c, counts, i, after.items, Leaving(counts[i], after));
  }

  lemma GetOrSetPasses(c: Contents, counts: seq<Counts>, i: nat, k: Key, v: Value, ttl: Nanos, deadline: Nanos,
                       now: Nanos, sliding: bool, capacity: nat)
    requires i < |c| == |counts| && Distinct(c[i]) && |c[i]| <= capacity && capacity > 0
    ensures var after := AfterGetOrSet(c[i], k, v, ttl, deadline, now, sliding, capacity);
            Passed(c[i := after.items], counts[i := Leaving(counts[i], after)]) ==
            Passed(c, counts) + One(AfterGet(c[i], k, now, sliding).found.None?)
  {
    hide Passed, AfterSet, AfterGet;
    var got := AfterGet(c[i], k, now, sliding);
    var after := AfterGetOrSet(c[i], k, v, ttl, deadline, now, sliding, capacity);
    GetBalance(c[i], k, now, sliding);
    SetBalance(got.items, k, v, ttl, deadline, capacity);
    PassedUpdate(c, counts, i, after.items, Leaving(counts[i], after));
  }

  lemma TakePasses(c: Contents, counts: seq<Counts>, i: nat, k: Key, now: Nanos)
    requires i < |c| == |counts| && Distinct(c[i])
    ensures var after := AfterGetAndDelete(c[i], k, now);
            Passed(c[i := after.items], counts[i := Expiring(counts[i], after.expired)]) + One(after.found.Some?) ==
            Passed(c, counts)
  {
    hide Passed;
    var after := AfterGetAndDelete(c[i], k, now);
    Lose(c[i], k);
    PassedUpdate(c, counts, i, after.items, Expiring(counts[i], after.expired));
  }

  lemma DropPasses(c: Contents, i: nat, k: Key)
    requires i < |c| && Distinct(c[i])
    ensures TotalItems(c[i := Without(c[i], {k})], |c|) + One(k in Keys(c[i])) == TotalItems(c, |c|)
  {
    Lose(c[i], k);
    TotalUpdate(c, |c|, i, Without(c[i], {k}));
  }

  lemma CountOneMore(keys: seq<Key>, i: nat, resident: set<Key>)
    requires i < |keys|
    ensures KeySet(keys[..i + 1]) == KeySet(keys[..i]) + {keys[i]}
    ensures |KeySet(keys[..i + 1]) * resident| ==
              |KeySet(keys[..i]) * resident| + (if keys[i] in resident && keys[i] !in KeySet(keys[..i]) then 1 else 0)
  {
    assert keys[..i + 1] == keys[..i] + [keys[i]];
    var before, after := KeySet(keys[..i]) * resident, KeySet(keys[..i + 1]) * resident;
    if keys[i] in resident && keys[i] !in KeySet(keys[..i]) {
      assert after == before + {keys[i]};
    } else {
      assert after == before;
    }
  }
}

/** The mutations of a cache: under state locks, and with every call for a mutated key forgotten first. */
module Mutations {
  import opened Types
  import opened Deadlines
  import opened SegmentModel
  import opened Balances
  import opened Waves
  import opened Singleflight
  import opened Drains
  import opened Routing
  import opened SegmentedStorage
  import opened Segments
  import opened LockPlans
  import opened Batches

  class Cache {
    const store: Store
    const groups: seq<Group>
    const hash: Key -> nat
    const defaultTTL: Int64
    const jitter: Nanos

    var deletedEntries: seq<nat>
    var clearedEntries: nat

    // How many entries have ever been inserted under a key that was not there.
    ghost var inserted: nat

    // The state of each group and every call; the state locks held by this operation for writing and for reading, and
    // what it has done with the former.
    ghost var flights: seq<Flight>
    ghost var calls: set<Call>
    ghost var held: set<nat>
    ghost var shared: set<nat>
    ghost var trace: seq<LockEvent>

    function Route(k: Key): nat
      requires |store.segments| > 0
    {
      SegmentIndex(hash(k), |store.segments|, Mask(|store.segments|))
    }

    ghost function Router(): Router
      requires |store.segments| > 0
    {
      k => hash(k) % |store.segments|
    }

    lemma Routed(k: Key)
      requires |store.segments| > 0
      ensures Route(k) == Router()(k) < |store.segments|
    {
      RouteIsRemainder(hash(k), |store.segments|);
    }

    ghost predicate Grouped()
      reads this`flights, this`calls, groups, calls
    {
      && |groups| == |flights|
      && (forall i {:trigger groups[i]} :: 0 <= i < |groups| ==>
            CallSet(groups[i].calls) <= calls && groups[i].Valid() && groups[i].flight == flights[i])
      && (forall i :: 0 <= i < |flights| ==> Disciplined(flights[i]))
      && (forall i, j {:trigger groups[i], groups[j]} :: 0 <= i < j < |groups| ==>
            groups[i] != groups[j] && CallSet(groups[i].calls) !! CallSet(groups[j].calls))
    }

    ghost predicate Apart()
      reads this`calls, store`Repr
    {
      && this !in store.Repr
      && (forall i :: 0 <= i < |groups| ==> groups[i] !in store.Repr)
      && (forall c :: c in calls ==> c !in store.Repr)
    }

    ghost predicate Valid()
      reads this`deletedEntries, this`flights, this`calls, store, store.Repr, store.segments, groups, calls
    {
      && store.Valid() && Grouped() && Apart()
      && |store.segments| == |store.contents| == |groups| == |deletedEntries| > 0
      && Placed(store.contents, Router())
      && FlightsPlaced(flights, Router())
    }

    /**
     * Every entry ever inserted is in a segment, or has been evicted, expired, deleted or cleared, and is counted
     * there.
     */
    ghost predicate Balanced()
      reads this`inserted, this`deletedEntries, this`clearedEntries, store`contents, store`counts
    {
      inserted == Passed(store.contents, store.counts) + Sum(deletedEntries) + clearedEntries
    }

    constructor (maxEntries: nat, segmentCount: nat, resolution: Int64, slidingExpiration: bool, hash: Key -> nat,
                 defaultTTL: Int64, jitter: Nanos)
      requires 0 < segmentCount <= maxEntries && resolution > 0
      ensures Valid() && Balanced() && held == shared == {} && trace == [] && Resident(store.contents) == {}
      ensures this.hash == hash && |store.segments| == |store.contents| == segmentCount
      ensures forall i :: 0 <= i < segmentCount ==>
                && store.segments[i].maxEntries == Share(maxEntries, segmentCount, i)
                && store.segments[i].slidingExpiration == slidingExpiration && store.contents[i] == []
      ensures fresh(store) && fresh(store.Repr) && this !in store.Repr
    {
      hide Store.Valid, Group.Valid, Passed, Sum, SegmentIndex, Mask, Share, Disciplined, Placed, FlightsPlaced,
           Grouped, Resident;
      var built := new Store(maxEntries, segmentCount, resolution, slidingExpiration);
      built.SegmentCounts();
      var gs := NewGroups(segmentCount);
      Cache.NoCalls(gs);
      store, groups := built, gs;
      this.hash, this.defaultTTL, this.jitter := hash, defaultTTL, jitter;
      deletedEntries, clearedEntries := seq(segmentCount, _ => 0), 0;
      inserted := 0;
      SumZero(seq(segmentCount, _ => 0));
      flights, calls := seq(segmentCount, _ => Flight([], map[])), {};
      held, shared, trace := {}, {}, [];
      new;
      forall i | 0 <= i < |groups|
        ensures groups[i].Valid() && groups[i].calls == [] && groups[i].flight == flights[i] == Flight([], map[])
      {
        assert groups[i] == gs[i];
      }
      NothingGrouped();
      NothingPlaced(store.contents, flights, Router());
    }

    lemma NothingGrouped()
      requires |groups| == |flights|
      requires forall i :: 0 <= i < |groups| ==>
                 groups[i].Valid() && groups[i].calls == [] && groups[i].flight == flights[i] == Flight([], map[])
      requires forall i, j {:trigger groups[i], groups[j]} :: 0 <= i < j < |groups| ==> groups[i] != groups[j]
      ensures Grouped()
    {
      hide Group.Valid;
      NoCalls(groups);
    }

    lemma NothingPlaced(c: Contents, flights: seq<Flight>, route: Router)
      requires forall i :: 0 <= i < |c| ==> c[i] == []
      requires forall i :: 0 <= i < |flights| ==> flights[i] == Flight([], map[])
      ensures Placed(c, route) && FlightsPlaced(flights, route) && Resident(c) == {}
    {
    }

    static method NewGroups(n: nat) returns (gs: seq<Group>)
      ensures |gs| == n
      ensures forall i :: 0 <= i < n ==>
                fresh(gs[i]) && gs[i].Valid() && gs[i].calls == [] && gs[i].flight == Flight([], map[])
      ensures forall i, j {:trigger gs[i], gs[j]} :: 0 <= i < j < n ==> gs[i] != gs[j]
    {
      gs := [];
      for index := 0 to n
        invariant |gs| == index
        invariant forall i :: 0 <= i < index ==>
                    fresh(gs[i]) && gs[i].Valid() && gs[i].calls == [] && gs[i].flight == Flight([], map[])
        invariant forall i, j {:trigger gs[i], gs[j]} :: 0 <= i < j < index ==> gs[i] != gs[j]
      {
        var group := new Group();
        gs := gs + [group];
      }
    }

    static lemma NoCalls(gs: seq<Group>)
      requires forall i :: 0 <= i < |gs| ==> gs[i].calls == []
      ensures forall i :: 0 <= i < |gs| ==> CallSet(gs[i].calls) == {}
      ensures Disciplined(Flight([], map[]))
    {
    }

    // ------------------------------------------------------------ state locks

    /** Only a lock of a higher segment than every lock held may be taken. */
    method Lock(index: nat)
      requires forall l :: l in held ==> l < index
      modifies this`held, this`trace
      ensures held == old(held) + {index} && trace == old(trace) + [Acquired(index)]
    {
      held, trace := held + {index}, trace + [Acquired(index)];
    }

    method Unlock(index: nat)
      requires index in held
      modifies this`held, this`trace
      ensures held == old(held) - {index} && trace == old(trace) + [Released(index)]
    {
      held, trace := held - {index}, trace + [Released(index)];
    }

    /** Loads register and publish under a read lock, and hold no other. */
    method RLock(index: nat)
      requires held == shared == {}
      modifies this`shared
      ensures shared == {index}
    {
      shared := {index};
    }

    method RUnlock(index: nat)
      requires shared == {index}
      modifies this`shared
      ensures shared == {}
    {
      shared := {};
    }

    // ------------------------------------------------------------ one key

    method ForgetAt(index: nat, key: Key)
      requires Grouped() && Apart() && index < |groups|
      modifies this`flights, groups, calls
      ensures Grouped() && Apart()
      ensures |flights| == |old(flights)| && flights == old(flights)[index := Forgot(old(flights)[index], key)]
    {
      hide Group.Valid, Disciplined;
      ForgetDiscipline(flights[index], key);
      groups[index].Forget(key);
      flights := flights[index := groups[index].flight];
    }

    lemma PlaceForgotten(key: Key)
      requires Valid()
      ensures Router()(key) < |store.segments| == |flights| == |groups| && this !in store.Repr
      ensures FlightsPlaced(flights[Router()(key) := Forgot(flights[Router()(key)], key)], Router())
    {
      hide Store.Valid, FlightsPlaced, Router;
      Routed(key);
      ForgottenPlaced(flights, key, Router());
    }

    /** Forgets the call of a key under the lock of its segment. */
    method ForgetLocked(index: nat, key: Key)
      requires Valid() && index == Router()(key) && index in held
      modifies this`flights, groups, calls
      ensures Valid() && index < |flights| == |old(flights)|
      ensures flights == old(flights)[index := Forgot(old(flights)[index], key)]
    {
      hide Store.Valid, Router, Grouped, Placed, FlightsPlaced, Disciplined;
      Routed(key);
      PlaceForgotten(key);
      ForgetAt(index, key);
    }

    /** What the store holds in the segment of a key, and how much it may. */
    lemma SegmentOf(key: Key)
      requires Valid()
      ensures var i := Router()(key);
              && i < |store.contents| == |store.counts| == |store.segments| == |groups| == |flights| == |deletedEntries|
              && Distinct(store.contents[i])
              && |store.contents[i]| <= store.segments[i].maxEntries && store.segments[i].maxEntries > 0
      ensures this !in store.Repr && Placed(store.contents, Router())
    {
      hide Segment.Valid, Grouped, Router;
      Routed(key);
      Sizes();
      var i := Router()(key);
      store.segments[i].StillDistinct();
      store.segments[i].WithinCapacity();
    }

    method LookupLocked(index: nat, key: Key, now: Nanos) returns (found: Option<Item>)
      requires Valid() && index == Router()(key)
      modifies store, store.Repr
      ensures Valid() && old(store.Repr) <= store.Repr && fresh(store.Repr - old(store.Repr))
      ensures flights == old(flights) && deletedEntries == old(deletedEntries) && clearedEntries == old(clearedEntries)
      ensures held == old(held) && trace == old(trace) && inserted == old(inserted)
      ensures index < |old(store.contents)| && index < |store.segments|
      ensures var got := AfterGet(old(store.contents)[index], key, now, store.segments[index].slidingExpiration);
              store.contents == old(store.contents)[index := got.items] && found == got.found
      ensures Passed(store.contents, store.counts) == Passed(old(store.contents), old(store.counts))
    {
      hide Store.Valid, Router, Grouped, Placed, FlightsPlaced, AfterGet, Passed;
      SegmentOf(key);
      ghost var s, g := store.contents[index], store.segments[index];
      GetKeys(s, key, now, g.slidingExpiration);
      PlacedUpdate(store.contents, index, AfterGet(s, key, now, g.slidingExpiration).items, key, Router());
      LookupPasses(store.contents, store.counts, index, key, now, g.slidingExpiration);
      found := store.LookupAt(index, key, now);
    }

    method SetLocked(index: nat, key: Key, value: Value, ttl: Nanos, deadline: Nanos)
      requires Valid() && index == Router()(key) && index in held + shared
      modifies this`inserted, store, store.Repr
      ensures Valid() && old(store.Repr) <= store.Repr && fresh(store.Repr - old(store.Repr))
      ensures flights == old(flights) && deletedEntries == old(deletedEntries) && clearedEntries == old(clearedEntries)
      ensures held == old(held) && trace == old(trace)
      ensures index < |old(store.contents)| && index < |store.segments|
      ensures var after := AfterSet(old(store.contents)[index], key, value, ttl, deadline,
                store.segments[index].maxEntries);
              store.contents == old(store.contents)[index := after.items]
      ensures inserted - old(inserted) ==
                Passed(store.contents, store.counts) - Passed(old(store.contents), old(store.counts))
    {
      hide Store.Valid, Router, Grouped, Placed, FlightsPlaced, AfterSet, Passed, Found;
      SegmentOf(key);
      ghost var s, capacity := store.contents[index], store.segments[index].maxEntries;
      SetKeys(s, key, value, ttl, deadline, capacity);
      PlacedUpdate(store.contents, index, AfterSet(s, key, value, ttl, deadline, capacity).items, key, Router());
      SetPasses(store.contents, store.counts, index, key, value, ttl, deadline, capacity);
      inserted := inserted + One(Found(s, key).None?);
      store.SetAt(index, key, value, ttl, deadline);
    }

    method GetOrSetLocked(index: nat, key: Key, value: Value, ttl: Nanos, deadline: Nanos, now: Nanos)
      returns (current: Item, found: bool)
      requires Valid() && index == Router()(key) && index in held
      modifies this`inserted, store, store.Repr
      ensures Valid() && old(store.Repr) <= store.Repr && fresh(store.Repr - old(store.Repr))
      ensures flights == old(flights) && deletedEntries == old(deletedEntries) && clearedEntries == old(clearedEntries)
      ensures held == old(held) && trace == old(trace)
      ensures index < |old(store.contents)| && index < |store.segments|
      ensures var s, g := old(store.contents)[index], store.segments[index];
              var after := AfterGetOrSet(s, key, value, ttl, deadline, now, g.slidingExpiration, g.maxEntries);
              && store.contents == old(store.contents)[index := after.items] && Some(current) == after.found
              && found == AfterGet(s, key, now, g.slidingExpiration).found.Some?
      ensures inserted - old(inserted) ==
                Passed(store.contents, store.counts) - Passed(old(store.contents), old(store.counts))
    {
      hide Store.Valid, Router, Grouped, Placed, FlightsPlaced, AfterGetOrSet, AfterGet, Passed;
      SegmentOf(key);
      ghost var s, g := store.contents[index], store.segments[index];
      GetOrSetKeys(s, key, value, ttl, deadline, now, g.slidingExpiration, g.maxEntries);
      PlacedUpdate(store.contents, index,
                   AfterGetOrSet(s, key, value, ttl, deadline, now, g.slidingExpiration, g.maxEntries).items, key,
                       Router());
      GetOrSetPasses(store.contents, store.counts, index, key, value, ttl, deadline, now, g.slidingExpiration,
          g.maxEntries);
      inserted := inserted + One(AfterGet(s, key, now, g.slidingExpiration).found.None?);
      current, found := store.GetOrSetAt(index, key, value, ttl, deadline, now);
    }

    method TakeLocked(index: nat, key: Key, now: Nanos) returns (found: Option<Value>)
      requires Valid() && index == Router()(key) && index in held
      modifies store, store.Repr
      ensures Valid() && store.Repr == old(store.Repr)
      ensures flights == old(flights) && deletedEntries == old(deletedEntries) && clearedEntries == old(clearedEntries)
      ensures held == old(held) && trace == old(trace) && inserted == old(inserted)
      ensures index < |old(store.contents)|
      ensures var after := AfterGetAndDelete(old(store.contents)[index], key, now);
              && store.contents == old(store.contents)[index := after.items]
              && found == (if after.found.Some? then Some(after.found.value.value) else None)
      ensures Passed(store.contents, store.counts) + One(found.Some?) == Passed(old(store.contents), old(store.counts))
    {
      hide Store.Valid, Router, Grouped, Placed, FlightsPlaced, AfterGetAndDelete, Passed;
      SegmentOf(key);
      ghost var s := store.contents[index];
      TakeKeys(s, key, now);
      PlacedUpdate(store.contents, index, AfterGetAndDelete(s, key, now).items, key, Router());
      TakePasses(store.contents, store.counts, index, key, now);
      found := store.GetAndDeleteAt(index, key, now);
    }

    // ------------------------------------------------------------ one key

    method Get(key: Key, now: Nanos) returns (found: Option<Item>)
      requires Valid()
      modifies store, store.Repr
      ensures Valid() && old(store.Repr) <= store.Repr && fresh(store.Repr - old(store.Repr))
      ensures old(Balanced()) ==> Balanced()
      ensures var i := Router()(key);
              && i < |old(store.contents)| && i < |store.segments|
              && var got := AfterGet(old(store.contents)[i], key, now, store.segments[i].slidingExpiration);
                 store.contents == old(store.contents)[i := got.items] && found == got.found
    {
      hide Valid, Router, AfterGet, Passed;
      SegmentOf(key);
      Routed(key);
      found := LookupLocked(Route(key), key, now);
    }

    method Exists(key: Key, now: Nanos) returns (found: bool)
      requires Valid()
      modifies store, store.Repr
      ensures Valid() && old(store.Repr) <= store.Repr && fresh(store.Repr - old(store.Repr))
      ensures old(Balanced()) ==> Balanced()
      ensures var i := Router()(key);
              && i < |old(store.contents)|
              && var c := AfterExists(old(store.contents)[i], key, now);
                 store.contents == old(store.contents)[i := c.items] && found == c.found.Some?
    {
      hide Store.Valid, Router, Grouped, Placed, FlightsPlaced, AfterExists, Passed;
      SegmentOf(key);
      Routed(key);
      ghost var index := Router()(key);
      ghost var s := store.contents[index];
      ExistsKeys(s, key, now);
      PlacedUpdate(store.contents, index, AfterExists(s, key, now).items, key, Router());
      ExistsPasses(store.contents, store.counts, index, key, now);
      found := store.ExistsAt(Route(key), key, now);
    }

    method RefreshTTL(key: Key, now: Nanos) returns (found: bool)
      requires Valid()
      modifies store, store.Repr
      ensures Valid() && old(store.Repr) <= store.Repr && fresh(store.Repr - old(store.Repr))
      ensures old(Balanced()) ==> Balanced()
      ensures var i := Router()(key);
              && i < |old(store.contents)|
              && var c := AfterRefreshTTL(old(store.contents)[i], key, now);
                 store.contents == old(store.contents)[i := c.items] && found == c.found.Some?
    {
      hide Store.Valid, Router, Grouped, Placed, FlightsPlaced, AfterRefreshTTL, Passed;
      SegmentOf(key);
      Routed(key);
      ghost var index := Router()(key);
      ghost var s := store.contents[index];
      RefreshKeys(s, key, now);
      PlacedUpdate(store.contents, index, AfterRefreshTTL(s, key, now).items, key, Router());
      RefreshPasses(store.contents, store.counts, index, key, now);
      found := store.RefreshAt(Route(key), key, now);
    }

    method Set(key: Key, value: Value, expiration: Int64, now: Nanos, draw: Int64 -> Int64)
      requires Valid() && held == {} && IsDraw(draw)
      modifies this`inserted, this`flights, this`held, this`trace, groups, calls, store, store.Repr
      ensures Valid() && held == {} && old(store.Repr) <= store.Repr && fresh(store.Repr - old(store.Repr))
      ensures old(Balanced()) ==> Balanced()
      ensures var i := Router()(key);
              var ttl := EffectiveTTL(expiration, defaultTTL, jitter, draw);
              && i < |old(store.contents)| && i < |old(flights)| && i < |store.segments|
              && flights == old(flights)[i := Forgot(old(flights)[i], key)]
              && var after := AfterSet(old(store.contents)[i], key, value, ttl, DeadlineAfter(now, ttl),
                                       store.segments[i].maxEntries);
                 && store.contents == old(store.contents)[i := after.items]
                 && trace == old(trace) + [Acquired(i), Released(i)]
    {
      hide Valid, Router, AfterSet, Passed, EffectiveTTL, Forgot;
      SegmentOf(key);
      Routed(key);
      var index := Route(key);
      Lock(index);
      ForgetLocked(index, key);
      var refreshTTL := EffectiveTTL(expiration, defaultTTL, jitter, draw);
      var deadline: Nanos := 0;
      if refreshTTL > 0 {
        deadline := DeadlineAfter(now, refreshTTL);
      }
      SegmentOf(key);
      SetLocked(index, key, value, refreshTTL, deadline);
      Unlock(index);
    }

    /** What is known of a call that the group of a segment has registered. */
    lemma FlightOf(index: nat, handle: Call)
      requires Valid() && index < |groups|
      requires handle.wave < |groups[index].calls| && handle == groups[index].calls[handle.wave]
      ensures index < |flights| && handle.wave < |flights[index].waves|
      ensures handle.forgotten == flights[index].waves[handle.wave].forgotten
    {
      hide Store.Valid;
      assert handle.Shows(groups[index].flight.waves[handle.wave]);
    }

    /**
     * What the owner of a load does once its loader has succeeded: under the read lock the result is dropped if a
     * barrier has overtaken the call, and otherwise stored, if there is any, with the ttl of the cache.
     */
    method PublishLoaded(key: Key, handle: Call, loaded: Option<Value>, finished: Nanos, draw: Int64 -> Int64)
      returns (superseded: bool)
      requires Valid() && held == shared == {} && IsDraw(draw) && Router()(key) < |groups|
      requires handle.wave < |groups[Router()(key)].calls| && handle == groups[Router()(key)].calls[handle.wave]
      modifies this`inserted, this`shared, store, store.Repr
      ensures Valid() && shared == {} && old(store.Repr) <= store.Repr && fresh(store.Repr - old(store.Repr))
      ensures old(Balanced()) ==> Balanced()
      ensures flights == old(flights) && trace == old(trace)
      ensures var i := Router()(key);
              var ttl := EffectiveTTL(DEFAULT_EXPIRATION, defaultTTL, jitter, draw);
              && i < |old(store.contents)| && i < |store.segments| && i < |flights|
              && handle.wave < |flights[i].waves| && superseded == flights[i].waves[handle.wave].forgotten
              && store.contents ==
                 if superseded || loaded.None? then old(store.contents)
                 else
                   var after := AfterSet(old(store.contents)[i], key, loaded.value, ttl, DeadlineAfter(finished, ttl),
                                         store.segments[i].maxEntries);
                   old(store.contents)[i := after.items]
    {
      hide Valid, Router, AfterSet, Passed, EffectiveTTL, Group.Valid;
      SegmentOf(key);
      Routed(key);
      var index := Route(key);
      FlightOf(index, handle);
      RLock(index);
      superseded := handle.forgotten;
      if !superseded && loaded.Some? {
        var refreshTTL := EffectiveTTL(DEFAULT_EXPIRATION, defaultTTL, jitter, draw);
        SetLocked(index, key, loaded.value, refreshTTL, DeadlineAfter(finished, refreshTTL));
      }
      RUnlock(index);
    }

    /**
     * The part of GetOrSet under the lock: an absent or expired entry is replaced. The call is forgotten in any case.
     */
    method InsertIfAbsent(key: Key, value: Value, expiration: Int64, now: Nanos, draw: Int64 -> Int64)
      returns (current: Item, found: bool)
      requires Valid() && held == {} && IsDraw(draw)
      modifies this`inserted, this`flights, this`held, this`trace, groups, calls, store, store.Repr
      ensures Valid() && held == {} && old(store.Repr) <= store.Repr && fresh(store.Repr - old(store.Repr))
      ensures old(Balanced()) ==> Balanced()
      ensures var i := Router()(key);
              var ttl := EffectiveTTL(expiration, defaultTTL, jitter, draw);
              && i < |old(store.contents)| && i < |old(flights)| && i < |store.segments|
              && flights == old(flights)[i := Forgot(old(flights)[i], key)]
              && var s, g := old(store.contents)[i], store.segments[i];
                 var after := AfterGetOrSet(s, key, value, ttl, DeadlineAfter(now, ttl), now, g.slidingExpiration,
                     g.maxEntries);
                 && store.contents == old(store.contents)[i := after.items] && Some(current) == after.found
                 && found == AfterGet(s, key, now, g.slidingExpiration).found.Some?
                 && trace == old(trace) + [Acquired(i), Released(i)]
    {
      hide Valid, Router, AfterGetOrSet, AfterGet, Passed, EffectiveTTL, Forgot;
      SegmentOf(key);
      Routed(key);
      var index := Route(key);
      Lock(index);
      ForgetLocked(index, key);
      var refreshTTL := EffectiveTTL(expiration, defaultTTL, jitter, draw);
      SegmentOf(key);
      current, found := GetOrSetLocked(index, key, value, refreshTTL, DeadlineAfter(now, refreshTTL), now);
      Unlock(index);
    }

    /** Only a miss takes the lock: a live entry is found by a plain lookup, and then nothing is forgotten. */
    method GetOrSet(key: Key, value: Value, expiration: Int64, first: Nanos, now: Nanos, draw: Int64 -> Int64)
      returns (current: Item, found: bool)
      requires Valid() && held == {} && IsDraw(draw)
      modifies this`inserted, this`flights, this`held, this`trace, groups, calls, store, store.Repr
      ensures Valid() && held == {} && old(store.Repr) <= store.Repr && fresh(store.Repr - old(store.Repr))
      ensures old(Balanced()) ==> Balanced()
      ensures var i := Router()(key);
              && i < |old(store.contents)| && i < |old(flights)| && i < |store.segments|
              && var s, g := old(store.contents)[i], store.segments[i];
                 var looked := AfterGet(s, key, first, g.slidingExpiration);
                 if looked.found.Some? then
                   && store.contents == old(store.contents)[i := looked.items] && flights == old(flights)
                   && Some(current) == looked.found && found && trace == old(trace)
                 else
                   var ttl := EffectiveTTL(expiration, defaultTTL, jitter, draw);
                   var after := AfterGetOrSet(looked.items, key, value, ttl, DeadlineAfter(now, ttl), now,
                                              g.slidingExpiration, g.maxEntries);
                   && store.contents == old(store.contents)[i := after.items] && Some(current) == after.found && !found
                   && flights == old(flights)[i := Forgot(old(flights)[i], key)]
                   && trace == old(trace) + [Acquired(i), Released(i)]
    {
      hide Valid, Router, AfterGetOrSet, AfterGet, Passed, EffectiveTTL, Forgot;
      SegmentOf(key);
      Routed(key);
      var index := Route(key);
      StillMissing(store.contents[index], key, first, now, store.segments[index].slidingExpiration);
      var looked := LookupLocked(index, key, first);
      SegmentOf(key);
      if looked.Some? {
        return looked.value, true;
      }
      current, found := InsertIfAbsent(key, value, expiration, now, draw);
    }

    lemma StillMissing(s: seq<Item>, key: Key, first: Nanos, now: Nanos, sliding: bool)
      ensures var looked := AfterGet(s, key, first, sliding);
              looked.found.None? ==> AfterGet(looked.items, key, now, sliding).found.None?
    {
      FoundNone(s, key);
      WithoutMembers(s, {key});
      FoundNone(Without(s, {key}), key);
    }

    method GetAndDelete(key: Key, now: Nanos) returns (found: Option<Value>)
      requires Valid() && held == {}
      modifies this`flights, this`held, this`trace, this`deletedEntries, groups, calls, store, store.Repr
      ensures Valid() && held == {} && store.Repr == old(store.Repr)
      ensures old(Balanced()) ==> Balanced()
      ensures var i := Router()(key);
              && i < |old(store.contents)| && i < |old(flights)| && i < |old(deletedEntries)|
              && flights == old(flights)[i := Forgot(old(flights)[i], key)]
              && var after := AfterGetAndDelete(old(store.contents)[i], key, now);
                 && store.contents == old(store.contents)[i := after.items]
                 && found == (if after.found.Some? then Some(after.found.value.value) else None)
                 && deletedEntries == old(deletedEntries)[i := old(deletedEntries)[i] + (if found.Some? then 1 else 0)]
                 && trace == old(trace) + [Acquired(i), Released(i)]
    {
      hide Valid, Router, AfterGetAndDelete, Passed, Forgot, Sum;
      SegmentOf(key);
      Routed(key);
      var index := Route(key);
      Lock(index);
      ForgetLocked(index, key);
      SegmentOf(key);
      found := TakeLocked(index, key, now);
      Unlock(index);
      SegmentOf(key);
      if found.Some? {
        RecordDelete(index, 1);
      }
    }

    /** Removes everything that is due, in batches. */
    method DeleteExpired(now: Nanos, batchSize: nat, entryBudget: nat) returns (removed: nat)
      requires Valid() && batchSize > 0 && entryBudget > 0
      modifies store, store.Repr
      ensures Valid() && store.Repr == old(store.Repr) && (old(Balanced()) ==> Balanced())
      ensures removed == TotalDue(old(store.contents), now, store.resolution)
      ensures |store.contents| == |old(store.contents)| && forall i :: 0 <= i < |store.contents| ==>
                store.contents[i] == Without(old(store.contents)[i],
                    DueKeys(old(store.contents)[i], now, store.resolution))
    {
      hide Store.Valid, Grouped, FlightsPlaced, Passed, TotalDue, DueKeys, Without, TotalExpired, TotalEvicted;
      Sizes();
      PositiveResolution();
      removed := store.CleanupExpired(now, batchSize, entryBudget);
      DrainedPlaced(old(store.contents), store.contents, now, store.resolution, Router());
    }

    lemma PositiveResolution()
      requires Valid()
      ensures store.resolution > 0
    {
    }

    /** Forgets the call of a key and removes the key, under the lock of its segment. */
    method DropLocked(index: nat, key: Key, ghost was: Contents, ghost before: seq<Flight>, ghost done: set<Key>)
      returns (removed: bool)
      requires Valid() && index == Router()(key) < |store.segments| && index in held
      requires Placed(was, Router()) && store.contents == WithoutAll(was, done)
      requires FlightsPlaced(before, Router()) && flights == ForgotEverywhere(before, done)
      requires forall i :: 0 <= i < |before| ==> Disciplined(before[i])
      modifies this`flights, groups, calls, store, store.Repr
      ensures Valid() && store.Repr == old(store.Repr)
      ensures store.contents == WithoutAll(was, done + {key})
      ensures flights == ForgotEverywhere(before, done + {key})
      ensures removed == (key in Resident(was) && key !in done)
      ensures store.counts == old(store.counts) && |store.contents| == |old(store.contents)|
      ensures TotalItems(store.contents, |store.contents|) + One(removed) ==
                old(TotalItems(store.contents, |store.contents|))
    {
      hide Group.Valid, Store.Valid, Disciplined, Placed, FlightsPlaced, WithoutAll, ForgotEverywhere, Grouped, Router,
           TotalItems;
      Sizes();
      store.AllDistinct();
      DropPasses(store.contents, index, key);
      Routed(key);
      RemoveOneMore(was, done, key, Router());
      ForgetOneMore(before, done, key, Router());
      RemovedPlaced(was, done + {key}, Router());
      ForgetAt(index, key);
      removed := store.DeleteAt(index, key);
    }

    lemma Sizes()
      requires Valid()
      ensures |store.segments| == |store.contents| == |groups| == |flights| == |deletedEntries| > 0
      ensures Placed(store.contents, Router()) && FlightsPlaced(flights, Router())
      ensures (forall i :: 0 <= i < |flights| ==> Disciplined(flights[i])) && this !in store.Repr
    {
    }

    /** What deleting `keys` has come to when those in `done` have been processed. */
    ghost predicate Deleting(was: Contents, before: seq<Flight>, done: set<Key>, removed: nat)
      reads this`deletedEntries, this`flights, this`calls, store, store.Repr, store.segments, groups, calls
    {
      && Valid()
      && Placed(was, Router()) && store.contents == WithoutAll(was, done)
      && FlightsPlaced(before, Router()) && flights == ForgotEverywhere(before, done)
      && (forall i :: 0 <= i < |before| ==> Disciplined(before[i]))
      && removed == |done * Resident(was)|
      && |was| == |store.contents|
      && TotalItems(store.contents, |store.contents|) + removed == TotalItems(was, |was|)
    }

    lemma StartDeleting()
      requires Valid()
      ensures Deleting(store.contents, flights, {}, 0)
    {
      hide Store.Valid, Grouped, Apart, Router;
      NothingRemoved(store.contents, flights);
      Sizes();
    }

    /** One step of a batch: the key at `i` goes. */
    method DropNext(keys: seq<Key>, i: nat, removed: nat, ghost was: Contents, ghost before: seq<Flight>)
      returns (count: nat)
      requires i < |keys| && Deleting(was, before, KeySet(keys[..i]), removed) && Route(keys[i]) in held
      modifies this`flights, groups, calls, store, store.Repr
      ensures Deleting(was, before, KeySet(keys[..i + 1]), count)
      ensures store.Repr == old(store.Repr) && store.counts == old(store.counts)
    {
      hide TotalItems, Valid, Placed, FlightsPlaced, WithoutAll, ForgotEverywhere, Router, KeySet, Resident,
           Disciplined;
      Sizes();
      CountOneMore(keys, i, Resident(was));
      Routed(keys[i]);
      var dropped := DropLocked(Route(keys[i]), keys[i], was, before, KeySet(keys[..i]));
      count := if dropped then removed + 1 else removed;
    }

    /** A completed deletion, as its caller sees it. */
    lemma Deleted(was: Contents, before: seq<Flight>, done: set<Key>, removed: nat)
      requires Deleting(was, before, done, removed)
      ensures Valid() && store.contents == WithoutAll(was, done) && flights == ForgotEverywhere(before, done)
      ensures removed == |done * Resident(was)| && |deletedEntries| == |store.segments| > 0
      ensures forall counts :: Passed(store.contents, counts) + removed == Passed(was, counts)
    {
    }

    method RecordDelete(index: nat, count: nat)
      requires Valid() && index < |deletedEntries|
      modifies this`deletedEntries
      ensures Valid() && |deletedEntries| == |old(deletedEntries)|
      ensures deletedEntries == old(deletedEntries)[index := old(deletedEntries)[index] + count]
      ensures Sum(deletedEntries) == old(Sum(deletedEntries)) + count
    {
      hide Store.Valid, Grouped, Sum;
      SumUpdate(deletedEntries, index, deletedEntries[index] + count);
      if count <= 0 {
        return;
      }
      deletedEntries := deletedEntries[index := deletedEntries[index] + count];
    }

    method DeleteOne(index: nat, key: Key) returns (removed: bool)
      requires Valid() && index == Router()(key) < |store.segments| && held == {}
      modifies this`flights, this`held, this`trace, groups, calls, store, store.Repr
      ensures Deleting(old(store.contents), old(flights), {key}, if removed then 1 else 0)
      ensures store.Repr == old(store.Repr) && store.counts == old(store.counts)
      ensures held == {} && trace == old(trace) + [Acquired(index), Released(index)]
    {
      hide TotalItems, Valid, Placed, FlightsPlaced, WithoutAll, ForgotEverywhere, Router, Resident, Disciplined;
      StartDeleting();
      Sizes();
      assert {} + {key} == {key};
      Lock(index);
      removed := DropLocked(index, key, old(store.contents), old(flights), {});
      assert {key} * Resident(old(store.contents)) == if removed then {key} else {};
      Unlock(index);
    }

    /** All keys of a batch go, in the order of the caller, under the only lock. */
    method DropEach(keys: seq<Key>, ghost was: Contents, ghost before: seq<Flight>) returns (removed: nat)
      requires Deleting(was, before, {}, 0) && |store.segments| == 1 && held == {0}
      modifies this`flights, groups, calls, store, store.Repr
      ensures Deleting(was, before, KeySet(keys), removed)
      ensures store.Repr == old(store.Repr) && store.counts == old(store.counts)
    {
      hide TotalItems, Router, Valid, Placed, FlightsPlaced, WithoutAll, ForgotEverywhere, Resident, Disciplined;
      Sizes();
      removed := 0;
      assert KeySet(keys[..0]) == {};
      for i := 0 to |keys|
        invariant Deleting(was, before, KeySet(keys[..i]), removed)
        invariant store.Repr == old(store.Repr) && store.counts == old(store.counts)
      {
        Routed(keys[i]);
        removed := DropNext(keys, i, removed, was, before);
      }
      assert keys[..|keys|] == keys;
    }

    /** A batch on a cache with one segment. */
    method DeleteUnderOneLock(keys: seq<Key>) returns (removed: nat)
      requires Valid() && |store.segments| == 1 && held == {}
      modifies this`flights, this`held, this`trace, groups, calls, store, store.Repr
      ensures Deleting(old(store.contents), old(flights), KeySet(keys), removed)
      ensures store.Repr == old(store.Repr) && store.counts == old(store.counts)
      ensures held == {} && trace == old(trace) + [Acquired(0), Released(0)]
    {
      hide TotalItems, Placed, FlightsPlaced, WithoutAll, ForgotEverywhere, Router, Resident, Disciplined, KeySet;
      StartDeleting();
      Lock(0);
      removed := DropEach(keys, old(store.contents), old(flights));
      Unlock(0);
    }

    method LockAll(targets: seq<Key>)
      requires |store.segments| > 0 && Sorted(targets, Router()) && held == {}
      modifies this`held, this`trace
      ensures held == SegmentSet(Locks(targets, Router()))
      ensures trace == old(trace) + AcquireAll(Locks(targets, Router()))
    {
      hide Locks;
      FirstLock(targets, Router());
      var previousLock: int := -1;
      for i := 0 to |targets|
        invariant previousLock == (if i == 0 then -1 else Router()(targets[i - 1]))
        invariant held == SegmentSet(Locks(targets[..i], Router()))
        invariant trace == old(trace) + AcquireAll(Locks(targets[..i], Router()))
      {
        NextLock(targets, i, Router());
        Routed(targets[i]);
        var index := Route(targets[i]);
        if index == previousLock {
          continue;
        }
        HigherLock(targets, i, Router());
        Lock(index);
        previousLock := index;
      }
    }

    /** Releases, last first, exactly what LockAll acquired. */
    method UnlockAll(targets: seq<Key>)
      requires |store.segments| > 0 && Sorted(targets, Router()) && held == SegmentSet(Locks(targets, Router()))
      modifies this`held, this`trace
      ensures held == {} && trace == old(trace) + ReleaseAll(Locks(targets, Router()))
    {
      hide Locks, StillLocked, Router;
      ghost var locks := Locks(targets, Router());
      ghost var left: nat := StartBack(targets, Router());
      var previousUnlock: int := -1;
      for i := |targets| downto 0
        invariant StillLocked(targets, i, locks, left, Router()) && left <= |locks|
        invariant previousUnlock == (if i == |targets| then -1 else Router()(targets[i]))
        invariant held == SegmentSet(locks[..left])
        invariant trace == old(trace) + ReleaseAll(locks)[..|locks| - left]
      {
        StepBack(targets, i, locks, left, Router());
        Routed(targets[i]);
        var index := Route(targets[i]);
        if index == previousUnlock {
          continue;
        }
        left := left - 1;
        LastOut(locks, left, Router(), targets);
        Unlock(index);
        previousUnlock := index;
      }
      NoneLocked(targets, locks, left, Router());
    }

    /** A batch over several segments: `targets` are the caller's keys, sorted by segment in any way. */
    method DeleteUnderLocks(targets: seq<Key>) returns (removed: nat)
      requires Valid() && Sorted(targets, Router()) && held == {}
      modifies this`flights, this`held, this`trace, groups, calls, store, store.Repr
      ensures Deleting(old(store.contents), old(flights), KeySet(targets), removed)
      ensures store.Repr == old(store.Repr) && store.counts == old(store.counts)
      ensures held == {}
      ensures trace == old(trace) + AcquireAll(Locks(targets, Router())) + ReleaseAll(Locks(targets, Router()))
    {
      hide TotalItems, Valid, Placed, FlightsPlaced, WithoutAll, ForgotEverywhere, Router, Resident, Disciplined,
           Sorted, Locks, KeySet;
      StartDeleting();
      Sizes();
      LockAll(targets);
      LocksCover(targets, Router());
      removed := 0;
      NoKeys(targets);
      for i := 0 to |targets|
        invariant Deleting(old(store.contents), old(flights), KeySet(targets[..i]), removed)
        invariant store.Repr == old(store.Repr) && store.counts == old(store.counts)
        invariant held == SegmentSet(Locks(targets, Router()))
        invariant trace == old(trace) + AcquireAll(Locks(targets, Router()))
      {
        Sizes();
        Routed(targets[i]);
        removed := DropNext(targets, i, removed, old(store.contents), old(flights));
      }
      assert targets[..|targets|] == targets;
      UnlockAll(targets);
    }

    /** Deletes `keys`; `targets` is the order in which the sort leaves them when there are several segments. */
    method Delete(keys: seq<Key>, targets: seq<Key>) returns (ghost removed: nat)
      requires Valid() && held == {}
      requires multiset(targets) == multiset(keys) && Sorted(targets, Router())
      modifies this`flights, this`held, this`trace, this`deletedEntries, groups, calls, store, store.Repr
      ensures Valid() && held == {} && store.Repr == old(store.Repr)
      ensures old(Balanced()) ==> Balanced()
      ensures store.contents == WithoutAll(old(store.contents), KeySet(keys))
      ensures flights == ForgotEverywhere(old(flights), KeySet(keys))
      ensures removed == |KeySet(keys) * Resident(old(store.contents))|
      ensures |deletedEntries| == |old(deletedEntries)| == |store.segments| > 0
      ensures keys != [] ==> Router()(keys[0]) < |old(deletedEntries)|
      ensures deletedEntries ==
                if keys == [] then old(deletedEntries)
                else old(deletedEntries)[Router()(keys[0]) := old(deletedEntries)[Router()(keys[0])] + removed]
      ensures var locks := Locks(targets, Router()); trace == old(trace) + AcquireAll(locks) + ReleaseAll(locks)
    {
      hide *;
      StartDeleting();
      Sizes();
      BalancedMeans();
      if keys == [] {
        NoLocks(keys, targets, Router());
        Deleted(store.contents, flights, {}, 0);
        return 0;
      }
      Routed(keys[0]);
      SameKeys(keys, targets);
      var index, count := Route(keys[0]), 0;
      if |keys| == 1 {
        var dropped := DeleteOne(index, keys[0]);
        count := if dropped then 1 else 0;
        OneLock(keys, targets, Router());
        OneLockTrace(index);
      } else if |groups| == 1 {
        count := DeleteUnderOneLock(keys);
        OneSegment(targets);
        OneLockTrace(0);
      } else {
        count := DeleteUnderLocks(targets);
      }
      removed := count;
      Deleted(old(store.contents), old(flights), KeySet(keys), removed);
      Sizes();
      RecordDelete(index, count);
      BalancedMeans();
    }

    lemma BalancedMeans()
      ensures Balanced() <==> inserted == Passed(store.contents, store.counts) + Sum(deletedEntries) + clearedEntries
    {
    }

    /** Conservation, in the counters as they are kept. */
    lemma Conservation()
      requires Valid() && Balanced()
      ensures inserted == TotalItems(store.contents, |store.contents|)
                          + EvictionsOf(store.stats) + ExpirationsOf(store.stats) + Sum(deletedEntries) + clearedEntries
    {
      store.CountersKept();
    }

    lemma OneSegment(targets: seq<Key>)
      requires |store.segments| == 1 && targets != []
      ensures Locks(targets, Router()) == [0]
    {
      if |targets| > 1 {
        OneSegment(targets[..|targets| - 1]);
      }
      Routed(targets[|targets| - 1]);
    }

    method ForgetAllAt(index: nat)
      requires Grouped() && Apart() && index < |groups|
      modifies this`flights, groups, calls
      ensures Grouped() && Apart()
      ensures |flights| == |old(flights)| && flights == old(flights)[index := ForgotAll(old(flights)[index])]
    {
      hide Group.Valid, Disciplined;
      ForgetAllDiscipline(flights[index]);
      groups[index].ForgetAll();
      flights := flights[index := groups[index].flight];
    }

    method LockEvery()
      requires held == {}
      modifies this`held, this`trace
      ensures held == SegmentSet(UpTo(|groups|)) && trace == old(trace) + AcquireAll(UpTo(|groups|))
    {
      hide *;
      UpToStep(0, |groups|);
      for index := 0 to |groups|
        invariant held == SegmentSet(UpTo(index)) && trace == old(trace) + AcquireAll(UpTo(index))
      {
        UpToStep(index, |groups|);
        Lock(index);
      }
    }

    method UnlockEvery()
      requires held == SegmentSet(UpTo(|groups|))
      modifies this`held, this`trace
      ensures held == {} && trace == old(trace) + ReleaseAll(UpTo(|groups|))
    {
      hide *;
      UpToStep(0, |groups|);
      var index: int := |groups| - 1;
      while index >= 0
        invariant -1 <= index < |groups|
        invariant held == SegmentSet(UpTo(index + 1))
        invariant trace == old(trace) + ReleaseAll(UpTo(|groups|))[..|groups| - 1 - index]
      {
        UpToStep(index, |groups|);
        Unlock(index);
        index := index - 1;
      }
    }

    method ForgetEverything()
      requires Valid()
      modifies this`flights, groups, calls
      ensures Valid()
      ensures flights == seq(|old(flights)|, i requires 0 <= i < |old(flights)| => ForgotAll(old(flights)[i]))
    {
      hide Group.Valid, Store.Valid, Disciplined, ForgotAll, Placed, FlightsPlaced, Router;
      for index := 0 to |groups|
        invariant Grouped() && Apart() && |flights| == |old(flights)|
        invariant forall i :: 0 <= i < index ==> flights[i] == ForgotAll(old(flights)[i])
        invariant forall i :: index <= i < |flights| ==> flights[i] == old(flights)[i]
      {
        ForgetAllAt(index);
      }
      NothingLive(old(flights), flights);
    }

    method EmptyStore() returns (deleted: nat)
      requires Valid()
      modifies store, store.Repr
      ensures Valid() && store.Repr == old(store.Repr)
      ensures held == old(held) && trace == old(trace) && flights == old(flights) && inserted == old(inserted)
      ensures deletedEntries == old(deletedEntries) && clearedEntries == old(clearedEntries)
      ensures Resident(store.contents) == {} && deleted == TotalItems(old(store.contents), |old(store.contents)|)
      ensures Passed(store.contents, store.counts) + deleted == Passed(old(store.contents), old(store.counts))
    {
      hide Store.Valid, Grouped, FlightsPlaced, TotalItems, TotalEvicted, TotalExpired;
      Sizes();
      deleted := store.DeleteAll();
      NothingHeld(store.contents, |store.contents|);
    }

    /** Empties the cache under all its locks, after forgetting every call. */
    method Clear() returns (ghost removed: nat)
      requires Valid() && held == {}
      modifies this`flights, this`held, this`trace, this`clearedEntries, groups, calls, store, store.Repr
      ensures Valid() && held == {} && store.Repr == old(store.Repr)
      ensures old(Balanced()) ==> Balanced()
      ensures Resident(store.contents) == {} && removed == TotalItems(old(store.contents), |old(store.contents)|)
      ensures clearedEntries == old(clearedEntries) + removed
      ensures flights == seq(|old(flights)|, i requires 0 <= i < |old(flights)| => ForgotAll(old(flights)[i]))
      ensures trace == old(trace) + AcquireAll(UpTo(|groups|)) + ReleaseAll(UpTo(|groups|))
    {
      hide Valid, SegmentSet, UpTo, AcquireAll, ReleaseAll, ForgotAll, TotalItems, Passed, Sum, Resident;
      Sizes();
      LockEvery();
      ForgetEverything();
      Sizes();
      var deleted := EmptyStore();
      UnlockEvery();
      if deleted > 0 {
        clearedEntries := clearedEntries + deleted;
      }
      removed := deleted;
    }

    lemma NothingLive(before: seq<Flight>, after: seq<Flight>)
      requires |store.segments| > 0
      requires |before| == |after| && forall i :: 0 <= i < |after| ==> after[i] == ForgotAll(before[i])
      ensures FlightsPlaced(after, Router())
    {
    }
  }
}
