/** What the operations on a list of items mean for each of its keys, whatever the list does to get there. */
module SegmentLaws {
  import opened Types
  import opened Lists
  import opened Deadlines
  import opened SegmentModel

  /** `it` can be found at `now`. */
  ghost predicate Live(it: Item, now: Nanos) {
    it.deadline == 0 || now < it.deadline
  }

  ghost predicate Has(s: seq<Item>, it: Item) {
    exists i :: 0 <= i < |s| && s[i] == it
  }

  /** `s` has a live item of `k`. */
  ghost predicate HasLive(s: seq<Item>, k: Key, now: Nanos) {
    exists i :: 0 <= i < |s| && s[i].key == k && Live(s[i], now)
  }

  /** `s` has an item of `k` that has expired. */
  ghost predicate HasExpired(s: seq<Item>, k: Key, now: Nanos) {
    exists i :: 0 <= i < |s| && s[i].key == k && 0 < s[i].deadline <= now
  }

  /** The items of `s'` are items of `s`, in the same order. */
  ghost predicate InOrderOf(s': seq<Item>, s: seq<Item>) {
    exists at: seq<nat> :: Picks(s', s, at)
  }

  ghost predicate Picks(s': seq<Item>, s: seq<Item>, at: seq<nat>) {
    && |at| == |s'|
    && (forall i :: 0 <= i < |at| ==> at[i] < |s| && s'[i] == s[at[i]])
    && (forall i, j :: 0 <= i < j < |at| ==> at[i] < at[j])
  }

  /** Exactly the item of `k` has gone from `s` to `s'`; the others are as they were, in their order. */
  ghost predicate OnlyWithout(s': seq<Item>, s: seq<Item>, k: Key) {
    InOrderOf(s', s) && forall it :: Has(s', it) <==> Has(s, it) && it.key != k
  }

  lemma {:induction false} WithoutInOrder(s: seq<Item>, ks: set<Key>)
    ensures InOrderOf(Without(s, ks), s)
  {
    if s == [] {
      assert Picks([], s, []);
    } else {
      WithoutInOrder(s[1..], ks);
      PickedLater(Without(s[1..], ks), s);
    }
  }

  lemma PickedLater(rest: seq<Item>, s: seq<Item>)
    requires s != [] && InOrderOf(rest, s[1..])
    ensures InOrderOf(rest, s) && InOrderOf([s[0]] + rest, s)
  {
    var at: seq<nat> :| Picks(rest, s[1..], at);
    var moved: seq<nat> := seq(|at|, i requires 0 <= i < |at| => at[i] + 1);
    assert Picks(rest, s, moved);
    var all: seq<nat> := [0] + moved;
    forall i | 0 <= i < |all| ensures all[i] < |s| && ([s[0]] + rest)[i] == s[all[i]] {
      assert i > 0 ==> all[i] == moved[i - 1];
    }
    assert Picks([s[0]] + rest, s, all);
  }

  lemma WithoutOne(s: seq<Item>, k: Key)
    ensures OnlyWithout(Without(s, {k}), s, k)
  {
    WithoutInOrder(s, {k});
    WithoutMembers(s, {k});
    forall it ensures Has(Without(s, {k}), it) <==> Has(s, it) && it.key != k {
      assert Has(s, it) <==> it in s;
      assert Has(Without(s, {k}), it) <==> it in Without(s, {k});
    }
  }

  lemma FindsTheOne(s: seq<Item>, it: Item)
    requires Distinct(s) && Has(s, it)
    ensures Found(s, it.key) == Some(it)
    ensures forall other :: Has(s, other) && other.key == it.key ==> other == it
  {
    var i :| 0 <= i < |s| && s[i] == it;
    FoundAt(s, i);
  }

  lemma FindsNone(s: seq<Item>, k: Key)
    ensures Found(s, k).None? <==> forall i :: 0 <= i < |s| ==> s[i].key != k
    ensures Found(s, k).Some? ==> Has(s, Found(s, k).value) && Found(s, k).value.key == k
  {
    FoundNone(s, k);
    if k !in Keys(s) {
      forall i | 0 <= i < |s| ensures s[i].key != k {
        assert s[i] in s;
      }
    }
  }

  /** What is found of `k`, if anything. */
  lemma Cases(s: seq<Item>, k: Key, now: Nanos)
    requires Distinct(s)
    ensures HasLive(s, k, now) <==> Found(s, k).Some? && Live(Found(s, k).value, now)
    ensures HasExpired(s, k, now) <==> Found(s, k).Some? && !Live(Found(s, k).value, now)
    ensures Found(s, k).Some? ==> Has(s, Found(s, k).value) && Found(s, k).value.key == k
  {
    FindsNone(s, k);
    forall i | 0 <= i < |s| && s[i].key == k ensures Found(s, k) == Some(s[i]) {
      FoundAt(s, i);
    }
  }

  /**
   * When a lookup may find `k`: exactly while it is live. An expired item is reclaimed and counted, nothing else is.
   */
  ghost predicate Seen(s: seq<Item>, k: Key, now: Nanos, c: Change) {
    && (c.found.Some? <==> HasLive(s, k, now))
    && c.expired == (if HasExpired(s, k, now) then 1 else 0)
    && c.evicted == 0
    && (HasExpired(s, k, now) ==> OnlyWithout(c.items, s, k))
    && (!HasLive(s, k, now) && !HasExpired(s, k, now) ==> c.items == s)
  }

  /** The deadline of `it` after a renewal at `now`: never earlier than before. */
  ghost predicate Renewed(it: Item, it': Item, now: Nanos) {
    && it' == it.(deadline := it'.deadline)
    && (it.ttl == 0 ==> it'.deadline == it.deadline)
    && (it.ttl > 0 ==> it'.deadline == if it.deadline > Min(now + it.ttl, MAX_INT64) then it.deadline
                                       else Min(now + it.ttl, MAX_INT64))
  }

  /**
   * A get finds `k` exactly while its item is live, returns it with its own value and ttl and, if sliding, with a
   * renewed deadline, and brings it to the front. All other items stay as they are.
   */
  ghost predicate Got(s: seq<Item>, k: Key, now: Nanos, sliding: bool, c: Change) {
    && Seen(s, k, now, c)
    && forall i :: 0 <= i < |s| && s[i].key == k && Live(s[i], now) ==>
         && c.found.Some? && c.items != [] && c.items[0] == c.found.value
         && (if sliding then Renewed(s[i], c.found.value, now) else c.found.value == s[i])
         && OnlyWithout(c.items[1..], s, k)
  }

  lemma GetMeans(s: seq<Item>, k: Key, now: Nanos, sliding: bool)
    requires Distinct(s)
    ensures Got(s, k, now, sliding, AfterGet(s, k, now, sliding))
  {
    hide Without, Found, OnlyWithout, Distinct;
    Cases(s, k, now);
    WithoutOne(s, k);
    forall i | 0 <= i < |s| && s[i].key == k ensures Found(s, k) == Some(s[i]) {
      FindsTheOne(s, s[i]);
    }
  }

  /** An existence check finds the same, and leaves a live item where and as it is. */
  lemma ExistsMeans(s: seq<Item>, k: Key, now: Nanos)
    requires Distinct(s)
    ensures var c := AfterExists(s, k, now);
            Seen(s, k, now, c) && (HasLive(s, k, now) ==> c.items == s)
  {
    hide Without, Found, OnlyWithout, Distinct;
    Cases(s, k, now);
    WithoutOne(s, k);
  }

  /** Position by position: the item of `k` is renewed, the others stay as they are. */
  ghost predicate RenewedInPlace(s: seq<Item>, s': seq<Item>, k: Key, now: Nanos) {
    && |s'| == |s|
    && forall i :: 0 <= i < |s| ==> if s[i].key == k then Renewed(s[i], s'[i], now) else s'[i] == s[i]
  }

  lemma RefreshMeans(s: seq<Item>, k: Key, now: Nanos)
    requires Distinct(s)
    ensures var c := AfterRefreshTTL(s, k, now);
            Seen(s, k, now, c) && (HasLive(s, k, now) ==> RenewedInPlace(s, c.items, k, now))
  {
    hide Without, OnlyWithout, Found;
    Cases(s, k, now);
    WithoutOne(s, k);
    if HasLive(s, k, now) {
      var i :| 0 <= i < |s| && s[i].key == k && Live(s[i], now);
      FoundAt(s, i);
    }
  }

  /** A take returns exactly a live item, as it was, and in any case leaves the list without the key. */
  lemma TakeMeans(s: seq<Item>, k: Key, now: Nanos)
    requires Distinct(s)
    ensures var c := AfterGetAndDelete(s, k, now);
            && Seen(s, k, now, c) && OnlyWithout(c.items, s, k)
            && forall it :: Has(s, it) && it.key == k && Live(it, now) ==> c.found == Some(it)
  {
    hide Without, Found, OnlyWithout, Distinct;
    Cases(s, k, now);
    WithoutOne(s, k);
    forall it | Has(s, it) && it.key == k ensures Found(s, k) == Some(it) {
      FindsTheOne(s, it);
    }
    if Found(s, k).None? {
      Itself(s);
      FindsNone(s, k);
      assert OnlyWithout(s, s, k) by { NotThere(s, k); }
    }
  }

  lemma Itself(s: seq<Item>)
    ensures InOrderOf(s, s)
  {
    assert Picks(s, s, seq(|s|, i => i));
  }

  lemma NotThere(s: seq<Item>, k: Key)
    requires forall i :: 0 <= i < |s| ==> s[i].key != k
    ensures OnlyWithout(s, s, k)
  {
    Itself(s);
  }

  /**
   * A set puts exactly the given value and deadline in front, with the given ttl unless there is no deadline. Of the
   * other items all stay as they are, except the last of a full list when the key was not there.
   */
  ghost predicate Put(s: seq<Item>, k: Key, v: Value, ttl: Nanos, deadline: Nanos, capacity: nat, c: Change) {
    && c.items != [] && c.found == Some(c.items[0])
    && c.items[0].key == k && c.items[0].value == v && c.items[0].deadline == deadline
    && c.items[0].ttl == (if deadline == 0 then 0 else ttl)
    && c.expired == 0
    && if exists i :: 0 <= i < |s| && s[i].key == k then c.evicted == 0 && OnlyWithout(c.items[1..], s, k)
       else if |s| < capacity then c.evicted == 0 && c.items[1..] == s
       else c.evicted == 1 && s != [] && c.items[1..] == s[..|s| - 1]
  }

  lemma SetMeans(s: seq<Item>, k: Key, v: Value, ttl: Nanos, deadline: Nanos, capacity: nat)
    requires Distinct(s) && 0 < capacity && |s| <= capacity
    ensures Put(s, k, v, ttl, deadline, capacity, AfterSet(s, k, v, ttl, deadline, capacity))
  {
    hide Without, Found, OnlyWithout, Distinct;
    WithoutOne(s, k);
    FindsNone(s, k);
  }

  /** A get-or-set gives the live item as a get does, or else what a set puts where the expired item has been. */
  ghost predicate GotOrPut(s: seq<Item>, k: Key, v: Value, ttl: Nanos, deadline: Nanos, now: Nanos, sliding: bool,
                           capacity: nat, c: Change)
  {
    if HasLive(s, k, now) then Got(s, k, now, sliding, c)
    else
      && c.expired == (if HasExpired(s, k, now) then 1 else 0)
      && exists rest :: OnlyWithout(rest, s, k) && Put(rest, k, v, ttl, deadline, capacity, c.(expired := 0))
  }

  lemma GetOrSetMeans(s: seq<Item>, k: Key, v: Value, ttl: Nanos, deadline: Nanos, now: Nanos, sliding: bool,
                      capacity: nat)
    requires Distinct(s) && 0 < capacity && |s| <= capacity
    ensures GotOrPut(s, k, v, ttl, deadline, now, sliding, capacity,
                     AfterGetOrSet(s, k, v, ttl, deadline, now, sliding, capacity))
  {
    hide Without, OnlyWithout, AfterSet, AfterGet, Distinct, HasLive, HasExpired;
    GetMeans(s, k, now, sliding);
    if !HasLive(s, k, now) {
      Missed(s, k, now, sliding);
      SetMeans(AfterGet(s, k, now, sliding).items, k, v, ttl, deadline, capacity);
    }
  }

  /** A get that finds nothing leaves a list without the key. */
  lemma Missed(s: seq<Item>, k: Key, now: Nanos, sliding: bool)
    requires Distinct(s) && !HasLive(s, k, now)
    ensures var rest := AfterGet(s, k, now, sliding).items;
            OnlyWithout(rest, s, k) && Distinct(rest) && |rest| <= |s|
  {
    hide Without, OnlyWithout;
    Cases(s, k, now);
    WithoutOne(s, k);
    WithoutMembers(s, {k});
    FindsNone(s, k);
    if Found(s, k).None? {
      NotThere(s, k);
    }
  }

  /** What a set has stored is what the next get returns, exactly until its deadline. */
  lemma SetThenGet(s: seq<Item>, k: Key, v: Value, ttl: Nanos, deadline: Nanos, capacity: nat, now: Nanos,
                   sliding: bool)
    requires Distinct(s) && 0 < capacity && |s| <= capacity
    ensures var stored := AfterSet(s, k, v, ttl, deadline, capacity).items;
            var c := AfterGet(stored, k, now, sliding);
            && Distinct(stored)
            && (c.found.Some? <==> deadline == 0 || now < deadline)
            && (c.found.Some? ==> c.found.value.value == v && c.found.value.key == k)
            && (c.found.Some? && !sliding ==> c.found.value.deadline == deadline)
  {
    hide AfterSet, AfterGet, OnlyWithout;
    var stored := AfterSet(s, k, v, ttl, deadline, capacity).items;
    SetMeans(s, k, v, ttl, deadline, capacity);
    StaysDistinct(s, k, v, ttl, deadline, capacity);
    GetMeans(stored, k, now, sliding);
    assert Has(stored, stored[0]);
    assert forall i :: 0 < i < |stored| ==> stored[i].key != stored[0].key;
  }

  lemma StaysDistinct(s: seq<Item>, k: Key, v: Value, ttl: Nanos, deadline: Nanos, capacity: nat)
    requires Distinct(s) && 0 < capacity
    ensures Distinct(AfterSet(s, k, v, ttl, deadline, capacity).items)
  {
    WithoutMembers(s, {k});
    FindsNone(s, k);
    var rest := Without(s, {k});
    assert forall i :: 0 <= i < |rest| ==> rest[i] in rest;
  }

  /** What is in front is what the next get finds, exactly while it is live. */
  lemma FrontIsFound(s: seq<Item>, now: Nanos, sliding: bool)
    requires Distinct(s) && s != []
    ensures var c := AfterGet(s, s[0].key, now, sliding);
            && (c.found.Some? <==> Live(s[0], now))
            && (c.found.Some? ==> c.found.value.key == s[0].key && c.found.value.value == s[0].value)
            && (c.found.Some? && !sliding ==> c.found.value == s[0])
  {
    hide AfterGet, OnlyWithout;
    GetMeans(s, s[0].key, now, sliding);
    assert forall i :: 0 < i < |s| ==> s[i].key != s[0].key;
  }

  /** Whatever a get finds, and whatever a get-or-set finds or stores, is in front afterwards. */
  lemma InFront(s: seq<Item>, k: Key, v: Value, ttl: Nanos, deadline: Nanos, now: Nanos, sliding: bool, capacity: nat)
    requires Distinct(s) && 0 < capacity && |s| <= capacity
    ensures var got := AfterGet(s, k, now, sliding);
            got.found.Some? ==> got.items != [] && got.found.value == got.items[0] && got.items[0].key == k
    ensures var c := AfterGetOrSet(s, k, v, ttl, deadline, now, sliding, capacity);
            && c.items != [] && c.found == Some(c.items[0]) && c.items[0].key == k
            && (!HasLive(s, k, now) ==> c.items[0].value == v && c.items[0].deadline == deadline)
  {
    hide AfterGet, AfterGetOrSet, OnlyWithout;
    GetMeans(s, k, now, sliding);
    GetOrSetMeans(s, k, v, ttl, deadline, now, sliding, capacity);
  }
}
