/** The simple thing a storage segment must agree with: a list of items, most recently used first. */
module SegmentModel {
  import opened Types
  import opened Lists
  import opened Deadlines

  datatype Item = Item(key: Key, value: Value, ttl: Nanos, deadline: Nanos)

  /** What an operation did: the new list, the item it found or inserted, and what it reclaimed on the way. */
  datatype Change = Change(items: seq<Item>, found: Option<Item>, expired: nat, evicted: nat)

  ghost predicate Distinct(s: seq<Item>) {
    forall i, j :: 0 <= i < j < |s| ==> s[i].key != s[j].key
  }

  ghost function Keys(s: seq<Item>): set<Key> {
    set it | it in s :: it.key
  }

  predicate Expired(it: Item, now: Nanos) {
    it.deadline != 0 && now >= it.deadline
  }

  function Found(s: seq<Item>, k: Key): Option<Item> {
    if s == [] then None else if s[0].key == k then Some(s[0]) else Found(s[1..], k)
  }

  /** `s` without the items whose key is in `ks`, in the same order. */
  ghost function Without(s: seq<Item>, ks: set<Key>): seq<Item> {
    if s == [] then []
    else if s[0].key in ks then Without(s[1..], ks)
    else [s[0]] + Without(s[1..], ks)
  }

  ghost function Replaced(s: seq<Item>, it: Item): seq<Item> {
    seq(|s|, i requires 0 <= i < |s| => if s[i].key == it.key then it else s[i])
  }

  /** A deadline renewed at `now`; a stale `now` never brings it forward. */
  function Refreshed(it: Item, now: Nanos): Item {
    it.(deadline := Max(it.deadline, DeadlineAfter(now, it.ttl)))
  }

  ghost function Front(s: seq<Item>, it: Item): seq<Item> {
    [it] + Without(s, {it.key})
  }

  ghost function AfterGet(s: seq<Item>, k: Key, now: Nanos, sliding: bool): Change {
    match Found(s, k)
    case None => Change(s, None, 0, 0)
    case Some(it) =>
      if Expired(it, now) then
        Change(Without(s, {k}), None, 1, 0)
      else
        var shown := if sliding then Refreshed(it, now) else it;
        Change(Front(s, shown), Some(shown), 0, 0)
  }

  /** As AfterGet, but recency and deadline stay as they are. */
  ghost function AfterExists(s: seq<Item>, k: Key, now: Nanos): Change {
    match Found(s, k)
    case None => Change(s, None, 0, 0)
    case Some(it) => if Expired(it, now) then Change(Without(s, {k}), None, 1, 0) else Change(s, Some(it), 0, 0)
  }

  ghost function AfterRefreshTTL(s: seq<Item>, k: Key, now: Nanos): Change {
    match Found(s, k)
    case None => Change(s, None, 0, 0)
    case Some(it) =>
      if Expired(it, now) then
        Change(Without(s, {k}), None, 1, 0)
      else
        var shown := Refreshed(it, now);
        Change(Replaced(s, shown), Some(shown), 0, 0)
  }

  ghost function AfterSet(s: seq<Item>, k: Key, v: Value, ttl: Nanos, deadline: Nanos, capacity: nat): Change {
    var it := Item(k, v, if deadline == 0 then 0 else ttl, deadline);
    if Found(s, k).Some? then
      Change(Front(s, it), Some(it), 0, 0)
    else if |s| >= capacity > 0 then
      Change([it] + s[..|s| - 1], Some(it), 0, 1)
    else
      Change([it] + s, Some(it), 0, 0)
  }

  ghost function AfterGetOrSet(s: seq<Item>, k: Key, v: Value, ttl: Nanos, deadline: Nanos, now: Nanos,
                          sliding: bool, capacity: nat): Change
  {
    var got := AfterGet(s, k, now, sliding);
    if got.found.Some? then
      got
    else
      AfterSet(got.items, k, v, ttl, deadline, capacity).(expired := got.expired)
  }

  ghost function AfterGetAndDelete(s: seq<Item>, k: Key, now: Nanos): Change {
    match Found(s, k)
    case None => Change(s, None, 0, 0)
    case Some(it) =>
      if Expired(it, now) then
        Change(Without(s, {k}), None, 1, 0)
      else
        Change(Without(s, {k}), Some(it), 0, 0)
  }

  /** The keys whose bucket is due at `now`. */
  ghost function DueKeys(s: seq<Item>, now: Nanos, resolution: Int64): set<Key>
    requires resolution > 0
  {
    set it | it in s && Due(it.deadline, now, resolution) :: it.key
  }

  /** A cleanup pass with `limit` may turn `s` into `s'`, removing exactly `gone`. */
  ghost predicate Cleaned(s: seq<Item>, s': seq<Item>, gone: set<Key>, now: Nanos, limit: nat, resolution: Int64)
    requires resolution > 0
  {
    && gone <= DueKeys(s, now, resolution)
    && |gone| == Min(limit, |DueKeys(s, now, resolution)|)
    && s' == Without(s, gone)
    && (forall a, b :: a in s && b in s && a.key in gone && b.key !in gone && b.deadline > 0 ==>
          BucketId(a.deadline, resolution) <= BucketId(b.deadline, resolution))
  }

  // ---------------------------------------------------------------- facts

  lemma {:induction false} FoundAt(s: seq<Item>, i: nat)
    requires Distinct(s) && i < |s|
    ensures Found(s, s[i].key) == Some(s[i])
  {
    if i > 0 {
      assert s[0].key != s[i].key;
      assert s[1..][i - 1] == s[i];
      FoundAt(s[1..], i - 1);
    }
  }

  lemma {:induction false} FoundNone(s: seq<Item>, k: Key)
    ensures Found(s, k).None? <==> k !in Keys(s)
    ensures Found(s, k).Some? ==> Found(s, k).value in s && Found(s, k).value.key == k
  {
    if s != [] {
      FoundNone(s[1..], k);
      assert s == [s[0]] + s[1..];
      assert s[0].key in Keys(s);
      assert k in Keys(s) ==> k == s[0].key || k in Keys(s[1..]) by {
        if k in Keys(s) {
          var it :| it in s && it.key == k;
          assert it == s[0] || it in s[1..];
        }
      }
      assert k in Keys(s[1..]) ==> k in Keys(s);
    }
  }

  lemma {:induction false} WithoutMembers(s: seq<Item>, ks: set<Key>)
    ensures forall it :: it in Without(s, ks) <==> it in s && it.key !in ks
    ensures Keys(Without(s, ks)) == Keys(s) - ks
    ensures |Without(s, ks)| <= |s|
    ensures Distinct(s) ==> Distinct(Without(s, ks))
  {
    if s != [] {
      WithoutMembers(s[1..], ks);
      assert s == [s[0]] + s[1..];
      var rest := Without(s[1..], ks);
      forall it ensures it in Without(s, ks) <==> it in s && it.key !in ks {
        assert it in s <==> it == s[0] || it in s[1..];
      }
      if Distinct(s) {
        assert Distinct(s[1..]);
        assert forall i :: 0 <= i < |rest| ==> rest[i] in s[1..] && rest[i].key != s[0].key;
      }
    }
  }

  lemma {:induction false} WithoutNone(s: seq<Item>, ks: set<Key>)
    requires Keys(s) !! ks
    ensures Without(s, ks) == s
  {
    if s != [] {
      assert s[0].key in Keys(s);
      assert Keys(s[1..]) <= Keys(s);
      WithoutNone(s[1..], ks);
    }
  }

  /** Taking out one key of a list without duplicates takes out one position. */
  lemma {:induction false} WithoutAt(s: seq<Item>, i: nat)
    requires Distinct(s) && i < |s|
    ensures Without(s, {s[i].key}) == RemoveAt(s, i)
  {
    if i == 0 {
      assert s[0].key !in Keys(s[1..]);
      WithoutNone(s[1..], {s[0].key});
    } else {
      assert s[0].key != s[i].key;
      assert s[1..][i - 1] == s[i];
      WithoutAt(s[1..], i - 1);
      assert RemoveAt(s, i) == [s[0]] + RemoveAt(s[1..], i - 1);
    }
  }

  lemma {:induction false} WithoutConcat(s: seq<Item>, t: seq<Item>, ks: set<Key>)
    ensures Without(s + t, ks) == Without(s, ks) + Without(t, ks)
  {
    if s == [] {
      assert s + t == t;
    } else {
      WithoutConcat(s[1..], t, ks);
      assert (s + t)[1..] == s[1..] + t && (s + t)[0] == s[0];
      var rest, more := Without(s[1..], ks), Without(t, ks);
      assert [s[0]] + (rest + more) == ([s[0]] + rest) + more;
    }
  }

  /** Removing one set of keys after another is removing both at once. */
  lemma {:induction false} WithoutTwice(s: seq<Item>, ks: set<Key>, ls: set<Key>)
    ensures Without(Without(s, ks), ls) == Without(s, ks + ls)
  {
    if s != [] {
      WithoutTwice(s[1..], ks, ls);
      if s[0].key !in ks {
        assert Without(s, ks) == [s[0]] + Without(s[1..], ks);
      }
    }
  }

  lemma {:induction false} WithoutReplaced(s: seq<Item>, it: Item)
    ensures Without(Replaced(s, it), {it.key}) == Without(s, {it.key})
  {
    if s != [] {
      WithoutReplaced(s[1..], it);
      assert Replaced(s, it)[1..] == Replaced(s[1..], it);
    }
  }

  lemma ReplacedAt(s: seq<Item>, i: nat, it: Item)
    requires Distinct(s) && i < |s| && s[i].key == it.key
    ensures Replaced(s, it) == s[i := it]
  {
    assert forall j :: 0 <= j < |s| && j != i ==> s[j].key != s[i].key;
  }

  lemma WithoutLast(s: seq<Item>, it: Item)
    requires it.key !in Keys(s)
    ensures Without(s + [it], {it.key}) == s
  {
    WithoutConcat(s, [it], {it.key});
    WithoutNone(s, {it.key});
  }

  /** The last entry gets another deadline and comes to the front. */
  lemma VictimReused(kept: seq<Item>, before: Item, after: Item)
    requires before.key == after.key && before.key !in Keys(kept)
    ensures Front(Replaced(kept + [before], after), after) == [after] + kept
  {
    hide Without, Replaced;
    WithoutLast(kept, before);
    WithoutReplaced(kept + [before], after);
  }

  lemma ReplacedFirst(s: seq<Item>, before: Item, after: Item)
    requires before.key == after.key && before.key !in Keys(s)
    ensures Replaced([before] + s, after) == [after] + s
  {
    forall i | 0 <= i < |s| ensures s[i].key != before.key {
      assert s[i] in s;
    }
  }

  lemma ReplacedSame(s: seq<Item>, it: Item)
    requires Distinct(s) && Found(s, it.key) == Some(it)
    ensures Replaced(s, it) == s
  {
    FoundNone(s, it.key);
    var i :| 0 <= i < |s| && s[i] == it;
    ReplacedAt(s, i, it);
  }

  /** The due keys of a list are those removed plus those that stay due. */
  lemma DueSplit(s: seq<Item>, gone: set<Key>, now: Nanos, resolution: Int64)
    requires resolution > 0 && Distinct(s) && gone <= DueKeys(s, now, resolution)
    ensures DueKeys(s, now, resolution) == gone + DueKeys(Without(s, gone), now, resolution)
    ensures gone !! DueKeys(Without(s, gone), now, resolution)
    ensures |DueKeys(s, now, resolution)| == |gone| + |DueKeys(Without(s, gone), now, resolution)|
  {
    WithoutMembers(s, gone);
    assert |gone + DueKeys(Without(s, gone), now, resolution)| == |gone| + |DueKeys(Without(s, gone), now, resolution)|;
  }

  /** `it` is in the lowest bucket of `s`. */
  ghost predicate First(s: seq<Item>, it: Item, resolution: Int64)
    requires resolution > 0
  {
    && it in s && it.deadline > 0
    && forall other :: other in s && other.deadline > 0 ==>
         BucketId(it.deadline, resolution) <= BucketId(other.deadline, resolution)
  }

  lemma FirstExpires(s: seq<Item>, it: Item, resolution: Int64)
    requires resolution > 0 && First(s, it, resolution)
    ensures it.deadline > 0
  {
  }

  /** A partial cleanup of `s`: `gone` are due, and no remaining item is in a lower bucket. */
  ghost predicate Reclaimed(s: seq<Item>, s': seq<Item>, gone: set<Key>, now: Nanos, resolution: Int64)
    requires resolution > 0
  {
    && gone <= DueKeys(s, now, resolution)
    && s' == Without(s, gone)
    && (forall a, b :: a in s && b in s && a.key in gone && b.key !in gone && b.deadline > 0 ==>
          BucketId(a.deadline, resolution) <= BucketId(b.deadline, resolution))
  }

  lemma ReclaimStart(s: seq<Item>, now: Nanos, resolution: Int64)
    requires resolution > 0
    ensures Reclaimed(s, s, {}, now, resolution)
  {
    WithoutNone(s, {});
  }

  /** Reclaiming one more item, from the lowest bucket, when that bucket is due. */
  lemma ReclaimStep(s: seq<Item>, s': seq<Item>, gone: set<Key>, it: Item, now: Nanos, resolution: Int64)
    requires resolution > 0 && Distinct(s) && Reclaimed(s, s', gone, now, resolution)
    requires First(s', it, resolution) && Due(it.deadline, now, resolution)
    ensures Reclaimed(s, Without(s', {it.key}), gone + {it.key}, now, resolution)
    ensures it.key !in gone
  {
    hide BucketId, DueBucketId;
    WithoutMembers(s, gone);
    WithoutTwice(s, gone, {it.key});
    forall a, b | a in s && b in s && a.key in gone + {it.key} && b.key !in gone + {it.key} && b.deadline > 0
      ensures BucketId(a.deadline, resolution) <= BucketId(b.deadline, resolution)
    {
      assert b in s';
      if a.key == it.key {
        var i :| 0 <= i < |s| && s[i] == a;
        var j :| 0 <= j < |s| && s[j] == it;
        assert a == it;
      }
    }
  }

  /** A cleanup that stopped at its limit, or for lack of due items, removed as many as it should. */
  lemma ReclaimEnd(s: seq<Item>, s': seq<Item>, gone: set<Key>, now: Nanos, limit: nat, resolution: Int64)
    requires resolution > 0 && Distinct(s) && Reclaimed(s, s', gone, now, resolution)
    requires |gone| <= limit && (|gone| == limit || DueKeys(s', now, resolution) == {})
    ensures Cleaned(s, s', gone, now, limit, resolution)
    ensures DueKeys(s', now, resolution) != {} <==> |DueKeys(s, now, resolution)| > limit
  {
    DueSplit(s, gone, now, resolution);
  }

  /** A key has one item in a list without duplicates. */
  lemma OneItem(s: seq<Item>, a: Item, b: Item)
    requires Distinct(s) && a in s && b in s && a.key == b.key
    ensures a == b
  {
    var i :| 0 <= i < |s| && s[i] == a;
    var j :| 0 <= j < |s| && s[j] == b;
  }

  /**
   * What a cleanup means for deadlines: everything removed has expired, everything else is kept, and when it was not
   * cut short by its limit, nothing is left that expired a whole resolution ago.
   */
  lemma CleanedDeadlines(s: seq<Item>, s': seq<Item>, gone: set<Key>, now: Nanos, limit: nat, resolution: Int64,
                         it: Item)
    requires resolution > 0 && Distinct(s) && Cleaned(s, s', gone, now, limit, resolution) && it in s
    ensures it in s' <==> it.key !in gone
    ensures it.key in gone ==> 0 < it.deadline <= now
    ensures it.key !in gone && |DueKeys(s, now, resolution)| <= limit ==>
              it.deadline == 0 || it.deadline > now - resolution
  {
    hide BucketId, DueBucketId, Due;
    WithoutMembers(s, gone);
    DueIsExpired(it.deadline, now, resolution);
    DueExpires(it.deadline, now, resolution);
    if it.key in DueKeys(s, now, resolution) {
      var due :| due in s && Due(due.deadline, now, resolution) && due.key == it.key;
      OneItem(s, it, due);
    }
    if |DueKeys(s, now, resolution)| <= limit {
      SameSize(gone, DueKeys(s, now, resolution));
    }
  }

  lemma DueExpires(deadline: Nanos, now: Nanos, resolution: Int64)
    requires resolution > 0
    ensures Due(deadline, now, resolution) ==> deadline > 0
  {
  }

  lemma SameSize(a: set<Key>, b: set<Key>)
    requires a <= b && |a| == |b|
    ensures a == b
  {
    assert |b - a| == |b| - |a|;
  }
}
