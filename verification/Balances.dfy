/** How each operation changes the number of entries of a segment. */
module Balances {
  import opened Types
  import opened SegmentModel

  ghost function One(condition: bool): nat {
    if condition then 1 else 0
  }

  /** What a list without duplicates loses when one key is taken out. */
  lemma Lose(s: seq<Item>, k: Key)
    requires Distinct(s)
    ensures Distinct(Without(s, {k})) && |Without(s, {k})| == |s| - One(Found(s, k).Some?)
    ensures Found(s, k).Some? <==> k in Keys(s)
    ensures Found(Without(s, {k}), k).None?
    ensures Found(s, k).Some? ==> Found(s, k).value.key == k
  {
    FoundNone(s, k);
    WithoutMembers(s, {k});
    FoundNone(Without(s, {k}), k);
    if Found(s, k).Some? {
      var i :| 0 <= i < |s| && s[i] == Found(s, k).value;
      WithoutAt(s, i);
    } else {
      WithoutNone(s, {k});
    }
  }

  /** Putting an item in front of a list that does not have its key. */
  lemma Gain(s: seq<Item>, it: Item)
    requires Distinct(s) && Found(s, it.key).None?
    ensures Distinct([it] + s) && |[it] + s| == |s| + 1
    ensures s != [] ==> Distinct([it] + s[..|s| - 1])
  {
    FoundNone(s, it.key);
    forall i | 0 <= i < |s| ensures s[i].key != it.key {
      assert s[i] in s;
    }
  }

  lemma GetBalance(s: seq<Item>, k: Key, now: Nanos, sliding: bool)
    requires Distinct(s)
    ensures var c := AfterGet(s, k, now, sliding);
            && Distinct(c.items) && |c.items| + c.expired == |s| && c.evicted == 0
            && (c.found.None? ==> Found(c.items, k).None?)
  {
    hide Found, Without, Distinct, Keys;
    Lose(s, k);
    if Found(s, k).Some? {
      var it := Found(s, k).value;
      Gain(Without(s, {k}), if sliding then Refreshed(it, now) else it);
    }
  }

  lemma ExistsBalance(s: seq<Item>, k: Key, now: Nanos)
    requires Distinct(s)
    ensures var c := AfterExists(s, k, now);
            Distinct(c.items) && |c.items| + c.expired == |s|
  {
    Lose(s, k);
  }

  lemma RefreshBalance(s: seq<Item>, k: Key, now: Nanos)
    requires Distinct(s)
    ensures var c := AfterRefreshTTL(s, k, now);
            Distinct(c.items) && |c.items| + c.expired == |s|
  {
    Lose(s, k);
  }

  lemma SetBalance(s: seq<Item>, k: Key, v: Value, ttl: Nanos, deadline: Nanos, capacity: nat)
    requires Distinct(s) && 0 < capacity && |s| <= capacity
    ensures var c := AfterSet(s, k, v, ttl, deadline, capacity);
            && Distinct(c.items) && |c.items| <= capacity
            && |c.items| + c.evicted == |s| + One(Found(s, k).None?)
  {
    hide Found, Without, Distinct, Keys;
    var it := Item(k, v, if deadline == 0 then 0 else ttl, deadline);
    Lose(s, k);
    if Found(s, k).Some? {
      Gain(Without(s, {k}), it);
    } else {
      Gain(s, it);
    }
  }

  lemma NothingTwice()
    ensures Distinct([])
  {
  }

  lemma CleanupBalance(s: seq<Item>, s': seq<Item>, gone: set<Key>, now: Nanos, resolution: Int64)
    requires resolution > 0 && Distinct(s) && Reclaimed(s, s', gone, now, resolution)
    ensures Distinct(s') && |s'| + |gone| == |s|
  {
    WithoutMembers(s, gone);
    DistinctCount(s);
    DistinctCount(s');
    assert gone <= Keys(s);
    assert |Keys(s) - gone| == |Keys(s)| - |gone|;
  }

  lemma {:induction false} DistinctCount(s: seq<Item>)
    requires Distinct(s)
    ensures |Keys(s)| == |s|
  {
    if s != [] {
      DistinctCount(s[1..]);
      assert s == [s[0]] + s[1..];
      assert Keys(s) == Keys(s[1..]) + {s[0].key};
      assert s[0].key !in Keys(s[1..]);
    }
  }
}
