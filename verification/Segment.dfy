/** A storage segment: key map, LRU list and expiration index over shared entries. */
module Segments {
  import opened Types
  import opened Lists
  import opened Deadlines
  import opened Entries
  import opened Expiration
  import C = Chains
  import opened SegmentModel

  /** The counters of a segment that are protected by its mutex. */
  class SegmentStats {
    var hitCount: nat
    var missCount: nat
    var evictionCount: nat
    var expirationCount: nat

    constructor ()
      ensures hitCount == missCount == evictionCount == expirationCount == 0
    {
      hitCount, missCount, evictionCount, expirationCount := 0, 0, 0, 0;
    }
  }

  /** The LRU links of `s[i]` point to its neighbours in `s`. */
  ghost predicate LruLinkedAt(s: seq<Entry>, i: nat)
    requires i < |s|
    reads Elems(s)`previous, Elems(s)`next
  {
    && s[i].previous == (if i == 0 then null else s[i - 1])
    && s[i].next == (if i == |s| - 1 then null else s[i + 1])
  }

  ghost function ItemOf(e: Entry): Item
    reads e`key, e`value, e`refreshTTL, e`deadline
  {
    Item(e.key, e.value, e.refreshTTL, e.deadline)
  }

  class Segment {
    var entries: map<Key, Entry>
    var head: Entry?
    var tail: Entry?
    const expirations: ExpirationIndex
    const slidingExpiration: bool
    const maxEntries: nat

    // The entries in LRU order, what they hold, and every object of the segment.
    ghost var order: seq<Entry>
    ghost var items: seq<Item>
    ghost var Repr: set<object>

    /** The LRU list holds `order`. */
    ghost predicate Listed()
      reads this`head, this`tail, this`order, Elems(order)`previous, Elems(order)`next
    {
      && NoDup(order)
      && head == (if order == [] then null else order[0])
      && tail == (if order == [] then null else order[|order| - 1])
      && (forall i {:trigger LruLinkedAt(order, i)} :: 0 <= i < |order| ==> LruLinkedAt(order, i))
    }

    /** The map finds exactly the listed entries, by key. */
    ghost predicate Mapped()
      reads this`entries, this`order, Elems(order)`key
    {
      && (forall k :: k in entries ==> entries[k] in Elems(order) && entries[k].key == k)
      && (forall e :: e in Elems(order) ==> e.key in entries && entries[e.key] == e)
    }

    /** `items` is what the listed entries hold. */
    ghost predicate Shown()
      reads this`order, this`items, Elems(order)`key, Elems(order)`value, Elems(order)`refreshTTL, Elems(order)`deadline
    {
      && |items| == |order|
      && (forall i :: 0 <= i < |order| ==> items[i] == ItemOf(order[i]))
    }

    /** List, map and `items` agree. */
    ghost predicate Tabled()
      reads this`entries, this`head, this`tail, this`order, this`items
      reads Elems(order)`key, Elems(order)`value, Elems(order)`refreshTTL, Elems(order)`deadline
      reads Elems(order)`previous, Elems(order)`next
    {
      Listed() && Mapped() && Shown()
    }

    /** Exactly the expiring entries are indexed. */
    ghost predicate Scheduled()
      reads this`order, Elems(order)`deadline, expirations`filed
    {
      forall e :: e in Elems(order) ==> (e in expirations.filed <==> e.deadline != 0)
    }

    /** The objects of the index are those of no other part. */
    ghost predicate Owned()
      reads this`order, this`Repr, expirations
    {
      && this in Repr && expirations in Repr
      && expirations.Footprint() <= Repr - {this}
      && Elems(order) <= Repr
      && Elems(order) !! expirations.Footprint()
      && expirations.filed.Keys <= Elems(order)
    }

    ghost predicate Bounded()
      reads this`order, Elems(order)`deadline, Elems(order)`refreshTTL
    {
      && |order| <= maxEntries && maxEntries > 0
      && (forall e :: e in Elems(order) && e.deadline == 0 ==> e.refreshTTL == 0)
    }

    ghost predicate Consistent()
      reads this, Repr
    {
      && expirations in Repr && Owned()
      && Tabled()
      && Scheduled()
      && expirations.Valid()
    }

    ghost predicate Valid()
      reads this, Repr
      ensures Valid() ==> this in Repr
    {
      Consistent() && Bounded() && expirations.resolution > 0
    }

    constructor (maxEntries: nat, resolution: Int64, slidingExpiration: bool)
      requires maxEntries > 0 && resolution > 0
      ensures Valid() && fresh(Repr) && items == []
      ensures this.maxEntries == maxEntries && this.slidingExpiration == slidingExpiration
      ensures expirations.resolution == resolution
    {
      entries := map[];
      head := null;
      tail := null;
      expirations := new ExpirationIndex(resolution);
      this.slidingExpiration := slidingExpiration;
      this.maxEntries := maxEntries;
      order := [];
      items := [];
      new;
      Repr := {this, expirations, expirations.heap, expirations.spares};
    }

    // ------------------------------------------------------------ LRU list

    method PushFrontLocked(item: Entry)
      requires Listed() && item !in Elems(order)
      modifies this`head, this`tail, this`order, Elems(order)`previous, item`previous, item`next
      ensures Listed() && order == [item] + old(order)
      ensures Elems(order) == old(Elems(order)) + {item}
    {
      item.previous := null;
      item.next := head;
      if head != null {
        head.previous := item;
      } else {
        tail := item;
      }
      head := item;
      ghost var s := order;
      order := [item] + s;
      forall k | 0 <= k < |order| ensures LruLinkedAt(order, k) {
        assert k > 0 ==> order[k] == s[k - 1] && old(LruLinkedAt(s, k - 1));
      }
    }

    method UnlinkLocked(item: Entry)
      requires Listed() && item in Elems(order)
      modifies this`head, this`tail, this`order, Elems(order)`previous, Elems(order)`next
      ensures Listed() && order == Minus(old(order), item)
      ensures Elems(order) == old(Elems(order)) - {item} && |order| == old(|order|) - 1
    {
      ghost var s, i := order, IndexOf(order, item);
      assert LruLinkedAt(s, i);
      MinusFacts(s, item);
      if item.previous != null {
        item.previous.next := item.next;
      } else {
        head := item.next;
      }
      if item.next != null {
        item.next.previous := item.previous;
      } else {
        tail := item.previous;
      }
      item.previous := null;
      item.next := null;
      order := RemoveAt(s, i);
      forall k | 0 <= k < |order| ensures LruLinkedAt(order, k) {
        var j := if k < i then k else k + 1;
        assert order[k] == s[j] && j != i && s[j] != item && old(LruLinkedAt(s, j));
        assert k > 0 ==> order[k - 1] == s[if k - 1 < i then k - 1 else k];
        assert k < |order| - 1 ==> order[k + 1] == s[if k + 1 < i then k + 1 else k + 2];
      }
    }

    method MoveToFrontLocked(item: Entry)
      requires Listed() && item in Elems(order)
      modifies this`head, this`tail, this`order, Elems(order)`previous, Elems(order)`next
      ensures Listed() && order == [item] + Minus(old(order), item)
      ensures Elems(order) == old(Elems(order)) && |order| == old(|order|)
    {
      if head == item {
        assert IndexOf(order, item) == 0;
        return;
      }
      hide LruLinkedAt, Minus;
      UnlinkLocked(item);
      PushFrontLocked(item);
    }

    // ------------------------------------------------------------ list, map and items

    /** The position of an entry, and what the model knows of it. */
    lemma Position(item: Entry) returns (i: nat)
      requires Tabled() && item in Elems(order)
      ensures i < |order| == |items| && order[i] == item && items[i] == ItemOf(item)
      ensures Minus(order, item) == RemoveAt(order, i)
      ensures Distinct(items)
      ensures Found(items, item.key) == Some(items[i])
      ensures Without(items, {item.key}) == RemoveAt(items, i)
    {
      i := IndexOf(order, item);
      ItemsDistinct();
      FoundAt(items, i);
      WithoutAt(items, i);
    }

    lemma ItemsDistinct()
      requires Tabled()
      ensures Distinct(items)
    {
      forall i, j | 0 <= i < j < |items| ensures items[i].key != items[j].key {
        assert order[i] in Elems(order) && order[j] in Elems(order);
      }
    }

    /** Takes an entry out of the map and out of the list. */
    method Forget(item: Entry)
      requires Tabled() && item in Elems(order)
      modifies this`entries, this`head, this`tail, this`order, this`items, Elems(order)`previous, Elems(order)`next
      ensures Tabled()
      ensures Elems(order) == old(Elems(order)) - {item} && |order| == old(|order|) - 1
      ensures items == Without(old(items), {item.key})
    {
      hide LruLinkedAt, Listed, Without, Found, Elems, Minus, NoDup;
      ghost var i := Position(item);
      entries := entries - {item.key};
      UnlinkLocked(item);
      items := RemoveAt(items, i);
    }

    twostate lemma StillMapped()
      requires old(Mapped()) && entries == old(entries) && Elems(order) == old(Elems(order))
      requires forall j :: 0 <= j < |old(order)| ==> old(order)[j].key == old(order[j].key)
      ensures Mapped()
    {
      forall e | e in Elems(order) ensures e.key == old(e.key) {
        var j :| 0 <= j < |old(order)| && old(order)[j] == e;
      }
    }

    twostate lemma ShownMoved(i: nat)
      requires old(Shown()) && i < |old(order)|
      requires order == [old(order)[i]] + RemoveAt(old(order), i) && items == [old(items)[i]] + RemoveAt(old(items), i)
      requires forall j :: 0 <= j < |old(order)| ==> ItemOf(old(order)[j]) == old(ItemOf(order[j]))
      ensures Shown()
    {
      forall k | 0 <= k < |order| ensures items[k] == ItemOf(order[k]) {
        var j := if k == 0 then i else if k <= i then k - 1 else k;
        assert order[k] == old(order)[j] && items[k] == old(items)[j];
      }
    }

    /** Moves an entry to the front of the list. */
    method Promote(item: Entry)
      requires Tabled() && item in Elems(order)
      modifies this`head, this`tail, this`order, this`items, Elems(order)`previous, Elems(order)`next
      ensures Tabled() && Elems(order) == old(Elems(order)) && |order| == old(|order|)
      ensures items == Front(old(items), ItemOf(item))
    {
      hide LruLinkedAt, Listed, Mapped, Shown, Without, Found, Elems, Minus, NoDup, RemoveAt;
      ghost var i := Position(item);
      MoveToFrontLocked(item);
      items := [items[i]] + RemoveAt(items, i);
      StillMapped();
      ShownMoved(i);
    }

    /** What the map finds is what the model finds. */
    lemma Find(key: Key)
      requires Tabled()
      ensures key in entries <==> Found(items, key).Some?
      ensures key in entries ==>
                entries[key] in Elems(order) && entries[key].key == key &&
                    Found(items, key) == Some(ItemOf(entries[key]))
    {
      FoundNone(items, key);
      if key in entries {
        var i := Position(entries[key]);
      } else {
        forall it | it in items ensures it.key != key {
          var i :| 0 <= i < |items| && items[i] == it;
          assert order[i] in Elems(order);
        }
      }
    }

    /** The map, the list and the model have the same length. */
    lemma Lengths()
      requires Tabled()
      ensures |entries| == |order| == |items|
    {
      var ks := set e | e in Elems(order) :: e.key;
      assert entries.Keys == ks;
      KeysCount(order);
    }

    lemma {:induction false} KeysCount(s: seq<Entry>)
      requires forall i, j :: 0 <= i < j < |s| ==> s[i].key != s[j].key
      ensures |set e | e in Elems(s) :: e.key| == |s|
    {
      if s != [] {
        var rest := s[1..];
        KeysCount(rest);
        var ks := set e | e in Elems(rest) :: e.key;
        assert s == [s[0]] + rest;
        assert (set e | e in Elems(s) :: e.key) == ks + {s[0].key};
        assert s[0].key !in ks;
      }
    }

    // ------------------------------------------------------------ one entry at a time

    method RemoveLocked(item: Entry)
      requires Valid() && item in Elems(order)
      modifies Repr
      ensures Valid() && Repr == old(Repr)
      ensures items == Without(old(items), {old(item.key)})
    {
      hide Tabled, ExpirationIndex.Valid, Without, Elems;
      expirations.Remove(item);
      Forget(item);
    }

    method WriteLocked(item: Entry, value: Value, refreshTTL: Nanos)
      requires Tabled() && item in Elems(order)
      modifies this`items, item`value, item`refreshTTL
      ensures Tabled() && item.value == value && item.refreshTTL == refreshTTL
      ensures items == Replaced(old(items), ItemOf(item))
    {
      hide LruLinkedAt, Without, Found, Elems, Minus, Replaced;
      ghost var i := Position(item);
      item.value := value;
      item.refreshTTL := refreshTTL;
      ReplacedAt(items, i, ItemOf(item));
      items := items[i := ItemOf(item)];
    }

    /** Moves an entry to another deadline in the index, and takes over what the index has allocated. */
    method Reindex(item: Entry, deadline: Nanos)
      requires Consistent() && item in Elems(order)
      modifies this`Repr, expirations.Footprint(), Elems(order)`expirationPrevious
      modifies Elems(order)`expirationNext, item`deadline
      ensures Owned() && Scheduled() && expirations.Valid() && Listed() && Mapped()
      ensures fresh(Repr - old(Repr)) && old(Repr) <= Repr && item.deadline == deadline
    {
      hide LruLinkedAt, Listed, Mapped, Shown, ExpirationIndex.Valid, Elems, C.Moved, NoDup;
      expirations.Update(item, deadline);
      Repr := Repr + expirations.Footprint();
    }

    /** Moves an entry to the front; the index does not change. */
    method Touch(item: Entry)
      requires Consistent() && item in Elems(order)
      modifies Repr
      ensures Consistent() && Repr == old(Repr) && Elems(order) == old(Elems(order)) && |order| == old(|order|)
      ensures items == Front(old(items), ItemOf(item)) && ItemOf(item) == old(ItemOf(item))
      ensures forall e :: e in Elems(order) ==> e.deadline == old(e.deadline) && e.refreshTTL == old(e.refreshTTL)
    {
      hide Tabled, ExpirationIndex.Valid, Elems, Front;
      Promote(item);
    }

    /** Gives an entry another deadline, in the index and in the entry. */
    method Reschedule(item: Entry, deadline: Nanos)
      requires Consistent() && item in Elems(order)
      modifies Repr
      ensures Consistent() && fresh(Repr - old(Repr)) && old(Repr) <= Repr
      ensures order == old(order) && entries == old(entries)
      ensures items == Replaced(old(items), ItemOf(item))
      ensures ItemOf(item) == old(ItemOf(item)).(deadline := deadline)
      ensures forall e :: e in Elems(order) && e != item ==>
                e.deadline == old(e.deadline) && e.refreshTTL == old(e.refreshTTL)
    {
      hide LruLinkedAt, Listed, Mapped, Scheduled, ExpirationIndex.Valid, Without, Found, Elems, Minus, Replaced;
      ghost var i := Position(item);
      Reindex(item, deadline);
      ReplacedAt(items, i, ItemOf(item));
      items := items[i := ItemOf(item)];
    }

    lemma LastIsApart()
      requires Listed()
      ensures forall i :: 0 <= i < |order| ==> order[i] in Elems(order)
      ensures forall i :: 0 <= i < |order| - 1 ==> order[i] != order[|order| - 1]
    {
    }

    /** Puts the entry at the back of the list under a new key, where it is. */
    method Rename(item: Entry, key: Key, value: Value, refreshTTL: Nanos)
      requires Tabled() && order != [] && item == order[|order| - 1] && key !in entries
      modifies this`entries, this`items, item`key, item`value, item`refreshTTL, item`deadline
      ensures Tabled()
      ensures ItemOf(item) == Item(key, value, refreshTTL, 0)
      ensures items == old(items)[..|old(items)| - 1] + [ItemOf(item)]
    {
      hide LruLinkedAt, Listed, Elems, NoDup;
      LastIsApart();
      entries := entries - {item.key};
      item.key := key;
      item.value := value;
      item.refreshTTL := refreshTTL;
      item.deadline := 0;
      entries := entries[key := item];
      items := items[..|items| - 1] + [ItemOf(item)];
    }

    /** Empties the least recently used entry and gives it to another key. */
    method RecycleLast(key: Key, value: Value, refreshTTL: Nanos) returns (item: Entry)
      requires Consistent() && order != [] && key !in entries
      modifies Repr
      ensures Consistent() && Repr == old(Repr) && order == old(order) && item in Elems(order)
      ensures ItemOf(item) == Item(key, value, refreshTTL, 0)
      ensures items == old(items)[..|old(items)| - 1] + [ItemOf(item)]
      ensures forall e :: e in Elems(order) && e != item ==>
                e.deadline == old(e.deadline) && e.refreshTTL == old(e.refreshTTL)
    {
      hide LruLinkedAt, Mapped, Shown, ExpirationIndex.Valid;
      assert order[|order| - 1] in Elems(order);
      item := tail;
      expirations.Remove(item);
      Rename(item, key, value, refreshTTL);
    }

    method AddFront(item: Entry)
      requires Tabled() && item !in Elems(order) && item.key !in entries
      modifies this`entries, this`head, this`tail, this`order, this`items
      modifies Elems(order)`previous, item`previous, item`next
      ensures Tabled() && Elems(order) == old(Elems(order)) + {item} && |order| == old(|order|) + 1
      ensures items == [ItemOf(item)] + old(items)
    {
      hide LruLinkedAt, Listed, Elems;
      entries := entries[item.key := item];
      PushFrontLocked(item);
      items := [ItemOf(item)] + items;
    }

    method InsertFront(key: Key, value: Value, refreshTTL: Nanos) returns (item: Entry)
      requires Consistent() && key !in entries
      modifies Repr
      ensures Consistent() && fresh(item) && Repr == old(Repr) + {item}
      ensures Elems(order) == old(Elems(order)) + {item} && |order| == old(|order|) + 1
      ensures ItemOf(item) == Item(key, value, refreshTTL, 0)
      ensures items == [ItemOf(item)] + old(items)
      ensures forall e :: e in old(Elems(order)) ==> e.deadline == old(e.deadline) && e.refreshTTL == old(e.refreshTTL)
    {
      hide Tabled, ExpirationIndex.Valid, Elems;
      item := new Entry(key, value, refreshTTL);
      AddFront(item);
      Repr := Repr + {item};
    }

    // ------------------------------------------------------------ operations

    method GetLocked(key: Key, now: Nanos, stats: SegmentStats) returns (found: Option<Item>)
      requires Valid() && stats !in Repr
      modifies Repr, stats`expirationCount
      ensures Valid() && fresh(Repr - old(Repr)) && old(Repr) <= Repr
      ensures var c := AfterGet(old(items), key, now, slidingExpiration);
              items == c.items && found == c.found && stats.expirationCount == old(stats.expirationCount) + c.expired
    {
      hide Tabled, ExpirationIndex.Valid, Without, Elems, Found;
      Find(key);
      if key !in entries {
        return None;
      }
      var item := entries[key];
      if item.deadline != 0 && now >= item.deadline {
        RemoveLocked(item);
        stats.expirationCount := stats.expirationCount + 1;
        return None;
      }
      if slidingExpiration && item.refreshTTL > 0 {
        var deadline := DeadlineAfter(now, item.refreshTTL);
        if deadline > item.deadline {
          WithoutReplaced(items, ItemOf(item).(deadline := deadline));
          Reschedule(item, deadline);
        }
      }
      Touch(item);
      found := Some(Item(item.key, item.value, item.refreshTTL, item.deadline));
    }

    method Lookup(key: Key, now: Nanos, stats: SegmentStats) returns (found: Option<Item>)
      requires Valid() && stats !in Repr
      modifies Repr, stats`hitCount, stats`missCount, stats`expirationCount
      ensures Valid() && fresh(Repr - old(Repr)) && old(Repr) <= Repr
      ensures var c := AfterGet(old(items), key, now, slidingExpiration);
              && items == c.items && found == c.found
              && stats.expirationCount == old(stats.expirationCount) + c.expired
              && stats.hitCount == old(stats.hitCount) + (if c.found.Some? then 1 else 0)
              && stats.missCount == old(stats.missCount) + (if c.found.None? then 1 else 0)
    {
      hide Valid, AfterGet;
      found := GetLocked(key, now, stats);
      if found.None? {
        stats.missCount := stats.missCount + 1;
      } else {
        stats.hitCount := stats.hitCount + 1;
      }
    }

    method Exists(key: Key, now: Nanos, stats: SegmentStats) returns (found: bool)
      requires Valid() && stats !in Repr
      modifies Repr, stats`expirationCount
      ensures Valid() && Repr == old(Repr)
      ensures var c := AfterExists(old(items), key, now);
              items == c.items && found == c.found.Some? &&
                  stats.expirationCount == old(stats.expirationCount) + c.expired
    {
      hide Tabled, ExpirationIndex.Valid, Without, Elems, Found;
      Find(key);
      if key !in entries {
        return false;
      }
      var item := entries[key];
      if item.deadline != 0 && now >= item.deadline {
        RemoveLocked(item);
        stats.expirationCount := stats.expirationCount + 1;
        return false;
      }
      found := true;
    }

    method RefreshTTL(key: Key, now: Nanos, stats: SegmentStats) returns (found: bool)
      requires Valid() && stats !in Repr
      modifies Repr, stats`expirationCount
      ensures Valid() && fresh(Repr - old(Repr)) && old(Repr) <= Repr
      ensures var c := AfterRefreshTTL(old(items), key, now);
              items == c.items && found == c.found.Some? &&
                  stats.expirationCount == old(stats.expirationCount) + c.expired
    {
      hide Tabled, ExpirationIndex.Valid, Without, Elems, Found, Replaced;
      Find(key);
      if key !in entries {
        return false;
      }
      var item := entries[key];
      if item.deadline != 0 && now >= item.deadline {
        RemoveLocked(item);
        stats.expirationCount := stats.expirationCount + 1;
        return false;
      }
      ItemsDistinct();
      ReplacedSame(items, ItemOf(item));
      if item.refreshTTL == 0 {
        return true;
      }
      var deadline := DeadlineAfter(now, item.refreshTTL);
      if deadline > item.deadline {
        Reschedule(item, deadline);
      }
      found := true;
    }

    method Overwrite(key: Key, value: Value, refreshTTL: Nanos, deadline: Nanos)
      requires Valid() && key in entries && (deadline == 0 ==> refreshTTL == 0)
      modifies Repr
      ensures Valid() && fresh(Repr - old(Repr)) && old(Repr) <= Repr
      ensures items == Front(old(items), Item(key, value, refreshTTL, deadline))
    {
      hide Tabled, ExpirationIndex.Valid, Without, Elems, Found, Replaced;
      Find(key);
      var item := entries[key];
      WriteLocked(item, value, refreshTTL);
      WithoutReplaced(old(items), ItemOf(item));
      WithoutReplaced(items, ItemOf(item).(deadline := deadline));
      Reschedule(item, deadline);
      Touch(item);
    }

    method ReuseVictim(key: Key, value: Value, refreshTTL: Nanos, deadline: Nanos)
      requires Valid() && key !in entries && order != [] && (deadline == 0 ==> refreshTTL == 0)
      modifies Repr
      ensures Valid() && fresh(Repr - old(Repr)) && old(Repr) <= Repr
      ensures |old(items)| > 0 && items == [Item(key, value, refreshTTL, deadline)] + old(items)[..|old(items)| - 1]
    {
      hide Tabled, ExpirationIndex.Valid, Without, Elems, Found, Replaced, Front;
      Find(key);
      Lengths();
      ghost var kept := items[..|items| - 1];
      FoundNone(items, key);
      var item := RecycleLast(key, value, refreshTTL);
      VictimReused(kept, ItemOf(item), ItemOf(item).(deadline := deadline));
      Reschedule(item, deadline);
      Touch(item);
    }

    method InsertNew(key: Key, value: Value, refreshTTL: Nanos, deadline: Nanos)
      requires Valid() && key !in entries && |order| < maxEntries && (deadline == 0 ==> refreshTTL == 0)
      modifies Repr
      ensures Valid() && fresh(Repr - old(Repr)) && old(Repr) <= Repr
      ensures items == [Item(key, value, refreshTTL, deadline)] + old(items)
    {
      hide Tabled, ExpirationIndex.Valid, Without, Elems, Found, Replaced;
      Find(key);
      FoundNone(items, key);
      var item := InsertFront(key, value, refreshTTL);
      ReplacedFirst(old(items), ItemOf(item), ItemOf(item).(deadline := deadline));
      Reschedule(item, deadline);
    }

    method SetLocked(key: Key, value: Value, ttl: Nanos, deadline: Nanos, stats: SegmentStats)
      requires Valid() && stats !in Repr
      modifies Repr, stats`evictionCount
      ensures Valid() && fresh(Repr - old(Repr)) && old(Repr) <= Repr
      ensures var c := AfterSet(old(items), key, value, ttl, deadline, maxEntries);
              items == c.items && stats.evictionCount == old(stats.evictionCount) + c.evicted
    {
      hide Tabled, ExpirationIndex.Valid, Without, Elems, Found, Owned, Scheduled;
      var refreshTTL := if deadline == 0 then 0 else ttl;
      Find(key);
      Lengths();
      if key in entries {
        Overwrite(key, value, refreshTTL, deadline);
      } else if |entries| >= maxEntries {
        stats.evictionCount := stats.evictionCount + 1;
        ReuseVictim(key, value, refreshTTL, deadline);
      } else {
        InsertNew(key, value, refreshTTL, deadline);
      }
    }

    method Delete(key: Key) returns (removed: bool)
      requires Valid()
      modifies Repr
      ensures Valid() && Repr == old(Repr)
      ensures items == Without(old(items), {key}) && removed == (key in Keys(old(items)))
    {
      hide Tabled, ExpirationIndex.Valid, Without, Elems, Found;
      Find(key);
      FoundNone(items, key);
      if key !in entries {
        WithoutNone(items, {key});
        return false;
      }
      RemoveLocked(entries[key]);
      removed := true;
    }

    method GetAndDelete(key: Key, now: Nanos, stats: SegmentStats) returns (found: Option<Value>)
      requires Valid() && stats !in Repr
      modifies Repr, stats`expirationCount
      ensures Valid() && Repr == old(Repr)
      ensures var c := AfterGetAndDelete(old(items), key, now);
              && items == c.items
              && found == (if c.found.Some? then Some(c.found.value.value) else None)
              && stats.expirationCount == old(stats.expirationCount) + c.expired
    {
      hide Tabled, ExpirationIndex.Valid, Without, Elems, Found;
      Find(key);
      if key !in entries {
        return None;
      }
      var item := entries[key];
      if item.deadline != 0 && now >= item.deadline {
        RemoveLocked(item);
        stats.expirationCount := stats.expirationCount + 1;
        return None;
      }
      found := Some(item.value);
      RemoveLocked(item);
    }

    method GetOrSet(key: Key, value: Value, ttl: Nanos, deadline: Nanos, now: Nanos, stats: SegmentStats)
      returns (current: Item, found: bool)
      requires Valid() && stats !in Repr
      modifies Repr, stats`expirationCount, stats`evictionCount
      ensures Valid() && fresh(Repr - old(Repr)) && old(Repr) <= Repr
      ensures var g := AfterGet(old(items), key, now, slidingExpiration);
              var c := AfterGetOrSet(old(items), key, value, ttl, deadline, now, slidingExpiration, maxEntries);
              && items == c.items && found == g.found.Some? && Some(current) == c.found
              && stats.expirationCount == old(stats.expirationCount) + c.expired
              && stats.evictionCount == old(stats.evictionCount) + c.evicted
    {
      hide Valid, Without, Found;
      var got := GetLocked(key, now, stats);
      if got.Some? {
        return got.value, true;
      }
      SetLocked(key, value, ttl, deadline, stats);
      current := Item(key, value, if deadline == 0 then 0 else ttl, deadline);
      found := false;
    }

    lemma NothingListed()
      requires entries == map[] && order == [] && items == [] && head == null && tail == null
      ensures Tabled() && Elems(order) == {}
    {
    }

    method DeleteAll() returns (deleted: nat)
      requires Valid()
      modifies Repr
      ensures Valid() && Repr == old(Repr)
      ensures items == [] && deleted == |old(items)|
    {
      hide ExpirationIndex.Valid, Tabled, Elems;
      Lengths();
      deleted := |entries|;
      entries := map[];
      head := null;
      tail := null;
      order := [];
      items := [];
      NothingListed();
      expirations.Reset();
    }

    /** The model's view of an indexed entry. */
    lemma Indexed(e: Entry)
      requires Valid() && e in Elems(order)
      ensures e in expirations.filed <==> e.deadline > 0
      ensures e in expirations.filed ==> expirations.filed[e] == BucketId(e.deadline, expirations.resolution)
      ensures ItemOf(e) in items && e.key in entries && entries[e.key] == e
    {
      hide BucketId;
      var i := Position(e);
    }

    lemma EntryOf(it: Item) returns (e: Entry)
      requires Valid() && it in items
      ensures e in Elems(order) && ItemOf(e) == it
    {
      var i :| 0 <= i < |items| && items[i] == it;
      e := order[i];
    }

    /** The entry popped next is in the lowest bucket of the model. */
    lemma RootIsFirst()
      requires Valid() && expirations.heap.slots != []
      ensures var e := expirations.RootEntry();
              && e in Elems(order) && First(items, ItemOf(e), expirations.resolution)
              && e.key in entries && entries[e.key] == e
              && expirations.heap.slots[0].id == BucketId(e.deadline, expirations.resolution)
    {
      hide BucketId, ExpirationIndex.Valid, Tabled;
      var e := expirations.RootEntry();
      Indexed(e);
      forall it | it in items && it.deadline > 0
        ensures BucketId(e.deadline, expirations.resolution) <= BucketId(it.deadline, expirations.resolution)
      {
        var other := EntryOf(it);
        Indexed(other);
      }
    }

    /** The root bucket of the index is due exactly when something in the model is. */
    lemma RootIsDue(now: Nanos)
      requires Valid()
      ensures expirations.HasDueBucket(DueBucketId(now, expirations.resolution)) <==>
                DueKeys(items, now, expirations.resolution) != {}
    {
      hide BucketId, DueBucketId, ExpirationIndex.Valid, Tabled;
      var res := expirations.resolution;
      if expirations.heap.slots != [] {
        RootIsFirst();
        var e := expirations.RootEntry();
        assert Due(e.deadline, now, res) ==> ItemOf(e).key in DueKeys(items, now, res);
      }
      forall it | it in items && Due(it.deadline, now, res)
        ensures expirations.HasDueBucket(DueBucketId(now, res))
      {
        var e := EntryOf(it);
        Indexed(e);
        expirations.NotEmpty(e);
      }
    }

    /** Takes one entry out of the lowest bucket. */
    method ReclaimRoot() returns (ghost gone: Item)
      requires Valid() && expirations.heap.slots != []
      modifies Repr
      ensures Valid() && Repr == old(Repr)
      ensures First(old(items), gone, expirations.resolution) && gone.deadline > 0
      ensures BucketId(gone.deadline, expirations.resolution) == old(expirations.heap.slots[0].id)
      ensures items == Without(old(items), {gone.key})
    {
      hide ExpirationIndex.Valid, Without, Elems, Tabled, BucketId, First;
      RootIsFirst();
      gone := ItemOf(expirations.RootEntry());
      FirstExpires(items, gone, expirations.resolution);
      var item := expirations.PopRootEntry();
      if item.key !in entries || entries[item.key] != item {
        assert false; // every indexed entry is in the map
      }
      Forget(item);
    }

    method CleanupExpired(now: Nanos, limit: nat, stats: SegmentStats)
      returns (removed: nat, pending: bool, ghost gone: set<Key>)
      requires Valid() && stats !in Repr
      modifies Repr, stats`expirationCount
      ensures Valid() && Repr == old(Repr)
      ensures removed == |gone| && stats.expirationCount == old(stats.expirationCount) + removed
      ensures limit > 0 ==> Cleaned(old(items), items, gone, now, limit, expirations.resolution)
      ensures limit > 0 ==> pending == (|DueKeys(old(items), now, expirations.resolution)| > limit)
      ensures limit == 0 ==> removed == 0 && !pending && items == old(items)
    {
      hide Consistent, Bounded, Reclaimed, Cleaned, DueKeys, BucketId, DueBucketId, Without, First;
      removed, gone := 0, {};
      if limit <= 0 {
        return 0, false, {};
      }
      var due := DueBucketId(now, expirations.resolution);
      StillDistinct();
      ReclaimStart(items, now, expirations.resolution);
      while removed < limit && expirations.HasDueBucket(due)
        invariant Valid() && Repr == old(Repr)
        invariant removed == |gone| <= limit
        invariant stats.expirationCount == old(stats.expirationCount) + removed
        invariant Reclaimed(old(items), items, gone, now, expirations.resolution)
      {
        ghost var before := items;
        ghost var it := ReclaimRoot();
        ReclaimStep(old(items), before, gone, it, now, expirations.resolution);
        gone := gone + {it.key};
        removed := removed + 1;
        stats.expirationCount := stats.expirationCount + 1;
      }
      RootIsDue(now);
      ReclaimEnd(old(items), items, gone, now, limit, expirations.resolution);
      pending := expirations.HasDueBucket(due);
    }

    lemma StillDistinct()
      requires Valid()
      ensures Distinct(items)
    {
      ItemsDistinct();
    }

    lemma WithinCapacity()
      requires Valid()
      ensures |items| <= maxEntries && maxEntries > 0 && forall it :: it in items && it.deadline == 0 ==> it.ttl == 0
    {
      forall it | it in items && it.deadline == 0 ensures it.ttl == 0 {
        var e := EntryOf(it);
      }
    }
  }
}
