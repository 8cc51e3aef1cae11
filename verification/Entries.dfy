/** The cache entry and the bucket that chains entries by expiration time. */
module Entries {
  import opened Types
  import opened Lists

  class Entry {
    var key: Key
    var value: Value

    // Links of the segment's LRU list.
    var previous: Entry?
    var next: Entry?

    // Links of the expiration bucket's list.
    var expirationPrevious: Entry?
    var expirationNext: Entry?

    var refreshTTL: Nanos
    var deadline: Nanos

    constructor (key: Key, value: Value, refreshTTL: Nanos)
      ensures this.key == key && this.value == value && this.refreshTTL == refreshTTL
      ensures deadline == 0
      ensures previous == null && next == null
      ensures expirationPrevious == null && expirationNext == null
    {
      this.key := key;
      this.value := value;
      this.refreshTTL := refreshTTL;
      this.deadline := 0;
      this.previous := null;
      this.next := null;
      this.expirationPrevious := null;
      this.expirationNext := null;
    }
  }

  ghost function Elems(s: seq<Entry>): set<Entry> {
    set e | e in s
  }

  /** The expiration links of `s[i]` point to its neighbours in `s`. */
  ghost predicate LinkedAt(s: seq<Entry>, i: nat)
    requires i < |s|
    reads Elems(s)`expirationPrevious, Elems(s)`expirationNext
  {
    && s[i].expirationPrevious == (if i == 0 then null else s[i - 1])
    && s[i].expirationNext == (if i == |s| - 1 then null else s[i + 1])
  }

  class Bucket {
    var head: Entry?
    var tail: Entry?
    var id: Int64
    var heapIndex: int
    var count: int

    // The chained entries, head first.
    ghost var items: seq<Entry>

    constructor (id: Int64)
      ensures this.id == id && heapIndex == -1 && items == [] && Valid()
    {
      this.id := id;
      heapIndex := -1;
      count := 0;
      head := null;
      tail := null;
      items := [];
    }

    ghost predicate Valid()
      reads this`head, this`tail, this`count, this`items, Elems(items)`expirationPrevious, Elems(items)`expirationNext
    {
      && count == |items|
      && NoDup(items)
      && head == (if items == [] then null else items[0])
      && tail == (if items == [] then null else items[|items| - 1])
      && (forall i {:trigger LinkedAt(items, i)} :: 0 <= i < |items| ==> LinkedAt(items, i))
    }

    /** On a consistent bucket five comparisons decide whether `item` is its only member. */
    predicate ContainsOnly(item: Entry)
      requires Valid()
      reads this, Elems(items)`expirationPrevious, Elems(items)`expirationNext
      reads item`expirationPrevious, item`expirationNext
      ensures ContainsOnly(item) <==> items == [item]
    {
      assert |items| == 1 ==> items == [items[0]] && LinkedAt(items, 0);
      && count == 1
      && head == item
      && tail == item
      && item.expirationPrevious == null
      && item.expirationNext == null
    }

    method PushBack(item: Entry)
      requires Valid() && item !in items
      modifies this`head, this`tail, this`count, this`items
      modifies Elems(items)`expirationNext, item`expirationPrevious, item`expirationNext
      ensures Valid() && items == old(items) + [item]
    {
      item.expirationPrevious := tail;
      item.expirationNext := null;
      if tail != null {
        tail.expirationNext := item;
      } else {
        head := item;
      }
      tail := item;
      count := count + 1;
      ghost var s := items;
      items := s + [item];
      forall k | 0 <= k < |items| ensures LinkedAt(items, k) {
        assert k < |s| ==> items[k] == s[k] && old(LinkedAt(s, k));
      }
    }

    method Remove(item: Entry)
      requires Valid() && item in items
      modifies this`head, this`tail, this`count, this`items
      modifies Elems(items)`expirationPrevious, Elems(items)`expirationNext
      ensures Valid() && items == Minus(old(items), item)
      ensures item.expirationPrevious == null && item.expirationNext == null
    {
      if count <= 0 {
        assert false; // the bucket count cannot underflow
      }
      ghost var s, i := items, IndexOf(items, item);
      assert LinkedAt(s, i);
      var previous := item.expirationPrevious;
      var next := item.expirationNext;
      if previous != null {
        previous.expirationNext := next;
      } else {
        head := next;
      }
      if next != null {
        next.expirationPrevious := previous;
      } else {
        tail := previous;
      }
      item.expirationPrevious := null;
      item.expirationNext := null;
      count := count - 1;
      items := RemoveAt(items, i);
      forall k | 0 <= k < |items| ensures LinkedAt(items, k) {
        var j := if k < i then k else k + 1;
        assert items[k] == s[j] && old(LinkedAt(s, j));
      }
    }

    /** Back to the state of a spare bucket. */
    method Clear()
      modifies this
      ensures id == 0 && heapIndex == -1 && count == 0 && head == null && tail == null && items == []
    {
      id := 0;
      heapIndex := -1;
      count := 0;
      head := null;
      tail := null;
      items := [];
    }

    method PopBack() returns (item: Entry?)
      requires Valid()
      modifies this`head, this`tail, this`count, this`items
      modifies Elems(items)`expirationPrevious, Elems(items)`expirationNext
      ensures Valid()
      ensures old(items) == [] ==> item == null && items == []
      ensures old(items) != [] ==>
                && item == old(items[|items| - 1])
                && items == old(items[..|items| - 1])
                && item.expirationPrevious == null && item.expirationNext == null
    {
      item := tail;
      if item == null {
        return;
      }
      assert IndexOf(items, item) == |items| - 1;
      Remove(item);
    }
  }
}
