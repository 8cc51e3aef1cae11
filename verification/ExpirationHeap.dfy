/** Heap order on a sequence of ids, with at most one position out of place. */
module HeapOrder {

  function Parent(i: nat): nat {
    if i == 0 then 0 else (i - 1) / 2
  }

  ghost predicate OrderedAt(ids: seq<int>, i: nat)
    requires i < |ids|
  {
    i > 0 ==> ids[Parent(i)] <= ids[i]
  }

  /** The first n ids are in heap order. */
  ghost predicate Ordered(ids: seq<int>, n: nat)
    requires n <= |ids|
  {
    forall i {:trigger OrderedAt(ids, i)} :: 0 <= i < n ==> OrderedAt(ids, i)
  }

  /** The parent of `hole` is no larger than any child of `hole`. */
  ghost predicate Bridged(ids: seq<int>, n: nat, hole: nat)
    requires hole < n <= |ids|
  {
    hole > 0 ==> forall i {:trigger ids[i]} :: 0 < i < n && Parent(i) == hole ==> ids[Parent(hole)] <= ids[i]
  }

  /** In heap order, except that ids[hole] may be too small for its position. */
  ghost predicate LowHole(ids: seq<int>, n: nat, hole: nat)
    requires hole < n <= |ids|
  {
    && Bridged(ids, n, hole)
    && forall i {:trigger OrderedAt(ids, i)} :: 0 <= i < n && i != hole ==> OrderedAt(ids, i)
  }

  /** In heap order, except that ids[hole] may be too large for its position. */
  ghost predicate HighHole(ids: seq<int>, n: nat, hole: nat)
    requires hole < n <= |ids|
  {
    && Bridged(ids, n, hole)
    && forall i {:trigger OrderedAt(ids, i)} :: 0 <= i < n && (i == 0 || Parent(i) != hole) ==> OrderedAt(ids, i)
  }

  /** In heap order, except that ids[hole] is arbitrary. */
  ghost predicate Hole(ids: seq<int>, n: nat, hole: nat)
    requires hole < n <= |ids|
  {
    && Bridged(ids, n, hole)
    && forall i {:trigger OrderedAt(ids, i)} :: 0 <= i < n && i != hole && (i == 0 || Parent(i) != hole) ==>
        OrderedAt(ids, i)
  }

  ghost function Swapped(ids: seq<int>, i: nat, j: nat): seq<int>
    requires i < |ids| && j < |ids|
  {
    ids[i := ids[j]][j := ids[i]]
  }

  /** In a heap the root is least. */
  lemma {:induction false} RootIsLeast(ids: seq<int>, n: nat, i: nat)
    requires i < n <= |ids| && Ordered(ids, n)
    ensures ids[0] <= ids[i]
  {
    if i > 0 {
      assert OrderedAt(ids, i);
      RootIsLeast(ids, n, Parent(i));
    }
  }

  lemma EmptyOrdered(ids: seq<int>)
    ensures Ordered(ids, 0)
  {
  }

  lemma OrderedPrefix(ids: seq<int>, n: nat, m: nat)
    requires n <= m <= |ids| && Ordered(ids, m)
    ensures Ordered(ids, n) && Ordered(ids[..n], n)
  {
    forall i | 0 <= i < n ensures OrderedAt(ids[..n], i) {
      assert OrderedAt(ids, i);
    }
  }

  /** Changing one position of a heap leaves order everywhere else. */
  lemma ChangeMakesHole(ids: seq<int>, ids': seq<int>, n: nat, hole: nat)
    requires hole < n <= |ids| && n <= |ids'| && Ordered(ids, |ids|)
    requires forall k :: 0 <= k < n && k != hole ==> ids'[k] == ids[k]
    ensures Hole(ids', n, hole)
  {
    forall i | 0 <= i < n && i != hole && (i == 0 || Parent(i) != hole) ensures OrderedAt(ids', i) {
      assert OrderedAt(ids, i);
    }
    forall i | hole > 0 && 0 < i < n && Parent(i) == hole ensures ids'[Parent(hole)] <= ids'[i] {
      assert OrderedAt(ids, i) && OrderedAt(ids, hole);
    }
  }

  /** A hole no larger than its children can only be too small. */
  lemma SiftDownStop(ids: seq<int>, n: nat, i: nat)
    requires i < n <= |ids| && Hole(ids, n, i)
    requires 2 * i + 1 < n ==> ids[i] <= ids[2 * i + 1]
    requires 2 * i + 2 < n ==> ids[i] <= ids[2 * i + 2]
    ensures LowHole(ids, n, i)
    ensures HighHole(ids, n, i) ==> Ordered(ids, n)
  {
    forall k | 0 <= k < n && k != 0 && Parent(k) == i ensures OrderedAt(ids, k) {
      assert k == 2 * i + 1 || k == 2 * i + 2;
    }
  }

  /** A hole at the root, or no smaller than its parent, is not too small for its position. */
  lemma SiftUpStop(ids: seq<int>, n: nat, j: nat)
    requires j < n <= |ids| && LowHole(ids, n, j)
    requires ids[Parent(j)] <= ids[j]
    ensures Ordered(ids, n)
  {
    assert OrderedAt(ids, j);
  }

  lemma SiftUpStep(ids: seq<int>, n: nat, j: nat)
    requires 0 < j < n <= |ids| && LowHole(ids, n, j) && ids[j] < ids[Parent(j)]
    ensures LowHole(Swapped(ids, Parent(j), j), n, Parent(j))
  {
    var p := Parent(j);
    var ids' := Swapped(ids, p, j);
    forall i | 0 <= i < n && i != p ensures OrderedAt(ids', i) {
      assert OrderedAt(ids, p);
      assert i != j ==> OrderedAt(ids, i);
    }
    forall i | p > 0 && 0 < i < n && Parent(i) == p ensures ids'[Parent(p)] <= ids'[i] {
      assert OrderedAt(ids, p);
      assert i != j ==> OrderedAt(ids, i);
    }
  }

  lemma SiftDownStep(ids: seq<int>, n: nat, i: nat, child: nat)
    requires i < child < n <= |ids| && (child == 2 * i + 1 || child == 2 * i + 2) && Hole(ids, n, i)
    requires ids[child] < ids[i] && ids[child] <= ids[2 * i + 1]
    requires 2 * i + 2 < n ==> ids[child] <= ids[2 * i + 2]
    ensures HighHole(Swapped(ids, i, child), n, child) && Hole(Swapped(ids, i, child), n, child)
  {
    var ids' := Swapped(ids, i, child);
    forall k | 0 <= k < n && (k == 0 || Parent(k) != child) ensures OrderedAt(ids', k) {
      if k != i && k != 0 && Parent(k) != i {
        assert OrderedAt(ids, k);
      }
    }
    forall k | 0 < k < n && Parent(k) == child ensures ids'[Parent(child)] <= ids'[k] {
      assert OrderedAt(ids, k);
    }
  }
}

/** The binary min-heap of buckets with exact back-pointers, and the container/heap algorithms over it. */
module ExpirationHeap {
  import opened Entries
  import opened HeapOrder

  class BucketHeap {
    var slots: seq<Bucket>

    // The ids by which the slots are ordered.
    ghost var ids: seq<int>

    constructor ()
      ensures slots == [] && Valid()
    {
      slots := [];
      ids := [];
    }

    ghost function Elems(): set<Bucket>
      reads this
    {
      set b | b in slots
    }

    ghost predicate Keyed()
      reads this, Elems()`id
    {
      |ids| == |slots| && forall i :: 0 <= i < |slots| ==> ids[i] == slots[i].id
    }

    // Every bucket knows its own position, so no bucket occurs twice.
    ghost predicate Positioned()
      reads this, Elems()`heapIndex
    {
      forall i :: 0 <= i < |slots| ==> slots[i].heapIndex == i
    }

    ghost predicate Valid()
      reads this, Elems()`heapIndex, Elems()`id
    {
      Positioned() && Keyed() && Ordered(ids, |ids|)
    }

    predicate Less(left: nat, right: nat)
      requires left < |slots| && right < |slots|
      reads this, Elems()`id
    {
      slots[left].id < slots[right].id
    }

    method Swap(left: nat, right: nat)
      requires Positioned() && Keyed() && left < |slots| && right < |slots|
      modifies this, Elems()`heapIndex
      ensures Positioned() && Keyed() && Elems() == old(Elems()) && |slots| == old(|slots|)
      ensures slots == old(slots[left := slots[right]][right := slots[left]])
      ensures ids == Swapped(old(ids), left, right)
    {
      slots := slots[left := slots[right]][right := slots[left]];
      ids := Swapped(ids, left, right);
      slots[left].heapIndex := left;
      slots[right].heapIndex := right;
      assert old(slots[left]) == slots[right] && old(slots[right]) == slots[left];
      forall b ensures b in slots <==> b in old(slots) {
        if b in old(slots) {
          var i :| 0 <= i < |slots| && old(slots)[i] == b;
          assert slots[if i == left then right else if i == right then left else i] == b;
        }
      }
    }

    method Up(start: nat, ghost n: nat)
      requires Positioned() && Keyed() && start < n <= |slots| && LowHole(ids, n, start)
      modifies this, Elems()`heapIndex
      ensures Positioned() && Keyed() && Elems() == old(Elems()) && |slots| == old(|slots|)
      ensures Ordered(ids, n) && slots[n..] == old(slots[n..])
    {
      hide Ordered, LowHole;
      var j: nat := start;
      while true
        invariant j < n <= |slots| == old(|slots|)
        invariant Positioned() && Keyed() && Elems() == old(Elems()) && slots[n..] == old(slots[n..])
        invariant LowHole(ids, n, j)
        decreases j
      {
        var i := Parent(j);
        if i == j || !Less(j, i) {
          SiftUpStop(ids, n, j);
          break;
        }
        SiftUpStep(ids, n, j);
        Swap(i, j);
        j := i;
      }
    }

    method Down(start: nat, n: nat) returns (moved: bool)
      requires Positioned() && Keyed() && start < n <= |slots| && Hole(ids, n, start)
      modifies this, Elems()`heapIndex
      ensures Positioned() && Keyed() && Elems() == old(Elems()) && |slots| == old(|slots|)
      ensures slots[n..] == old(slots[n..])
      ensures moved ==> Ordered(ids, n)
      ensures !moved ==> LowHole(ids, n, start)
    {
      hide Ordered, Hole, LowHole, HighHole;
      var i: nat := start;
      while true
        invariant start <= i < n <= |slots| == old(|slots|)
        invariant Positioned() && Keyed() && Elems() == old(Elems()) && slots[n..] == old(slots[n..])
        invariant Hole(ids, n, i)
        invariant i > start ==> HighHole(ids, n, i)
        decreases n - i
      {
        var j := 2 * i + 1;
        if j >= n {
          SiftDownStop(ids, n, i);
          break;
        }
        if j + 1 < n && Less(j + 1, j) {
          j := j + 1;
        }
        if !Less(j, i) {
          SiftDownStop(ids, n, i);
          break;
        }
        SiftDownStep(ids, n, i, j);
        Swap(i, j);
        i := j;
      }
      moved := i > start;
    }

    method Reset()
      modifies this
      ensures slots == [] && Valid()
    {
      slots := [];
      ids := [];
    }

    method Push(bucket: Bucket)
      requires Valid() && bucket !in slots
      modifies this, Elems()`heapIndex, bucket`heapIndex
      ensures Valid() && Elems() == old(Elems()) + {bucket}
    {
      ghost var before := ids;
      bucket.heapIndex := |slots|;
      slots := slots + [bucket];
      ids := ids + [bucket.id];
      assert forall i :: 0 <= i < |before| ==> OrderedAt(before, i) && OrderedAt(ids, i);
      Up(|slots| - 1, |slots|);
    }

    method PopLast() returns (bucket: Bucket)
      requires Positioned() && Keyed() && slots != [] && Ordered(ids, |slots| - 1)
      modifies this, Elems()`heapIndex
      ensures slots == old(slots[..|slots| - 1]) && bucket == old(slots[|slots| - 1])
      ensures Valid() && bucket.heapIndex == -1
      ensures Elems() == old(Elems()) - {bucket}
    {
      hide Ordered;
      var last := |slots| - 1;
      OrderedPrefix(ids, last, last);
      bucket := slots[last];
      assert forall i :: 0 <= i < last ==> slots[i].heapIndex != last;
      bucket.heapIndex := -1;
      slots := slots[..last];
      ids := ids[..last];
      assert old(slots) == slots + [bucket];
    }

    method Pop() returns (bucket: Bucket)
      requires Valid() && slots != []
      modifies this, Elems()`heapIndex
      ensures bucket == old(slots[0]) && bucket.heapIndex == -1
      ensures Valid() && Elems() == old(Elems()) - {bucket}
    {
      hide Ordered, Hole, LowHole;
      var n := |slots| - 1;
      OrderedPrefix(ids, n, |ids|);
      Swap(0, n);
      if n > 0 {
        ChangeMakesHole(old(ids), ids, n, 0);
        var moved := Down(0, n);
        if !moved {
          SiftUpStop(ids, n, 0);
        }
      } else {
        EmptyOrdered(ids);
      }
      bucket := PopLast();
    }

    method Remove(i: nat) returns (bucket: Bucket)
      requires Valid() && i < |slots|
      modifies this, Elems()`heapIndex
      ensures bucket == old(slots[i]) && bucket.heapIndex == -1
      ensures Valid() && Elems() == old(Elems()) - {bucket}
    {
      hide Ordered, Hole, LowHole;
      var n := |slots| - 1;
      OrderedPrefix(ids, n, |ids|);
      if n != i {
        Swap(i, n);
        ChangeMakesHole(old(ids), ids, n, i);
        var moved := Down(i, n);
        if !moved {
          Up(i, n);
        }
      }
      bucket := PopLast();
    }

    method Fix(i: nat)
      requires Positioned() && |ids| == |slots| && Ordered(ids, |ids|) && i < |slots|
      requires forall k :: 0 <= k < |slots| && k != i ==> ids[k] == slots[k].id
      modifies this, Elems()`heapIndex
      ensures Valid() && Elems() == old(Elems())
    {
      hide Ordered, Hole, LowHole;
      ids := ids[i := slots[i].id];
      ChangeMakesHole(old(ids), ids, |ids|, i);
      var moved := Down(i, |slots|);
      if !moved {
        Up(i, |slots|);
      }
    }
  }
}
