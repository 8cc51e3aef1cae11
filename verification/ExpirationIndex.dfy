/** What the expiration index holds, as a map from bucket id to the chain of entries in that bucket. */
module Chains {
  import opened Lists
  import opened Deadlines
  import opened Types
  import opened Entries

  type Chains = map<int, seq<Entry>>

  ghost function Chain(c: Chains, id: int): seq<Entry> {
    if id in c then c[id] else []
  }

  ghost function With(c: Chains, id: int, chain: seq<Entry>): Chains {
    if chain == [] then c - {id} else c[id := chain]
  }

  ghost function Added(c: Chains, id: int, item: Entry): Chains {
    With(c, id, Chain(c, id) + [item])
  }

  ghost function Removed(c: Chains, id: int, item: Entry): Chains {
    With(c, id, Minus(Chain(c, id), item))
  }

  /** Moving `item` from deadline `before` to `after`: nothing moves inside one bucket; otherwise remove, then add. */
  ghost function Moved(c: Chains, item: Entry, before: Nanos, after: Nanos, resolution: Int64): Chains
    requires resolution > 0
  {
    var from, to := BucketId(before, resolution), BucketId(after, resolution);
    if from == to then
      c
    else
      var taken := if before == 0 then c else Removed(c, from, item);
      if after == 0 then taken else Added(taken, to, item)
  }

  /** `filed` says of every chained entry in which chain it is. */
  ghost predicate Filed(c: Chains, filed: map<Entry, int>) {
    && (forall id, e {:trigger e in c[id]} :: id in c && e in c[id] ==> e in filed && filed[e] == id)
    && (forall e {:trigger filed[e]} :: e in filed ==> filed[e] in c && e in c[filed[e]])
  }

  /**
   * From `c` to `c'`, every chain but that of `id` is the same, indexed, and without any of the entries of that one.
   */
  ghost predicate Spared(c: Chains, c': Chains, id: int, keys: set<Entry>) {
    forall other :: other in c && other != id ==>
      other in c' && c'[other] == c[other] && Elems(c[other]) <= keys && Elems(c[other]) !! Elems(Chain(c, id))
  }

  ghost predicate NoneEmpty(c: Chains) {
    forall id :: id in c ==> c[id] != []
  }

  lemma FiledEmpty(c: Chains, filed: map<Entry, int>, id: int)
    requires Filed(c, filed) && id !in c
    ensures Filed(c[id := []], filed) && Spared(c, c[id := []], id, filed.Keys)
  {
  }

  lemma FiledDrop(c: Chains, filed: map<Entry, int>, id: int)
    requires Filed(c, filed) && id in c && c[id] == []
    ensures Filed(c - {id}, filed) && Spared(c, c - {id}, id, filed.Keys)
  {
  }

  lemma FiledRekey(c: Chains, filed: map<Entry, int>, oldId: int, newId: int, item: Entry)
    requires Filed(c, filed) && oldId in c && c[oldId] == [item] && newId !in c
    ensures var c', filed' := (c - {oldId})[newId := [item]], filed[item := newId];
            Filed(c', filed') && Spared(c, c', oldId, filed'.Keys) && Elems(c'[newId]) <= filed'.Keys
    ensures item in filed && filed[item] == oldId
  {
    assert item in c[oldId];
  }

  lemma RemovedCases(c: Chains, id: int, item: Entry)
    requires id in c
    ensures var taken := c[id := Minus(c[id], item)];
            && (taken[id] != [] ==> Removed(c, id, item) == taken)
            && (taken[id] == [] ==> Removed(c, id, item) == taken - {id})
  {
  }

  /** Rekeying a one-entry chain is taking the entry out and adding it under the new id. */
  lemma RekeyIsMove(c: Chains, oldId: int, newId: int, item: Entry)
    requires oldId in c && c[oldId] == [item] && newId !in c && oldId != newId
    ensures (c - {oldId})[newId := [item]] == Added(Removed(c, oldId, item), newId, item)
  {
    assert Minus([item], item) == [];
    assert [] + [item] == [item];
  }

  lemma FiledAppend(c: Chains, filed: map<Entry, int>, id: int, item: Entry)
    requires Filed(c, filed) && id in c && item !in filed
    ensures var c', filed' := c[id := c[id] + [item]], filed[item := id];
            Filed(c', filed') && Spared(c, c', id, filed'.Keys) && Elems(c'[id]) <= filed'.Keys
    ensures item !in c[id]
  {
  }

  lemma FiledMinus(c: Chains, filed: map<Entry, int>, id: int, item: Entry)
    requires Filed(c, filed) && item in filed && filed[item] == id && NoDup(c[id])
    ensures var c', filed' := c[id := Minus(c[id], item)], filed - {item};
            Filed(c', filed') && Spared(c, c', id, filed'.Keys) && Elems(c'[id]) <= filed'.Keys
  {
    MinusFacts(c[id], item);
  }

  lemma ShortenedCases(c: Chains, id: int)
    requires NoneEmpty(c) && id in c
    ensures c[id] != []
    ensures var shorter := c[id][..|c[id]| - 1];
            && (shorter != [] ==> With(c, id, shorter) == c[id := shorter])
            && (shorter == [] ==> With(c, id, shorter) == c[id := shorter] - {id})
            && NoneEmpty(With(c, id, shorter))
  {
  }

  lemma StaysFull(c: Chains, id: int, item: Entry)
    requires NoneEmpty(c)
    ensures NoneEmpty(Added(c, id, item)) && NoneEmpty(Removed(c, id, item))
    ensures c[id := Chain(c, id)][id := Chain(c, id) + [item]] == Added(c, id, item)
  {
  }
}

/** The expiration index: buckets found by id and by a min-heap, with a small pool of spares. */
module Expiration {
  import opened Types
  import opened Lists
  import opened Deadlines
  import opened Entries
  import opened HeapOrder
  import opened ExpirationHeap
  import opened Chains

  const MAX_SPARE_BUCKETS: nat := 4

  class ExpirationIndex {
    const resolution: Int64
    var buckets: map<int, Bucket>
    const heap: BucketHeap
    const spares: array<Bucket?>
    var spareCount: nat

    // Every bucket ever allocated here; the chains; and the chain of each indexed entry.
    ghost var owned: set<Bucket>
    ghost var chains: Chains
    ghost var filed: map<Entry, int>

    constructor (resolution: Int64)
      requires resolution > 0
      ensures Valid() && chains == map[] && filed == map[]
      ensures this.resolution == resolution
      ensures fresh(heap) && fresh(spares) && owned == {}
    {
      this.resolution := resolution;
      buckets := map[];
      heap := new BucketHeap();
      spares := new Bucket?[MAX_SPARE_BUCKETS](_ => null);
      spareCount := 0;
      owned := {};
      chains := map[];
      filed := map[];
    }

    ghost function Footprint(): set<object>
      reads this
    {
      {this, heap, spares} + owned
    }

    /** The id map and the heap hold the same buckets, each under its own id. */
    ghost predicate Registered()
      reads this`buckets, this`owned, heap, owned`id
    {
      && heap.Elems() <= owned
      && (forall b :: b in heap.Elems() ==> b.id in buckets && buckets[b.id] == b)
      && (forall id :: id in buckets ==> buckets[id] in heap.Elems() && buckets[id].id == id)
    }

    ghost predicate Chained(b: Bucket)
      reads this`chains, b`id, b`head, b`tail, b`count, b`items
      reads Elems(b.items)`expirationPrevious, Elems(b.items)`expirationNext
    {
      b.Valid() && b.id in chains && b.items == chains[b.id]
    }

    ghost predicate Dated()
      reads this`filed, filed.Keys`deadline
    {
      resolution > 0 && forall e :: e in filed ==> e.deadline > 0 && BucketId(e.deadline, resolution) == filed[e]
    }

    ghost predicate Clean(b: Bucket)
      reads b
    {
      b.id == 0 && b.heapIndex == -1 && b.count == 0 && b.head == null && b.tail == null && b.items == []
    }

    ghost predicate SparesClean()
      reads this`spareCount, this`owned, spares, owned
    {
      && spares.Length == MAX_SPARE_BUCKETS
      && spareCount <= MAX_SPARE_BUCKETS
      && (forall i :: 0 <= i < spareCount ==> spares[i] != null && spares[i] in owned && Clean(spares[i]))
      && (forall i, j :: 0 <= i < j < spareCount ==> spares[i] != spares[j])
      && (forall i :: spareCount <= i < spares.Length ==> spares[i] == null)
    }

    ghost predicate NotSpare(b: Bucket)
      reads this`spareCount, spares
    {
      spareCount <= spares.Length && forall i :: 0 <= i < spareCount ==> spares[i] != b
    }

    /** The invariant of the structure, in which a chain may be empty and deadlines may be ahead of the chains. */
    ghost predicate Sound()
      reads this, heap, spares, owned, filed.Keys`expirationPrevious, filed.Keys`expirationNext
    {
      && resolution > 0
      && Registered()
      && heap.Valid()
      && buckets.Keys == chains.Keys
      && Filed(chains, filed)
      && (forall b :: b in heap.Elems() ==> Elems(b.items) <= filed.Keys && Chained(b))
      && SparesClean()
    }

    ghost predicate Valid()
      reads this, heap, spares, owned
      reads filed.Keys`deadline, filed.Keys`expirationPrevious, filed.Keys`expirationNext
    {
      && Sound()
      && Dated()
      && NoneEmpty(chains)
    }

    /** An indexed entry is chained in the active bucket it is filed under. */
    lemma BucketOf(item: Entry)
      requires Sound() && item in filed
      ensures filed[item] in buckets
      ensures var b := buckets[filed[item]];
              && b in heap.Elems() && b in owned && b.id == filed[item] && item in b.items && NoDup(b.items)
              && b.Valid() && 0 <= b.heapIndex < |heap.slots| && heap.slots[b.heapIndex] == b
              && filed[item] in chains && chains[filed[item]] == b.items
    {
      var id := filed[item];
      assert id in chains.Keys;
      assert Chained(buckets[id]);
    }

    lemma ChainOf(b: Bucket, item: Entry)
      requires Sound() && b in heap.Elems() && item in b.items
      ensures item in filed && filed[item] == b.id && NoDup(b.items) && b.heapIndex >= 0
      ensures b.count == |b.items| && b.Valid()
    {
      assert item in chains[b.id];
    }

    /** The root of the heap is the bucket of the least chain. */
    lemma RootIsFirst()
      requires Valid() && heap.slots != []
      ensures var b := heap.slots[0];
              && b in heap.Elems() && b in owned && b.items != [] && b.id in chains && chains[b.id] == b.items
              && forall e :: e in filed ==> b.id <= filed[e]
    {
      var b := heap.slots[0];
      assert b in heap.Elems() && Chained(b);
      forall e | e in filed ensures b.id <= filed[e] {
        BucketOf(e);
        var i := buckets[filed[e]].heapIndex;
        RootIsLeast(heap.ids, |heap.ids|, i);
      }
    }

    lemma NotEmpty(e: Entry)
      requires Valid() && e in filed
      ensures heap.slots != [] && heap.slots[0].id <= filed[e]
    {
      BucketOf(e);
      RootIsFirst();
    }

    /** The entry that is popped next. */
    ghost function RootEntry(): (e: Entry)
      requires Valid() && heap.slots != []
      reads this, heap, spares, owned
      reads filed.Keys`deadline, filed.Keys`expirationPrevious, filed.Keys`expirationNext
      ensures e in filed && filed[e] == heap.slots[0].id && BucketId(e.deadline, resolution) == filed[e]
      ensures e.deadline > 0
      ensures forall other :: other in filed ==> filed[e] <= filed[other]
    {
      RootIsFirst();
      var b := heap.slots[0];
      var e := b.items[|b.items| - 1];
      ChainOf(b, e);
      e
    }

    method AcquireBucket(id: Int64) returns (bucket: Bucket)
      requires SparesClean()
      modifies this`spareCount, this`owned, spares, owned`id
      ensures SparesClean()
      ensures bucket in owned && bucket.id == id && bucket.heapIndex == -1 && bucket.items == [] && bucket.Valid()
      ensures fresh(bucket) || (bucket in old(owned) && old(bucket.heapIndex) == -1)
      ensures fresh(bucket) <==> old(spareCount) == 0
      ensures spareCount == if old(spareCount) == 0 then 0 else old(spareCount) - 1
      ensures fresh(owned - old(owned)) && old(owned) <= owned
      ensures forall b :: b in old(owned) && b != bucket ==> b.id == old(b.id)
      ensures NotSpare(bucket)
    {
      if spareCount == 0 {
        bucket := new Bucket(id);
        owned := owned + {bucket};
        return;
      }
      spareCount := spareCount - 1;
      bucket := spares[spareCount];
      spares[spareCount] := null;
      bucket.id := id;
    }

    /** A clean bucket joins the spares if there is room. */
    twostate lemma SpareAdded(bucket: Bucket)
      requires old(SparesClean()) && old(NotSpare(bucket)) && bucket in owned && Clean(bucket) && owned == old(owned)
      requires if old(spareCount) < spares.Length
               then spareCount == old(spareCount) + 1 && spares[..] == old(spares[..])[old(spareCount) := bucket]
               else spareCount == old(spareCount) && spares[..] == old(spares[..])
      requires forall b :: b in owned && b != bucket ==>
                 && b.id == old(b.id) && b.heapIndex == old(b.heapIndex) && b.count == old(b.count)
                 && b.head == old(b.head) && b.tail == old(b.tail) && b.items == old(b.items)
      ensures SparesClean()
      ensures forall b :: b in owned && b != bucket && old(NotSpare(b)) ==> NotSpare(b)
    {
      assert forall i :: 0 <= i < spares.Length ==> spares[i] == spares[..][i] && old(spares[i]) == old(spares[..])[i];
    }

    /** Registered buckets are still chained if neither they nor any entry has been touched, and their chains stay. */
    twostate lemma StillChained()
      requires old(Sound()) && filed == old(filed)
      requires forall b :: b in old(heap.Elems()) ==>
                 && b.id == old(b.id) && b.count == old(b.count)
                 && b.head == old(b.head) && b.tail == old(b.tail) && b.items == old(b.items)
      requires forall e :: e in filed ==>
                 e.expirationPrevious == old(e.expirationPrevious) && e.expirationNext == old(e.expirationNext)
      requires forall id :: id in old(chains) ==> id in chains && chains[id] == old(chains)[id]
      ensures forall b :: b in old(heap.Elems()) ==> Elems(b.items) <= filed.Keys && Chained(b)
    {
      hide BucketId, NoDup, Filed, SparesClean, BucketHeap.Valid;
      forall b | b in old(heap.Elems()) ensures Elems(b.items) <= filed.Keys && Chained(b) {
        assert old(Chained(b));
        forall i | 0 <= i < |b.items| ensures LinkedAt(b.items, i) {
          assert old(LinkedAt(b.items, i)) && b.items[i] in Elems(b.items);
        }
      }
    }

    method ReleaseBucket(bucket: Bucket)
      requires Sound() && bucket in owned && bucket !in heap.Elems()
      requires NotSpare(bucket)
      modifies this`spareCount, spares, bucket
      ensures Sound() && bucket.heapIndex == -1
      ensures spareCount == Min(old(spareCount) + 1, MAX_SPARE_BUCKETS)
      ensures forall b :: b in owned && b != bucket && old(NotSpare(b)) ==> NotSpare(b)
    {
      hide Elems, BucketId, LinkedAt, NoDup, Bucket.Valid, BucketHeap.Valid, Filed, NotSpare, Chained;
      bucket.Clear();
      if spareCount < spares.Length {
        spares[spareCount] := bucket;
        spareCount := spareCount + 1;
      }
      SpareAdded(bucket);
      StillChained();
    }

    /** Puts an unregistered empty bucket into both tables. */
    method Register(bucket: Bucket)
      requires Sound() && bucket in owned && bucket.id !in buckets
      requires bucket.heapIndex == -1 && bucket.items == [] && bucket.Valid()
      requires NotSpare(bucket)
      modifies this`buckets, this`chains, heap, owned`heapIndex
      ensures Sound() && bucket in heap.Elems()
      ensures chains == old(chains)[bucket.id := []]
    {
      hide BucketId, LinkedAt, Filed, Chained;
      FiledEmpty(chains, filed, bucket.id);
      buckets := buckets[bucket.id := bucket];
      chains := chains[bucket.id := []];
      heap.Push(bucket);
      MakeChained(bucket);
      StillChained();
      assert SparesClean() && buckets.Keys == chains.Keys;
    }

    /** The active bucket for `id`, activating an empty one when there is none. */
    method Activate(id: Int64) returns (bucket: Bucket)
      requires Sound()
      modifies this`buckets, this`spareCount, this`owned, this`chains, heap, spares, owned`id, owned`heapIndex
      ensures Sound() && fresh(owned - old(owned)) && old(owned) <= owned
      ensures bucket in heap.Elems() && bucket in owned && bucket.id == id
      ensures chains == old(chains)[id := Chain(old(chains), id)]
    {
      if id in buckets {
        bucket := buckets[id];
      } else {
        hide Elems, BucketId, LinkedAt, NoDup, Bucket.Valid, Filed;
        bucket := AcquireBucket(id);
        forall b | b in heap.Elems() ensures Elems(b.items) <= filed.Keys && Chained(b) {
          assert old(Chained(b));
        }
        Register(bucket);
      }
    }

    // ------------------------------------------------------------ what a change leaves in order

    /** What is known of a registered bucket. */
    lemma InHeap(bucket: Bucket)
      requires Sound() && bucket in heap.Elems()
      ensures bucket in owned && heap.Elems() <= owned && NotSpare(bucket)
      ensures 0 <= bucket.heapIndex < |heap.slots| && heap.slots[bucket.heapIndex] == bucket
      ensures bucket.Valid() && bucket.count == |bucket.items| && NoDup(bucket.items) &&
                Elems(bucket.items) <= filed.Keys
      ensures bucket.id in buckets && bucket.id in chains && chains[bucket.id] == bucket.items
      ensures heap.Valid() && Filed(chains, filed) && buckets.Keys == chains.Keys
      ensures Registered() && SparesClean() && resolution > 0
    {
      assert Chained(bucket);
    }

    lemma MakeChained(b: Bucket)
      requires b.Valid() && b.id in chains && b.items == chains[b.id]
      ensures Chained(b)
    {
    }

    /** Spares are in order as long as only registered buckets change. */
    twostate lemma SparesKept()
      requires old(Sound()) && owned == old(owned) && spareCount == old(spareCount) && spares[..] == old(spares[..])
      requires forall b :: b in owned && b !in old(heap.Elems()) ==>
                 b.id == old(b.id) && b.heapIndex == old(b.heapIndex) && b.count == old(b.count)
                 && b.head == old(b.head) && b.tail == old(b.tail) && b.items == old(b.items)
      ensures SparesClean()
    {
      hide Chained, Filed, BucketId, NoDup;
    }

    /** The buckets other than `bucket` are still chained if neither they nor their entries have been touched. */
    twostate lemma OthersChained(bucket: Bucket)
      requires old(Sound()) && bucket in old(heap.Elems())
      requires forall b :: b in heap.Elems() && b != bucket ==>
                 && b in old(heap.Elems())
                 && b.id == old(b.id) && b.count == old(b.count)
                 && b.head == old(b.head) && b.tail == old(b.tail) && b.items == old(b.items)
      requires forall e :: e in old(filed) && e !in Elems(old(bucket.items)) ==>
                 e.expirationPrevious == old(e.expirationPrevious) && e.expirationNext == old(e.expirationNext)
      requires Spared(old(chains), chains, old(bucket.id), filed.Keys)
      ensures forall b :: b in heap.Elems() && b != bucket ==> Elems(b.items) <= filed.Keys && Chained(b)
    {
      hide BucketId, NoDup, Filed, SparesClean, BucketHeap.Valid;
      forall b | b in heap.Elems() && b != bucket ensures Elems(b.items) <= filed.Keys && Chained(b) {
        assert old(Chained(b)) && b.id != old(bucket.id);
        forall i | 0 <= i < |b.items| ensures LinkedAt(b.items, i) {
          assert old(LinkedAt(b.items, i)) && b.items[i] in Elems(b.items);
        }
      }
    }

    twostate lemma Unregistered(bucket: Bucket)
      requires old(Sound()) && bucket in old(heap.Elems()) && owned == old(owned)
      requires forall b :: b in owned ==> b.id == old(b.id)
      requires heap.Elems() == old(heap.Elems()) - {bucket} && buckets == old(buckets) - {old(bucket.id)}
      ensures Registered()
    {
      hide BucketId, NoDup, Filed, SparesClean, BucketHeap.Valid, Chained;
    }

    twostate lemma Reregistered(bucket: Bucket)
      requires old(Sound()) && bucket in old(heap.Elems()) && owned == old(owned)
      requires forall b :: b in owned && b != bucket ==> b.id == old(b.id)
      requires heap.Elems() == old(heap.Elems()) && bucket.id !in old(buckets)
      requires buckets == (old(buckets) - {old(bucket.id)})[bucket.id := bucket]
      ensures Registered()
    {
      hide BucketId, NoDup, Filed, SparesClean, BucketHeap.Valid, Chained;
    }

    /** Everything is in order after a change to the chain of `bucket` alone. */
    twostate lemma ChainChanged(bucket: Bucket)
      requires old(Sound()) && bucket in old(heap.Elems())
      requires owned == old(owned) && buckets == old(buckets) && spareCount == old(spareCount) &&
                spares[..] == old(spares[..])
      requires heap.slots == old(heap.slots) && heap.ids == old(heap.ids)
      requires forall b :: b in owned ==> b.id == old(b.id) && b.heapIndex == old(b.heapIndex)
      requires forall b :: b in owned && b != bucket ==>
                 b.head == old(b.head) && b.tail == old(b.tail) && b.count == old(b.count) && b.items == old(b.items)
      requires forall e :: e in old(filed) && e !in Elems(old(bucket.items)) ==>
                 e.expirationPrevious == old(e.expirationPrevious) && e.expirationNext == old(e.expirationNext)
      requires bucket.Valid() && chains == old(chains)[bucket.id := bucket.items]
      requires Filed(chains, filed) && Spared(old(chains), chains, bucket.id, filed.Keys) &&
                Elems(bucket.items) <= filed.Keys
      ensures Sound() && bucket in heap.Elems() && bucket.count == |bucket.items|
    {
      hide LinkedAt, NoDup, Filed, SparesClean, Spared, BucketId, Ordered;
      assert old(Chained(bucket));
      MakeChained(bucket);
      OthersChained(bucket);
      SparesKept();
      assert Registered();
    }

    // ------------------------------------------------------------ one chain

    method Append(bucket: Bucket, item: Entry)
      requires Sound() && bucket in heap.Elems() && item !in filed
      modifies this`chains, this`filed, bucket`head, bucket`tail, bucket`count, bucket`items
      modifies filed.Keys`expirationNext, item`expirationPrevious, item`expirationNext
      ensures Sound()
      ensures chains == old(chains)[bucket.id := old(chains)[bucket.id] + [item]]
      ensures filed == old(filed)[item := bucket.id]
    {
      hide Elems, LinkedAt, NoDup, Bucket.Valid, BucketHeap.Valid, Filed, Registered, SparesClean, Chained, Spared;
      InHeap(bucket);
      FiledAppend(chains, filed, bucket.id, item);
      bucket.PushBack(item);
      chains := chains[bucket.id := bucket.items];
      filed := filed[item := bucket.id];
      ChainChanged(bucket);
    }

    method Detach(bucket: Bucket, item: Entry)
      requires Sound() && item in filed && bucket in heap.Elems() && bucket.id == filed[item]
      modifies this`chains, this`filed, bucket`head, bucket`tail, bucket`count, bucket`items
      modifies filed.Keys`expirationPrevious, filed.Keys`expirationNext
      ensures Sound()
      ensures chains == old(chains)[bucket.id := Minus(old(chains)[bucket.id], item)]
      ensures filed == old(filed) - {item}
      ensures item.expirationPrevious == null && item.expirationNext == null
      ensures bucket in heap.Elems() && bucket.count == |bucket.items| && bucket.items == chains[bucket.id]
    {
      hide Elems, LinkedAt, NoDup, Bucket.Valid, BucketHeap.Valid, Filed, Minus, Registered, SparesClean, Chained,
           Spared;
      InHeap(bucket);
      Member(bucket, item);
      FiledMinus(chains, filed, bucket.id, item);
      bucket.Remove(item);
      chains := chains[bucket.id := bucket.items];
      filed := filed - {item};
      ChainChanged(bucket);
    }

    lemma Member(bucket: Bucket, item: Entry)
      requires Sound() && bucket in heap.Elems()
      ensures item in filed && filed[item] == bucket.id <==> item in bucket.items
    {
      if item in filed && filed[item] == bucket.id {
        BucketOf(item);
      }
      if item in bucket.items {
        ChainOf(bucket, item);
      }
    }

    method DetachLast(bucket: Bucket) returns (item: Entry)
      requires Sound() && bucket in heap.Elems() && bucket.items != []
      modifies this`chains, this`filed, bucket`head, bucket`tail, bucket`count, bucket`items
      modifies filed.Keys`expirationPrevious, filed.Keys`expirationNext
      ensures Sound()
      ensures item == old(bucket.items[|bucket.items| - 1]) && item in old(filed) && old(filed)[item] == bucket.id
      ensures chains == old(chains)[bucket.id := old(bucket.items[..|bucket.items| - 1])]
      ensures filed == old(filed) - {item}
      ensures bucket in heap.Elems() && bucket.count == |bucket.items| && bucket.items == chains[bucket.id]
    {
      hide Elems, LinkedAt, NoDup, Bucket.Valid, BucketHeap.Valid, Filed, Minus, Registered, SparesClean, Chained,
           Spared;
      ghost var last := bucket.items[|bucket.items| - 1];
      InHeap(bucket);
      Member(bucket, last);
      FiledMinus(chains, filed, bucket.id, last);
      MinusLast(bucket.items);
      var popped := bucket.PopBack();
      if popped == null {
        assert false; // an active bucket cannot be empty
      }
      item := popped;
      chains := chains[bucket.id := bucket.items];
      filed := filed - {item};
      ChainChanged(bucket);
    }

    // ------------------------------------------------------------ both tables

    method DeactivateBucket(bucket: Bucket)
      requires Sound() && bucket in heap.Elems() && bucket.items == []
      modifies this`buckets, this`chains, heap, owned`heapIndex
      ensures Sound() && bucket !in heap.Elems() && bucket in owned && NotSpare(bucket)
      ensures chains == old(chains) - {bucket.id}
    {
      hide Elems, BucketId, LinkedAt, NoDup, Bucket.Valid, BucketHeap.Valid, Filed, Registered, SparesClean, Chained,
           Spared;
      InHeap(bucket);
      FiledDrop(chains, filed, bucket.id);
      buckets := buckets - {bucket.id};
      chains := chains - {bucket.id};
      var removed := heap.Remove(bucket.heapIndex);
      SparesKept();
      Unregistered(bucket);
      OthersChained(bucket);
    }

    lemma RootPlace()
      requires Sound() && heap.slots != []
      ensures heap.slots[0] in heap.Elems()
    {
    }

    /** As DeactivateBucket, for the bucket at the root of the heap. */
    method DeactivateRoot() returns (bucket: Bucket)
      requires Sound() && heap.slots != [] && heap.slots[0].items == []
      modifies this`buckets, this`chains, heap, owned`heapIndex
      ensures Sound() && bucket == old(heap.slots[0]) && bucket !in heap.Elems() && bucket in owned && NotSpare(bucket)
      ensures chains == old(chains) - {bucket.id}
    {
      hide Elems, BucketId, LinkedAt, NoDup, Bucket.Valid, BucketHeap.Valid, Filed, Registered, SparesClean, Chained,
           Spared;
      RootPlace();
      bucket := heap.slots[0];
      InHeap(bucket);
      FiledDrop(chains, filed, bucket.id);
      buckets := buckets - {bucket.id};
      chains := chains - {bucket.id};
      var removed := heap.Pop();
      SparesKept();
      Unregistered(bucket);
      OthersChained(bucket);
    }

    /** Takes an emptied bucket out of both tables and keeps it as a spare if there is room. */
    method Retire(bucket: Bucket)
      requires Sound() && bucket in heap.Elems() && bucket.items == []
      modifies this`buckets, this`chains, this`spareCount, heap, spares, owned`heapIndex, bucket
      ensures Sound() && chains == old(chains) - {old(bucket.id)}
      ensures spareCount == Min(old(spareCount) + 1, MAX_SPARE_BUCKETS)
    {
      hide *;
      OwnedBuckets();
      DeactivateBucket(bucket);
      ReleaseBucket(bucket);
    }

    method RetireRoot()
      requires Sound() && heap.slots != [] && heap.slots[0].items == []
      modifies this`buckets, this`chains, this`spareCount, heap, spares, owned`heapIndex, owned
      ensures Sound() && chains == old(chains) - {old(heap.slots[0].id)}
      ensures spareCount == Min(old(spareCount) + 1, MAX_SPARE_BUCKETS)
    {
      hide *;
      OwnedBuckets();
      var bucket := DeactivateRoot();
      ReleaseBucket(bucket);
    }

    lemma OwnedBuckets()
      requires Sound()
      ensures heap.Elems() <= owned
    {
    }

    lemma PositiveGrid()
      requires Dated()
      ensures resolution > 0
    {
    }

    lemma FiledAsDated(item: Entry)
      requires Dated() && item in filed
      ensures item.deadline > 0 && resolution > 0 && filed[item] == BucketId(item.deadline, resolution)
    {
    }

    /** What is still indexed has its deadline, and what is new has the right one. */
    twostate lemma StillDated()
      requires old(Dated())
      requires forall e :: e in filed && e in old(filed) ==> filed[e] == old(filed)[e] && e.deadline == old(e.deadline)
      requires forall e :: e in filed && e !in old(filed) ==>
                e.deadline > 0 && BucketId(e.deadline, resolution) == filed[e]
      ensures Dated()
    {
    }

    method Add(item: Entry)
      requires Valid() && item !in filed
      modifies Footprint()
      modifies filed.Keys`expirationNext, item`expirationPrevious, item`expirationNext
      ensures Valid() && fresh(owned - old(owned)) && old(owned) <= owned
      ensures item.deadline == 0 ==> chains == old(chains) && filed == old(filed)
      ensures item.deadline > 0 ==>
                && filed == old(filed)[item := BucketId(item.deadline, resolution)]
                && chains == Added(old(chains), BucketId(item.deadline, resolution), item)
    {
      hide BucketId, Sound, Dated, NoneEmpty, Added, Chain;
      PositiveGrid();
      if item.deadline == 0 {
        return;
      }
      var id := BucketId(item.deadline, resolution);
      StaysFull(chains, id, item);
      var bucket := Activate(id);
      Append(bucket, item);
      StillDated();
    }

    method Remove(item: Entry)
      requires Valid() && (item.deadline != 0 <==> item in filed)
      modifies Footprint()
      modifies filed.Keys`expirationPrevious, filed.Keys`expirationNext
      ensures Valid() && owned == old(owned)
      ensures item.deadline == 0 ==> chains == old(chains) && filed == old(filed)
      ensures item.deadline > 0 ==>
                && filed == old(filed) - {item}
                && chains == Removed(old(chains), BucketId(item.deadline, resolution), item)
                && item.expirationPrevious == null && item.expirationNext == null
    {
      hide BucketId, Sound, Dated, NoneEmpty, Removed, Minus, Bucket.Valid;
      PositiveGrid();
      if item.deadline == 0 {
        return;
      }
      var id := BucketId(item.deadline, resolution);
      FiledAsDated(item);
      BucketOf(item);
      if id !in buckets {
        assert false; // the bucket of an indexed entry cannot be missing
      }
      var bucket := buckets[id];
      RemovedCases(chains, id, item);
      StaysFull(chains, id, item);
      Detach(bucket, item);
      if bucket.count == 0 {
        Retire(bucket);
      }
      StillDated();
    }

    /** Everything is in order after the only entry of `bucket` has gone with it to a new chain. */
    twostate lemma Rekeyed(bucket: Bucket)
      requires old(Sound()) && bucket in old(heap.Elems()) && |old(bucket.items)| == 1
      requires Registered() && heap.Valid() && SparesClean() && heap.Elems() == old(heap.Elems())
      requires bucket.id !in old(buckets) && buckets.Keys == old(buckets.Keys) - {old(bucket.id)} + {bucket.id}
      requires owned == old(owned) && forall b :: b in owned && b != bucket ==> b.id == old(b.id)
      requires forall b :: b in owned ==>
                 b.head == old(b.head) && b.tail == old(b.tail) && b.count == old(b.count) && b.items == old(b.items)
      requires forall e :: e in old(filed) ==>
                 e.expirationPrevious == old(e.expirationPrevious) && e.expirationNext == old(e.expirationNext)
      requires chains == (old(chains) - {old(bucket.id)})[bucket.id := bucket.items]
      requires filed == old(filed)[bucket.items[0] := bucket.id]
      ensures Sound()
    {
      hide BucketId, LinkedAt, NoDup, BucketHeap.Valid, Filed, SparesClean, Spared;
      assert heap.Elems() <= owned;
      assert old(Chained(bucket));
      FiledRekey(old(chains), old(filed), old(bucket.id), bucket.id, bucket.items[0]);
      OthersChained(bucket);
      MakeChained(bucket);
    }

    /** Gives a bucket a new, unused id; heap order is broken between the write of the id and the repair. */
    method Renumber(bucket: Bucket, newId: Int64)
      requires Sound() && bucket in heap.Elems() && newId !in buckets
      modifies this`buckets, heap, bucket`id, owned`heapIndex
      ensures heap.Valid() && Registered() && SparesClean() && heap.Elems() == old(heap.Elems())
      ensures bucket.id == newId
      ensures buckets.Keys == old(buckets.Keys) - {old(bucket.id)} + {newId}
    {
      hide BucketId, Bucket.Valid, Filed, Registered, SparesClean, Chained;
      InHeap(bucket);
      buckets := buckets - {bucket.id};
      bucket.id := newId;
      buckets := buckets[newId := bucket];
      heap.Fix(bucket.heapIndex);
      Reregistered(bucket);
      SparesKept();
    }

    /** Gives a one-entry bucket a new id, and moves its entry with it. */
    method Rekey(bucket: Bucket, item: Entry, newId: Int64)
      requires Sound() && bucket in heap.Elems() && bucket.items == [item] && newId !in buckets
      modifies this`buckets, this`chains, this`filed, heap, bucket`id, owned`heapIndex
      ensures Sound()
      ensures chains == (old(chains) - {old(bucket.id)})[newId := [item]]
      ensures filed == old(filed)[item := newId]
    {
      hide BucketId, LinkedAt, NoDup, Bucket.Valid, BucketHeap.Valid, Filed, Registered, SparesClean, Chained, Spared;
      OwnedBuckets();
      ghost var oldId := bucket.id;
      Renumber(bucket, newId);
      chains := (chains - {oldId})[newId := [item]];
      filed := filed[item := newId];
      Rekeyed(bucket);
    }

    /** Moves a bucket whose only member is `item` to another id in place, when that id is unused. */
    method RekeySingletonBucket(item: Entry, oldId: Int64, newId: Int64, deadline: Nanos) returns (done: bool)
      requires Valid() && item in filed && filed[item] == oldId
      requires deadline > 0 && newId == BucketId(deadline, resolution) && oldId != newId
      modifies this, heap, owned`id, owned`heapIndex, item`deadline
      ensures Valid() && owned == old(owned)
      ensures done <==> newId !in old(chains) && old(chains)[oldId] == [item]
      ensures done ==>
                && item.deadline == deadline
                && filed == old(filed)[item := newId]
                && chains == Added(Removed(old(chains), oldId, item), newId, item)
      ensures !done ==> item.deadline == old(item.deadline) && filed == old(filed) && chains == old(chains)
    {
      hide BucketId, Registered, Chained, SparesClean, Filed, Minus, Bucket.Valid, BucketHeap.Valid;
      BucketOf(item);
      if newId in buckets {
        return false;
      }
      var bucket := buckets[oldId];
      if bucket.heapIndex < 0 || !bucket.ContainsOnly(item) {
        return false;
      }
      RekeyIsMove(chains, oldId, newId, item);
      Rekey(bucket, item, newId);
      item.deadline := deadline;
      done := true;
    }

    method Update(item: Entry, deadline: Nanos)
      requires Valid() && (item.deadline != 0 <==> item in filed)
      modifies Footprint()
      modifies filed.Keys`expirationPrevious, filed.Keys`expirationNext
      modifies item`expirationPrevious, item`expirationNext, item`deadline
      ensures Valid() && fresh(owned - old(owned)) && old(owned) <= owned
      ensures item.deadline == deadline
      ensures chains == Moved(old(chains), item, old(item.deadline), deadline, resolution)
      ensures filed.Keys == old(filed).Keys - {item} + (if deadline == 0 then {} else {item})
    {
      hide BucketId, Registered, Chained, SparesClean, Filed, Minus, Sound, Added, Removed;
      var oldDeadline := item.deadline;
      if oldDeadline == deadline {
        return;
      }
      if deadline == 0 {
        Remove(item);
        item.deadline := 0;
        return;
      }
      if oldDeadline == 0 {
        item.deadline := deadline;
        Add(item);
        return;
      }
      var oldId := BucketId(oldDeadline, resolution);
      var newId := BucketId(deadline, resolution);
      if oldId == newId {
        item.deadline := deadline;
        return;
      }
      var done := RekeySingletonBucket(item, oldId, newId, deadline);
      if done {
        return;
      }
      Remove(item);
      item.deadline := deadline;
      Add(item);
    }

    predicate HasDueBucket(due: Int64)
      reads this, heap, heap.Elems()`id
    {
      |heap.slots| != 0 && heap.slots[0].id <= due
    }

    method PopRootEntry() returns (item: Entry)
      requires Valid() && heap.slots != []
      modifies Footprint()
      modifies filed.Keys`expirationPrevious, filed.Keys`expirationNext
      ensures Valid() && owned == old(owned)
      ensures item == old(RootEntry()) && filed == old(filed) - {item}
      ensures var id := old(filed)[item];
              && item == old(chains)[id][|old(chains)[id]| - 1]
              && chains == With(old(chains), id, old(chains)[id][..|old(chains)[id]| - 1])
    {
      hide BucketId, Sound, Dated, NoneEmpty, With, Minus, Bucket.Valid, BucketHeap.Valid;
      var bucket := heap.slots[0];
      RootIsFirst();
      ShortenedCases(chains, bucket.id);
      item := DetachLast(bucket);
      if bucket.count == 0 {
        RetireRoot();
      }
      StillDated();
    }

    /** Drops both tables and hands back the buckets that were active. */
    method DropTables() returns (active: seq<Bucket>)
      requires Valid()
      modifies this`buckets, this`chains, this`filed, heap
      ensures Valid() && chains == map[] && filed == map[] && heap.slots == []
      ensures active == old(heap.slots)
      ensures forall k :: 0 <= k < |active| ==> active[k] in owned && NotSpare(active[k])
      ensures forall k, l :: 0 <= k < l < |active| ==> active[k] != active[l]
    {
      active := heap.slots;
      assert forall k :: 0 <= k < |active| ==> active[k] in heap.Elems();
      buckets := map[];
      heap.Reset();
      chains := map[];
      filed := map[];
    }

    method Reset()
      requires Valid()
      modifies Footprint()
      ensures Valid() && owned == old(owned) && chains == map[] && filed == map[]
    {
      hide BucketId, Registered, Chained, SparesClean, Filed;
      var active := DropTables();
      for i := 0 to |active|
        invariant Valid() && owned == old(owned) && chains == map[] && filed == map[] && heap.slots == []
        invariant forall k :: i <= k < |active| ==> active[k] in owned && NotSpare(active[k])
      {
        ReleaseBucket(active[i]);
      }
    }
  }
}
