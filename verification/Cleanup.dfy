/** The background cleanup worker: budgeted, batched, rotating passes over the segments. */
module Cleanup {
  import opened Types
  import opened SegmentModel
  import opened Segments
  import opened Drains
  import opened SegmentedStorage
  import opened Routing

  /** The segments of `pending` that still have due entries, in order. */
  ghost function StillPending(pending: seq<nat>, c: Contents, now: Nanos, resolution: Int64): seq<nat>
    requires resolution > 0
  {
    if pending == [] then [] else
      var last := pending[|pending| - 1];
      StillPending(pending[..|pending| - 1], c, now, resolution) +
      (if last < |c| && DueKeys(c[last], now, resolution) != {} then [last] else [])
  }

  lemma {:induction false} KeptAreListed(pending: seq<nat>, c: Contents, now: Nanos, resolution: Int64)
    requires resolution > 0
    ensures forall k :: k in StillPending(pending, c, now, resolution) ==> k in pending
  {
    hide DueKeys;
    if pending != [] {
      KeptAreListed(pending[..|pending| - 1], c, now, resolution);
    }
  }

  lemma {:induction false} StillPendingFrame(pending: seq<nat>, c: Contents, c': Contents, index: nat,
                                             now: Nanos, resolution: Int64)
    requires resolution > 0 && index < |c| == |c'| && c' == c[index := c'[index]] && index !in pending
    ensures StillPending(pending, c', now, resolution) == StillPending(pending, c, now, resolution)
  {
    hide DueKeys;
    if pending != [] {
      StillPendingFrame(pending[..|pending| - 1], c, c', index, now, resolution);
    }
  }

  /** Exactly those segments of `among` that have due entries are listed, each once. */
  ghost predicate ListsDue(pending: seq<nat>, among: set<nat>, c: Contents, now: Nanos, resolution: Int64)
    requires resolution > 0
  {
    && (forall i :: 0 <= i < |pending| ==>
          pending[i] in among && pending[i] < |c| && DueKeys(c[pending[i]], now, resolution) != {})
    && (forall i, j :: 0 <= i < j < |pending| ==> pending[i] != pending[j])
    && (forall k :: k in among && k < |c| && DueKeys(c[k], now, resolution) != {} ==> k in pending)
  }

  lemma NoElements(all: set<nat>)
    ensures all - SegmentSet([]) == all
  {
  }

  ghost predicate Below(k: nat, n: nat) {
    k < n
  }

  ghost function All(segmentCount: nat): set<nat> {
    set k: nat | k < segmentCount && Below(k, segmentCount)
  }

  /**
   * The segments that a quantum starting at `start` reaches in its first pass, when that pass covers `first` of
   * them.
   */
  ghost function Reached(segmentCount: nat, start: nat, first: nat): set<nat>
    requires segmentCount > 0
  {
    if first == 0 then {} else Reached(segmentCount, start, first - 1) + {(start + first - 1) % segmentCount}
  }

  lemma {:induction false} NotReached(segmentCount: nat, start: nat, first: nat, offset: nat)
    requires start < segmentCount && first <= offset < segmentCount
    ensures (start + offset) % segmentCount !in Reached(segmentCount, start, first)
  {
    if first > 0 {
      NotReached(segmentCount, start, first - 1, offset);
      WrapIsRemainder(segmentCount, start, offset);
      WrapIsRemainder(segmentCount, start, first - 1);
    }
  }

  lemma {:induction false} IsReached(segmentCount: nat, start: nat, first: nat, offset: nat)
    requires segmentCount > 0 && offset < first
    ensures (start + offset) % segmentCount in Reached(segmentCount, start, first)
  {
    if offset < first - 1 {
      IsReached(segmentCount, start, first - 1, offset);
    }
  }

  lemma {:induction false} ReachedInRange(segmentCount: nat, start: nat, first: nat)
    requires segmentCount > 0
    ensures Reached(segmentCount, start, first) <= All(segmentCount)
  {
    if first > 0 {
      ReachedInRange(segmentCount, start, first - 1);
    }
  }

  lemma ReachedAll(segmentCount: nat, start: nat)
    requires start < segmentCount
    ensures Reached(segmentCount, start, segmentCount) == All(segmentCount)
  {
    ReachedInRange(segmentCount, start, segmentCount);
    forall s: nat | s < segmentCount ensures s in Reached(segmentCount, start, segmentCount) {
      var k := if s >= start then s - start else s - start + segmentCount;
      WrapIsRemainder(segmentCount, start, k);
      IsReached(segmentCount, start, segmentCount, k);
    }
  }

  function Wrap(segmentCount: nat, start: nat, offset: nat): nat
    requires start < segmentCount && offset < segmentCount
  {
    if start + offset < segmentCount then start + offset else start + offset - segmentCount
  }

  lemma WrapIsRemainder(segmentCount: nat, start: nat, offset: nat)
    requires start < segmentCount && offset < segmentCount
    ensures (start + offset) % segmentCount == Wrap(segmentCount, start, offset)
  {
    if start + offset >= segmentCount {
      RemainderIsUnique(start + offset, segmentCount, 1, start + offset - segmentCount);
    } else {
      RemainderIsUnique(start + offset, segmentCount, 0, start + offset);
    }
  }

  lemma ListedOnce(pending: seq<nat>, among: set<nat>, c: Contents, now: Nanos, resolution: Int64)
    requires resolution > 0 && ListsDue(pending, among, c, now, resolution)
    ensures forall i :: 0 <= i < |pending| ==> pending[i] < |c| && DueKeys(c[pending[i]], now, resolution) != {}
    ensures forall i, j :: 0 <= i < j < |pending| ==> pending[i] != pending[j]
    ensures ListsDue([], among - SegmentSet(pending), c, now, resolution)
  {
  }

  /** Moving one position on in a list without duplicates. */
  lemma Around(pending: seq<nat>, i: nat, all: set<nat>)
    requires i < |pending| && pending[i] in all
    requires forall k, l :: 0 <= k < l < |pending| ==> pending[k] != pending[l]
    ensures pending[i] !in pending[..i] && pending[..i + 1][..i] == pending[..i]
    ensures pending[i] !in all - SegmentSet(pending[i..])
    ensures all - SegmentSet(pending[i..]) + {pending[i]} == all - SegmentSet(pending[i + 1..])
  {
    assert pending[i..] == [pending[i]] + pending[i + 1..];
    assert pending[i..][0] == pending[i];
  }

  /** Sweeping one more segment extends what is kept by that segment, if it is still due. */
  lemma StillPendingStep(pending: seq<nat>, i: nat, c: Contents, c': Contents, now: Nanos, resolution: Int64)
    requires resolution > 0 && i < |pending| && pending[i] < |c| == |c'| && c' == c[pending[i] := c'[pending[i]]]
    requires pending[i] !in pending[..i]
    ensures StillPending(pending[..i + 1], c', now, resolution) ==
              StillPending(pending[..i], c, now, resolution) +
              (if DueKeys(c'[pending[i]], now, resolution) != {} then [pending[i]] else [])
  {
    hide DueKeys;
    StillPendingFrame(pending[..i], c, c', pending[i], now, resolution);
    assert pending[..i + 1][..i] == pending[..i];
  }

  /** A batch on `index` settles whether `index` stays listed, and touches nothing else. */
  lemma ListsDueStep(pending: seq<nat>, among: set<nat>, c: Contents, c': Contents, index: nat, now: Nanos,
                     resolution: Int64)
    requires resolution > 0 && index < |c| == |c'| && c' == c[index := c'[index]]
    requires ListsDue(pending, among, c, now, resolution) && index !in among
    ensures DueKeys(c'[index], now, resolution) == {} ==> ListsDue(pending, among + {index}, c', now, resolution)
    ensures DueKeys(c'[index], now, resolution) != {} ==>
              ListsDue(pending + [index], among + {index}, c', now, resolution)
  {
    hide DueKeys;
    forall k | k in among + {index} && k < |c'| && DueKeys(c'[k], now, resolution) != {} && k != index
      ensures k in pending
    {
      assert c'[k] == c[k];
    }
    assert forall i :: 0 <= i < |pending| ==> c'[pending[i]] == c[pending[i]];
  }

  /** Every segment of `reached` that had due entries has lost some. */
  ghost predicate Served(before: Contents, gone: seq<set<Key>>, reached: set<nat>, now: Nanos, resolution: Int64)
    requires resolution > 0
  {
    |gone| == |before| &&
    forall k :: k in reached && k < |before| && DueKeys(before[k], now, resolution) != {} ==> gone[k] != {}
  }

  lemma ServedStep(before: Contents, gone: seq<set<Key>>, gone': seq<set<Key>>, reached: set<nat>, index: nat,
                   now: Nanos, resolution: Int64)
    requires resolution > 0 && Served(before, gone, reached, now, resolution) && index < |before|
    requires |gone'| == |gone| && gone' == gone[index := gone'[index]] && gone[index] <= gone'[index]
    requires DueKeys(before[index], now, resolution) != {} ==> gone'[index] != {}
    ensures Served(before, gone', reached + {index}, now, resolution)
  {
  }

  lemma ServedMore(before: Contents, gone: seq<set<Key>>, gone': seq<set<Key>>, reached: set<nat>, now: Nanos,
                   resolution: Int64)
    requires resolution > 0 && Served(before, gone, reached, now, resolution)
    requires |gone'| == |gone| && forall k :: 0 <= k < |gone| ==> gone[k] <= gone'[k]
    ensures Served(before, gone', reached, now, resolution)
  {
  }

  lemma NoneServed(before: Contents, gone: seq<set<Key>>, now: Nanos, resolution: Int64)
    requires resolution > 0 && |gone| == |before|
    ensures Served(before, gone, {}, now, resolution)
  {
  }

  lemma NothingListed(pending: seq<nat>, c: Contents, now: Nanos, resolution: Int64)
    requires resolution > 0 && pending == [] && ListsDue(pending, All(|c|), c, now, resolution)
    ensures NoneDue(c, now, resolution)
  {
  }

  lemma EmptyList(c: Contents, now: Nanos, resolution: Int64)
    requires resolution > 0
    ensures ListsDue([], {}, c, now, resolution)
  {
  }

  lemma ReachedStep(segmentCount: nat, start: nat, offset: nat)
    requires start < segmentCount && offset < segmentCount
    ensures (start + offset) % segmentCount !in Reached(segmentCount, start, offset)
    ensures Reached(segmentCount, start, offset + 1) ==
              Reached(segmentCount, start, offset) + {(start + offset) % segmentCount}
    ensures Reached(segmentCount, start, 0) == {}
  {
    NotReached(segmentCount, start, offset, offset);
  }

  /** How far `segment` is from `start` in the direction of the passes. */
  function Distance(segmentCount: nat, start: nat, segment: nat): nat
    requires start < segmentCount && segment < segmentCount
  {
    if segment >= start then segment - start else segment + segmentCount - start
  }

  /** The listed segments come in the order in which a pass from `start` reaches them, and within its first `limit`. */
  ghost predicate Turns(listed: seq<nat>, segmentCount: nat, start: nat, limit: nat) {
    && start < segmentCount
    && (forall i :: 0 <= i < |listed| ==>
          listed[i] < segmentCount && Distance(segmentCount, start, listed[i]) < limit)
    && (forall i, j :: 0 <= i < j < |listed| ==>
          Distance(segmentCount, start, listed[i]) < Distance(segmentCount, start, listed[j]))
  }

  lemma NextTurn(listed: seq<nat>, segmentCount: nat, start: nat, offset: nat)
    requires Turns(listed, segmentCount, start, offset) && offset < segmentCount
    ensures Turns(listed, segmentCount, start, offset + 1)
    ensures Turns(listed + [(start + offset) % segmentCount], segmentCount, start, offset + 1)
  {
    WrapIsRemainder(segmentCount, start, offset);
  }

  lemma {:induction false} StillTurns(pending: seq<nat>, c: Contents, now: Nanos, resolution: Int64, start: nat,
                                      limit: nat)
    requires resolution > 0 && Turns(pending, |c|, start, limit)
    ensures Turns(StillPending(pending, c, now, resolution), |c|, start, limit)
  {
    hide DueKeys;
    if pending != [] {
      var n := |pending| - 1;
      StillTurns(pending[..n], c, now, resolution, start, Distance(|c|, start, pending[n]));
    }
  }

  /** A round over the listed segments that was cut short at position `at`, and what had been removed before it. */
  datatype Round = Round(listed: seq<nat>, at: nat, gone: seq<set<Key>>)

  /**
   * The next quantum begins where the round was cut short: at the first listed segment that it did not process. Each
   * of those before has lost more entries in this round, those from there on have lost none and are still due, and
   * no segment that is not listed is due.
   */
  ghost predicate CutShort(r: Round, c: Contents, gone: seq<set<Key>>, next: nat, now: Nanos, resolution: Int64)
    requires resolution > 0
  {
    && |r.gone| == |gone| == |c|
    && r.at < |r.listed| && next == r.listed[r.at]
    && (forall k :: 0 <= k < |r.listed| ==> r.listed[k] < |c|)
    && (forall k :: 0 <= k < r.at ==> r.gone[r.listed[k]] < gone[r.listed[k]])
    && (forall k :: r.at <= k < |r.listed| ==>
          gone[r.listed[k]] == r.gone[r.listed[k]] && DueKeys(c[r.listed[k]], now, resolution) != {})
    && (forall k: nat :: k < |c| && DueKeys(c[k], now, resolution) != {} ==> k in r.listed)
  }

  /** In this round the first `i` listed segments have lost more entries, and the others listed have not. */
  ghost predicate Swept(listed: seq<nat>, i: nat, gone: seq<set<Key>>, gone': seq<set<Key>>) {
    && |gone'| == |gone|
    && (forall k :: 0 <= k < |listed| ==> listed[k] < |gone|)
    && (forall k :: 0 <= k < |gone| ==> gone[k] <= gone'[k])
    && (forall k :: 0 <= k < i && k < |listed| ==> gone[listed[k]] < gone'[listed[k]])
    && (forall k :: i <= k < |listed| ==> gone'[listed[k]] == gone[listed[k]])
  }

  lemma NothingSwept(listed: seq<nat>, gone: seq<set<Key>>)
    requires forall k :: 0 <= k < |listed| ==> listed[k] < |gone|
    ensures Swept(listed, 0, gone, gone)
  {
  }

  lemma SweptMore(listed: seq<nat>, i: nat, gone: seq<set<Key>>, gone': seq<set<Key>>)
    requires Swept(listed, i, gone, gone')
    ensures |gone'| == |gone| && forall k :: 0 <= k < |gone| ==> gone[k] <= gone'[k]
  {
  }

  lemma SweptStep(listed: seq<nat>, i: nat, gone: seq<set<Key>>, gone': seq<set<Key>>, gone'': seq<set<Key>>)
    requires Swept(listed, i, gone, gone') && i < |listed|
    requires forall k, l :: 0 <= k < l < |listed| ==> listed[k] != listed[l]
    requires |gone''| == |gone'| && gone'' == gone'[listed[i] := gone''[listed[i]]]
    requires gone'[listed[i]] < gone''[listed[i]]
    ensures Swept(listed, i + 1, gone, gone'')
  {
  }

  /** How a quantum moves the starting point of the next one. */
  ghost predicate Rotates(segmentCount: nat, start: nat, first: nat, next: nat) {
    && next < segmentCount
    && first <= segmentCount
    && (first < segmentCount ==> next == (start + first) % segmentCount)
  }

  /** What one quantum did. */
  datatype Quantum = Quantum(start: nat, first: nat, next: nat, now: Nanos, before: Contents, gone: seq<set<Key>>)

  /** Consecutive quanta over `segmentCount` segments, each of which passed its first budget check. */
  ghost predicate Consecutive(quanta: seq<Quantum>, segmentCount: nat, resolution: Int64)
    requires resolution > 0
  {
    && (forall q :: 0 <= q < |quanta| ==>
          && quanta[q].start < segmentCount && quanta[q].first > 0
          && |quanta[q].before| == segmentCount
          && Rotates(segmentCount, quanta[q].start, quanta[q].first, quanta[q].next)
          && Served(quanta[q].before, quanta[q].gone, Reached(segmentCount, quanta[q].start, quanta[q].first),
                    quanta[q].now, resolution))
    && (forall q :: 0 < q < |quanta| ==> quanta[q].start == quanta[q - 1].next)
  }

  /** The quantum reaches `segment`, and reclaims from it if it was due. */
  ghost predicate Attends(q: Quantum, segmentCount: nat, segment: nat, resolution: Int64)
    requires resolution > 0 && segmentCount > 0
  {
    && segment in Reached(segmentCount, q.start, q.first)
    && segment < |q.before| == |q.gone|
    && (DueKeys(q.before[segment], q.now, resolution) != {} ==> q.gone[segment] != {})
  }

  /** A segment `distance` places after the start is reached within `distance + 1` quanta. */
  lemma {:induction false} ReachedWithin(quanta: seq<Quantum>, segmentCount: nat, distance: nat, resolution: Int64)
    requires resolution > 0 && Consecutive(quanta, segmentCount, resolution) && distance < |quanta|
    requires distance < segmentCount
    ensures exists q :: 0 <= q < |quanta| &&
              Attends(quanta[q], segmentCount, (quanta[0].start + distance) % segmentCount, resolution)
  {
    hide DueKeys, Reached;
    var q0 := quanta[0];
    var segment := (q0.start + distance) % segmentCount;
    if distance < q0.first {
      IsReached(segmentCount, q0.start, q0.first, distance);
      assert Attends(quanta[0], segmentCount, segment, resolution);
    } else {
      var rest := quanta[1..];
      assert rest[0].start == q0.next;
      forall q | 0 < q < |rest| ensures rest[q].start == rest[q - 1].next {
        assert rest[q] == quanta[q + 1] && rest[q - 1] == quanta[q];
      }
      ReachedWithin(rest, segmentCount, distance - q0.first, resolution);
      WrapIsRemainder(segmentCount, q0.start, distance);
      WrapIsRemainder(segmentCount, q0.start, q0.first);
      WrapIsRemainder(segmentCount, q0.next, distance - q0.first);
      var q :| 0 <= q < |rest| && Attends(rest[q], segmentCount, segment, resolution);
      assert quanta[q + 1] == rest[q];
    }
  }

  /**
   * In as many consecutive quanta as there are segments, every segment is attended to,
   * whatever the clock did after the first check of each quantum.
   */
  lemma RotationIsFair(quanta: seq<Quantum>, segmentCount: nat, segment: nat, resolution: Int64)
    requires resolution > 0 && Consecutive(quanta, segmentCount, resolution)
    requires |quanta| == segmentCount && segment < segmentCount
    ensures exists q :: 0 <= q < |quanta| && Attends(quanta[q], segmentCount, segment, resolution)
  {
    hide DueKeys, Reached;
    var start := quanta[0].start;
    var distance := if segment >= start then segment - start else segment + segmentCount - start;
    WrapIsRemainder(segmentCount, start, distance);
    ReachedWithin(quanta, segmentCount, distance, resolution);
  }

  ghost predicate AttendedTo(quanta: seq<Quantum>, segmentCount: nat, segment: nat, resolution: Int64)
    requires resolution > 0 && segmentCount > 0
  {
    exists q :: 0 <= q < |quanta| && Attends(quanta[q], segmentCount, segment, resolution)
  }

  lemma AllAttended(quanta: seq<Quantum>, segmentCount: nat, resolution: Int64)
    requires resolution > 0 && 0 < segmentCount == |quanta| && Consecutive(quanta, segmentCount, resolution)
    ensures forall segment: nat :: segment < segmentCount ==> AttendedTo(quanta, segmentCount, segment, resolution)
  {
    hide Consecutive, Attends;
    forall segment: nat | segment < segmentCount ensures AttendedTo(quanta, segmentCount, segment, resolution) {
      RotationIsFair(quanta, segmentCount, segment, resolution);
    }
  }

  class CleanupWorker {
    const store: Store
    const batchSize: nat
    const entryBudget: nat
    const scratchSegments: array<nat>
    var nextSegment: nat

    ghost predicate Valid()
      reads this, store, store.Repr, store.segments
    {
      && store.Valid()
      && store.resolution > 0 && batchSize > 0 && entryBudget > 0
      && this !in store.Repr && scratchSegments !in store.Repr
      && nextSegment < |store.segments|
      && (|store.segments| > 1 ==> scratchSegments.Length == |store.segments|)
    }

    constructor (store: Store, batchSize: nat, entryBudget: nat)
      requires store.Valid() && batchSize > 0 && entryBudget > 0
      ensures Valid() && nextSegment == 0 && fresh(scratchSegments)
      ensures this.store == store && this.batchSize == batchSize && this.entryBudget == entryBudget
    {
      hide Segment.Valid;
      this.store := store;
      this.batchSize := batchSize;
      this.entryBudget := entryBudget;
      nextSegment := 0;
      var room := if |store.segments| > 1 then |store.segments| else 0;
      scratchSegments := new nat[room](_ => 0);
    }

    /** One batch on one segment. `before` and `gone` tell what the quantum has done so far. */
    method CleanupBatch(index: nat, cutoff: Nanos, remaining: nat, ghost before: Contents, ghost gone: seq<set<Key>>)
      returns (rest: nat, hasMore: bool, ghost gone': seq<set<Key>>)
      requires Valid() && index < |store.segments| && remaining > 0
      requires Progress(before, store.contents, gone, cutoff, store.resolution)
      modifies store, store.Repr
      ensures Valid() && store.Repr == old(store.Repr)
      ensures Passed(store.contents, store.counts) == old(Passed(store.contents, store.counts))
      ensures |store.contents| == |store.segments| == |gone| == |gone'|
      ensures store.contents == old(store.contents)[index := store.contents[index]]
      ensures gone' == gone[index := gone'[index]] && gone[index] <= gone'[index]
      ensures Progress(before, store.contents, gone', cutoff, store.resolution)
      ensures rest <= remaining && TotalGone(gone') + rest == TotalGone(gone) + remaining
      ensures hasMore <==> DueKeys(store.contents[index], cutoff, store.resolution) != {}
      ensures remaining - rest ==
                Min(Min(batchSize, remaining), |old(DueKeys(store.contents[index], cutoff, store.resolution))|)
      ensures old(DueKeys(store.contents[index], cutoff, store.resolution)) != {} ==>
                rest < remaining && gone'[index] != {} && gone[index] < gone'[index]
    {
      hide Store.Valid, Passed, Progress, DueKeys, Cleaned;
      store.AllDistinct();
      SameLength(before, store.contents, gone, cutoff, store.resolution);
      ghost var c := store.contents;
      var limit := Min(batchSize, remaining);
      var removed;
      ghost var more;
      removed, hasMore, more := store.CleanupExpiredAt(index, cutoff, limit);
      store.AllDistinct();
      CleanedCount(c[index], store.contents[index], more, cutoff, limit, store.resolution);
      ProgressStep(before, c, gone, index, store.contents[index], more, limit, cutoff, store.resolution);
      rest := remaining - removed;
      gone' := gone[index := gone[index] + more];
      assert gone'[index] == gone[index] ==> gone' == gone;
    }

    lemma SameLength(before: Contents, c: Contents, gone: seq<set<Key>>, now: Nanos, resolution: Int64)
      requires resolution > 0 && Progress(before, c, gone, now, resolution)
      ensures |before| == |c| == |gone|
    {
    }

    /** The first `i` listed segments have been swept, and those still due have been moved to the front of the array. */
    ghost predicate Sweeping(pending: seq<nat>, i: nat, kept: nat, cutoff: Nanos)
      reads this, scratchSegments, store, store.Repr, store.segments
    {
      && Valid()
      && kept <= i <= |pending| <= scratchSegments.Length
      && |store.contents| == |store.segments|
      && (forall k :: 0 <= k < |pending| ==> pending[k] < |store.contents|)
      && (forall k, l :: 0 <= k < l < |pending| ==> pending[k] != pending[l])
      && (forall k :: i <= k < |pending| ==> scratchSegments[k] == pending[k])
      && (forall k :: i <= k < |pending| ==> DueKeys(store.contents[pending[k]], cutoff, store.resolution) != {})
      && scratchSegments[..kept] == StillPending(pending[..i], store.contents, cutoff, store.resolution)
      && ListsDue(scratchSegments[..kept], All(|store.segments|) - SegmentSet(pending[i..]), store.contents, cutoff,
          store.resolution)
    }

    lemma StartSweep(pending: seq<nat>, cutoff: Nanos)
      requires Valid() && |store.contents| == |store.segments|
      requires |pending| <= scratchSegments.Length && scratchSegments[..|pending|] == pending
      requires ListsDue(pending, All(|store.segments|), store.contents, cutoff, store.resolution)
      ensures Sweeping(pending, 0, 0, cutoff)
    {
      hide Valid, DueKeys, ListsDue, SegmentSet;
      assert store.resolution > 0 by { PositiveResolution(); }
      ListedOnce(pending, All(|store.segments|), store.contents, cutoff, store.resolution);
      assert forall k :: 0 <= k < |pending| ==> scratchSegments[k] == scratchSegments[..|pending|][k];
      assert pending[0..] == pending;
    }

    lemma PositiveResolution()
      requires Valid()
      ensures store.resolution > 0
    {
    }

    lemma EndSweep(pending: seq<nat>, kept: nat, cutoff: Nanos)
      requires Sweeping(pending, |pending|, kept, cutoff)
      ensures ListsDue(scratchSegments[..kept], All(|store.segments|), store.contents, cutoff, store.resolution)
      ensures scratchSegments[..kept] == StillPending(pending, store.contents, cutoff, store.resolution)
    {
      hide Valid, DueKeys, ListsDue, SegmentSet, StillPending;
      assert pending[..|pending|] == pending && pending[|pending|..] == [];
      NoElements(All(|store.segments|));
    }

    /** One batch on the next listed segment, which is written back to the front of the array if it is still due. */
    method SweepOne(ghost pending: seq<nat>, i: nat, kept: nat, cutoff: Nanos, remaining: nat,
                    ghost before: Contents, ghost gone: seq<set<Key>>)
      returns (kept': nat, rest: nat, ghost gone': seq<set<Key>>)
      requires Sweeping(pending, i, kept, cutoff) && i < |pending| && remaining > 0
      requires Progress(before, store.contents, gone, cutoff, store.resolution) && |gone| == |store.segments|
      modifies scratchSegments, store, store.Repr
      ensures Sweeping(pending, i + 1, kept', cutoff) && store.Repr == old(store.Repr)
      ensures Passed(store.contents, store.counts) == old(Passed(store.contents, store.counts))
      ensures Progress(before, store.contents, gone', cutoff, store.resolution)
      ensures |gone'| == |gone| && forall k :: 0 <= k < |gone| ==> gone[k] <= gone'[k]
      ensures pending[i] < |gone| && gone' == gone[pending[i] := gone'[pending[i]]]
      ensures gone[pending[i]] < gone'[pending[i]]
      ensures rest < remaining && TotalGone(gone') + rest == TotalGone(gone) + remaining
    {
      hide Store.Valid, Passed, Progress, DueKeys, ListsDue, SegmentSet, StillPending;
      var index := scratchSegments[i];
      ghost var c, before' := store.contents, scratchSegments[..kept];
      Around(pending, i, All(|store.segments|));
      var hasMore;
      rest, hasMore, gone' := CleanupBatch(index, cutoff, remaining, before, gone);
      ListsDueStep(before', All(|store.segments|) - SegmentSet(pending[i..]), c, store.contents, index, cutoff,
          store.resolution);
      StillPendingStep(pending, i, c, store.contents, cutoff, store.resolution);
      kept' := kept;
      if hasMore {
        scratchSegments[kept] := index;
        kept' := kept + 1;
      }
      assert scratchSegments[..kept'] == before' + (if hasMore then [index] else []);
    }

    lemma OnceEach(pending: seq<nat>, i: nat, kept: nat, cutoff: Nanos)
      requires Sweeping(pending, i, kept, cutoff)
      ensures forall k, l :: 0 <= k < l < |pending| ==> pending[k] != pending[l]
      ensures forall k :: 0 <= k < |pending| ==> pending[k] < |store.contents|
      ensures kept <= i <= |pending| <= scratchSegments.Length
      ensures forall k :: i <= k < |pending| ==> scratchSegments[k] == pending[k]
      ensures Valid() && |store.contents| == |store.segments| && store.resolution > 0
    {
      hide Valid, DueKeys, ListsDue, StillPending;
      PositiveResolution();
    }

    lemma CutShortHere(pending: seq<nat>, i: nat, kept: nat, cutoff: Nanos, gone: seq<set<Key>>, gone': seq<set<Key>>)
      requires Sweeping(pending, i, kept, cutoff) && i < |pending| && |gone| == |gone'| == |store.segments|
      requires store.resolution > 0
      requires Swept(pending, i, gone, gone')
      ensures CutShort(Round(pending, i, gone), store.contents, gone', pending[i], cutoff, store.resolution)
    {
      hide Valid, DueKeys, StillPending;
      KeptAreListed(pending[..i], store.contents, cutoff, store.resolution);
      forall k: nat | k < |store.contents| && DueKeys(store.contents[k], cutoff, store.resolution) != {}
        ensures k in pending
      {
        if k !in pending[i..] {
          assert k in All(|store.segments|) by {
            assert Below(k, |store.segments|);
          }
          assert k in scratchSegments[..kept];
        }
      }
    }

    /** One pass over the listed segments; the list is filtered in place while it is read. */
    method SweepPending(count: nat, cutoff: Nanos, remaining: nat, timeUp: nat -> bool, check: nat,
                        ghost before: Contents, ghost gone: seq<set<Key>>)
      returns (kept: nat, rest: nat, checks: nat, stopped: bool, ghost gone': seq<set<Key>>, ghost at: nat)
      requires Valid() && 0 < count <= scratchSegments.Length && forall c :: 0 <= c < check ==> !timeUp(c)
      requires |store.contents| == |gone| == |store.segments|
      requires Progress(before, store.contents, gone, cutoff, store.resolution)
      requires ListsDue(scratchSegments[..count], All(|store.segments|), store.contents, cutoff, store.resolution)
      modifies this`nextSegment, scratchSegments, store, store.Repr
      ensures Valid() && store.Repr == old(store.Repr)
      ensures Passed(store.contents, store.counts) == old(Passed(store.contents, store.counts))
      ensures |store.contents| == |gone'| == |store.segments|
      ensures Progress(before, store.contents, gone', cutoff, store.resolution)
      ensures rest <= remaining && TotalGone(gone') + rest == TotalGone(gone) + remaining
      ensures forall k :: 0 <= k < |gone| ==> gone[k] <= gone'[k]
      ensures check <= checks && (stopped ==> rest == 0 || (checks > 0 && timeUp(checks - 1)))
      ensures forall c :: 0 <= c < checks && timeUp(c) ==> stopped && c == checks - 1
      ensures stopped ==>
                CutShort(Round(old(scratchSegments[..count]), at, gone), store.contents, gone', nextSegment, cutoff,
                         store.resolution)
      ensures !stopped ==>
                && rest < remaining && kept <= count && nextSegment == old(nextSegment)
                && ListsDue(scratchSegments[..kept], All(|store.segments|), store.contents, cutoff, store.resolution)
                && scratchSegments[..kept] == StillPending(old(scratchSegments[..count]), store.contents, cutoff,
                    store.resolution)
    {
      hide Store.Valid, Passed, Progress, DueKeys, ListsDue, SegmentSet, StillPending, CutShort, Swept, Sweeping;
      ghost var pending := scratchSegments[..count];
      StartSweep(pending, cutoff);
      OnceEach(pending, 0, 0, cutoff);
      NothingSwept(pending, gone);
      rest, checks, gone', kept, at := remaining, check, gone, 0, 0;
      for i := 0 to count
        invariant Sweeping(pending, i, kept, cutoff) && store.Repr == old(store.Repr) && nextSegment == old(nextSegment)
        invariant Passed(store.contents, store.counts) == old(Passed(store.contents, store.counts))
        invariant |gone'| == |gone| && Progress(before, store.contents, gone', cutoff, store.resolution)
        invariant rest <= remaining && TotalGone(gone') + rest == TotalGone(gone) + remaining
        invariant i > 0 ==> rest < remaining
        invariant check <= checks && forall c :: 0 <= c < checks ==> !timeUp(c)
        invariant Swept(pending, i, gone, gone')
      {
        OnceEach(pending, i, kept, cutoff);
        if rest == 0 {
          CutShortHere(pending, i, kept, cutoff, gone, gone');
          nextSegment := scratchSegments[i];
          SweptMore(pending, i, gone, gone');
          return kept, rest, checks, true, gone', i;
        }
        checks := checks + 1;
        if timeUp(checks - 1) {
          CutShortHere(pending, i, kept, cutoff, gone, gone');
          nextSegment := scratchSegments[i];
          SweptMore(pending, i, gone, gone');
          return kept, rest, checks, true, gone', i;
        }
        ghost var earlier := gone';
        kept, rest, gone' := SweepOne(pending, i, kept, cutoff, rest, before, gone');
        SweptStep(pending, i, gone, earlier, gone');
      }
      stopped := false;
      SweptMore(pending, count, gone, gone');
      OnceEach(pending, count, kept, cutoff);
      EndSweep(pending, kept, cutoff);
    }

    /**
     * The first pass has covered `offset` segments from `start`; those still due are listed, and no other has
     * changed.
     */
    ghost predicate Passing(start: nat, offset: nat, count: nat, cutoff: Nanos, before: Contents, gone: seq<set<Key>>)
      reads this, scratchSegments, store, store.Repr, store.segments
    {
      && Valid() && start < |store.segments|
      && count <= offset <= |store.segments| == scratchSegments.Length
      && |store.contents| == |before| == |gone| == |store.segments|
      && ListsDue(scratchSegments[..count], Reached(|store.segments|, start, offset), store.contents, cutoff,
          store.resolution)
      && (forall k :: 0 <= k < |before| && k !in Reached(|store.segments|, start, offset) ==>
           store.contents[k] == before[k])
      && Served(before, gone, Reached(|store.segments|, start, offset), cutoff, store.resolution)
      && Turns(scratchSegments[..count], |store.segments|, start, offset)
    }

    method PassOne(start: nat, offset: nat, count: nat, cutoff: Nanos, remaining: nat,
                   ghost before: Contents, ghost gone: seq<set<Key>>)
      returns (count': nat, rest: nat, ghost gone': seq<set<Key>>)
      requires Passing(start, offset, count, cutoff, before, gone) && offset < |store.segments| && remaining > 0
      requires Progress(before, store.contents, gone, cutoff, store.resolution)
      modifies scratchSegments, store, store.Repr
      ensures Passing(start, offset + 1, count', cutoff, before, gone') && store.Repr == old(store.Repr)
      ensures Passed(store.contents, store.counts) == old(Passed(store.contents, store.counts))
      ensures Progress(before, store.contents, gone', cutoff, store.resolution)
      ensures rest <= remaining && TotalGone(gone') + rest == TotalGone(gone) + remaining
    {
      hide Store.Valid, Passed, Progress, DueKeys, ListsDue, Reached, Served, Turns;
      var index := (start + offset) % |store.segments|;
      ghost var c, listed := store.contents, scratchSegments[..count];
      ghost var reached := Reached(|store.segments|, start, offset);
      ReachedStep(|store.segments|, start, offset);
      var hasMore;
      rest, hasMore, gone' := CleanupBatch(index, cutoff, remaining, before, gone);
      ListsDueStep(listed, reached, c, store.contents, index, cutoff, store.resolution);
      ServedStep(before, gone, gone', reached, index, cutoff, store.resolution);
      NextTurn(listed, |store.segments|, start, offset);
      count' := count;
      if hasMore {
        scratchSegments[count] := index;
        count' := count + 1;
      }
      assert scratchSegments[..count'] == listed + (if hasMore then [index] else []);
    }

    lemma StartPass(cutoff: Nanos, gone: seq<set<Key>>)
      requires Valid() && |store.segments| > 1 && |gone| == |store.contents|
      requires Progress(store.contents, store.contents, gone, cutoff, store.resolution)
      ensures Passing(nextSegment, 0, 0, cutoff, store.contents, gone)
    {
      hide Passed, Progress, DueKeys, ListsDue, Served;
      EmptyList(store.contents, cutoff, store.resolution);
      NoneServed(store.contents, gone, cutoff, store.resolution);
      assert scratchSegments[..0] == [];
    }

    lemma PassSizes(start: nat, offset: nat, count: nat, cutoff: Nanos, before: Contents, gone: seq<set<Key>>)
      requires Passing(start, offset, count, cutoff, before, gone)
      ensures Valid() && start < |store.segments| && offset <= |store.segments|
    {
      hide Passed, Progress, DueKeys, ListsDue, Served;
    }

    /** The first pass of a quantum: every segment once, from `nextSegment` on, until the budget is gone. */
    method FirstPass(cutoff: Nanos, timeUp: nat -> bool)
      returns (count: nat, rest: nat, checks: nat, stopped: bool, ghost first: nat, ghost gone: seq<set<Key>>)
      requires Valid() && |store.segments| > 1
      modifies this`nextSegment, scratchSegments, store, store.Repr
      ensures Valid() && store.Repr == old(store.Repr)
      ensures Passed(store.contents, store.counts) == old(Passed(store.contents, store.counts))
      ensures Passing(old(nextSegment), first, count, cutoff, old(store.contents), gone)
      ensures Progress(old(store.contents), store.contents, gone, cutoff, store.resolution)
      ensures rest <= entryBudget && TotalGone(gone) + rest == entryBudget
      ensures !timeUp(0) ==> first > 0
      ensures stopped ==> nextSegment == (old(nextSegment) + first) % |store.segments| && first < |store.segments|
      ensures checks > 0 && (stopped ==> rest == 0 || timeUp(checks - 1))
      ensures forall c :: 0 <= c < checks && timeUp(c) ==> stopped && c == checks - 1
      ensures !stopped ==> first == |store.segments| && nextSegment == old(nextSegment)
    {
      hide Store.Valid, Passed, Progress, DueKeys, ListsDue, Served, Turns, Reached;
      store.AllDistinct();
      gone := ProgressStart(store.contents, cutoff, store.resolution);
      StartPass(cutoff, gone);
      var start := nextSegment;
      count, rest, checks := 0, entryBudget, 0;
      for offset := 0 to |store.segments|
        invariant Passing(start, offset, count, cutoff, old(store.contents), gone)
        invariant store.Repr == old(store.Repr) && nextSegment == start
        invariant Passed(store.contents, store.counts) == old(Passed(store.contents, store.counts))
        invariant Progress(old(store.contents), store.contents, gone, cutoff, store.resolution)
        invariant rest <= entryBudget && TotalGone(gone) + rest == entryBudget
        invariant checks == offset && (offset == 0 ==> rest == entryBudget)
        invariant forall c :: 0 <= c < checks ==> !timeUp(c)
      {
        PassSizes(start, offset, count, cutoff, old(store.contents), gone);
        var out := rest == 0;
        if !out {
          checks := checks + 1;
          out := timeUp(checks - 1);
        }
        if out {
          nextSegment := (start + offset) % |store.segments|;
          return count, rest, checks, true, offset, gone;
        }
        count, rest, gone := PassOne(start, offset, count, cutoff, rest, old(store.contents), gone);
      }
      PassSizes(start, |store.segments|, count, cutoff, old(store.contents), gone);
      stopped, first := false, |store.segments|;
    }

    /** One quantum over several segments. */
    method CleanupSegments(cutoff: Nanos, timeUp: nat -> bool)
      returns (pending: bool, ghost first: nat, ghost gone: seq<set<Key>>, ghost checks: nat, ghost round: Round)
      requires Valid() && |store.segments| > 1
      modifies this`nextSegment, scratchSegments, store, store.Repr
      ensures Valid() && store.Repr == old(store.Repr) && |store.contents| == |old(store.contents)| == |store.segments|
      ensures Passed(store.contents, store.counts) == old(Passed(store.contents, store.counts))
      ensures Progress(old(store.contents), store.contents, gone, cutoff, store.resolution)
      ensures TotalGone(gone) <= entryBudget
      ensures !pending ==> NoneDue(store.contents, cutoff, store.resolution)
      ensures checks > 0 && (pending ==> TotalGone(gone) == entryBudget || timeUp(checks - 1))
      ensures forall c :: 0 <= c < checks && timeUp(c) ==> pending && c == checks - 1
      ensures (forall c :: !timeUp(c)) && TotalDue(old(store.contents), cutoff, store.resolution) < entryBudget ==>
                !pending
      ensures (forall c :: !timeUp(c)) ==>
                TotalGone(gone) == Min(entryBudget, TotalDue(old(store.contents), cutoff, store.resolution))
      ensures Rotates(|store.segments|, old(nextSegment), first, nextSegment)
      ensures !pending ==> first == |store.segments| && nextSegment == (old(nextSegment) + 1) % |store.segments|
      ensures pending && first == |store.segments| > 1 ==>
                && Turns(round.listed, |store.segments|, old(nextSegment), |store.segments|)
                && CutShort(round, store.contents, gone, nextSegment, cutoff, store.resolution)
      ensures !timeUp(0) ==> first > 0
      ensures Served(old(store.contents), gone, Reached(|store.segments|, old(nextSegment), first), cutoff,
                store.resolution)
    {
      hide Store.Valid, Passed, Progress, DueKeys, ListsDue, Reached, Served, NoneDue, Turns, CutShort, StillPending;
      var count: nat, remaining: nat, check: nat, stopped: bool;
      ghost var start := nextSegment;
      round := Round([], 0, []);
      count, remaining, check, stopped, first, gone := FirstPass(cutoff, timeUp);
      if stopped {
        Accounts(old(store.contents), gone, cutoff);
        return true, first, gone, check, round;
      }
      nextSegment := (nextSegment + 1) % |store.segments|;
      ReachedAll(|store.segments|, start);
      while count != 0
        invariant Valid() && store.Repr == old(store.Repr) && count <= scratchSegments.Length
        invariant Passed(store.contents, store.counts) == old(Passed(store.contents, store.counts))
        invariant |store.contents| == |gone| == |store.segments|
        invariant Progress(old(store.contents), store.contents, gone, cutoff, store.resolution)
        invariant TotalGone(gone) + remaining == entryBudget
        invariant ListsDue(scratchSegments[..count], All(|store.segments|), store.contents, cutoff, store.resolution)
        invariant Served(old(store.contents), gone, All(|store.segments|), cutoff, store.resolution)
        invariant Turns(scratchSegments[..count], |store.segments|, start, |store.segments|)
        invariant nextSegment == (start + 1) % |store.segments|
        invariant check > 0 && forall c :: 0 <= c < check ==> !timeUp(c)
        decreases remaining
      {
        ghost var before, listed := gone, scratchSegments[..count];
        ghost var at;
        count, remaining, check, stopped, gone, at :=
          SweepPending(count, cutoff, remaining, timeUp, check, old(store.contents), gone);
        ServedMore(old(store.contents), before, gone, All(|store.segments|), cutoff, store.resolution);
        if stopped {
          Accounts(old(store.contents), gone, cutoff);
          round := Round(listed, at, before);
          return true, first, gone, check, round;
        }
        StillTurns(listed, store.contents, cutoff, store.resolution, start, |store.segments|);
      }
      NothingListed(scratchSegments[..count], store.contents, cutoff, store.resolution);
      NoneDueTotal(store.contents, cutoff, store.resolution);
      Accounts(old(store.contents), gone, cutoff);
      pending, checks := false, check;
    }

    lemma Accounts(before: Contents, gone: seq<set<Key>>, cutoff: Nanos)
      requires Valid() && Progress(before, store.contents, gone, cutoff, store.resolution)
      ensures |store.contents| == |before| == |gone|
      ensures TotalDue(before, cutoff, store.resolution) ==
                TotalGone(gone) + TotalDue(store.contents, cutoff, store.resolution)
    {
      ProgressTotal(before, store.contents, gone, cutoff, store.resolution);
    }

    /** One quantum over the only segment. */
    method CleanupSingleSegment(cutoff: Nanos, timeUp: nat -> bool)
      returns (pending: bool, ghost gone: seq<set<Key>>, ghost checks: nat)
      requires Valid() && |store.segments| == 1
      modifies store, store.Repr
      ensures Valid() && store.Repr == old(store.Repr) && |store.contents| == |old(store.contents)| == |store.segments|
      ensures Passed(store.contents, store.counts) == old(Passed(store.contents, store.counts))
      ensures Progress(old(store.contents), store.contents, gone, cutoff, store.resolution)
      ensures TotalGone(gone) <= entryBudget
      ensures !pending ==> NoneDue(store.contents, cutoff, store.resolution)
      ensures checks > 0 && (pending ==> TotalGone(gone) == entryBudget || timeUp(checks - 1))
      ensures forall c :: 0 <= c < checks && timeUp(c) ==> pending && c == checks - 1
      ensures (forall c :: !timeUp(c)) && TotalDue(old(store.contents), cutoff, store.resolution) < entryBudget ==>
                !pending
      ensures (forall c :: !timeUp(c)) ==>
                TotalGone(gone) == Min(entryBudget, TotalDue(old(store.contents), cutoff, store.resolution))
      ensures !timeUp(0) ==> Served(old(store.contents), gone, {0}, cutoff, store.resolution)
    {
      hide Store.Valid, Passed, Progress, DueKeys, ListsDue, NoneDue, Served;
      store.AllDistinct();
      gone := ProgressStart(store.contents, cutoff, store.resolution);
      NoneServed(store.contents, gone, cutoff, store.resolution);
      var remaining: nat, check: nat := entryBudget, 0;
      while true
        invariant Valid() && store.Repr == old(store.Repr)
        invariant Passed(store.contents, store.counts) == old(Passed(store.contents, store.counts))
        invariant |store.contents| == |gone| == |old(store.contents)| == |store.segments|
        invariant Progress(old(store.contents), store.contents, gone, cutoff, store.resolution)
        invariant remaining <= entryBudget && TotalGone(gone) + remaining == entryBudget
        invariant if check == 0
                  then remaining == entryBudget && store.contents == old(store.contents)
                  else Served(old(store.contents), gone, {0}, cutoff, store.resolution) &&
                       DueKeys(store.contents[0], cutoff, store.resolution) != {}
        invariant forall c :: 0 <= c < check ==> !timeUp(c)
        decreases remaining, check == 0
      {
        if remaining == 0 {
          Accounts(old(store.contents), gone, cutoff);
          return true, gone, check;
        }
        check := check + 1;
        if timeUp(check - 1) {
          Accounts(old(store.contents), gone, cutoff);
          return true, gone, check;
        }
        ghost var before := gone;
        var hasMore;
        remaining, hasMore, gone := CleanupBatch(0, cutoff, remaining, old(store.contents), gone);
        if check == 1 {
          NoneServed(old(store.contents), before, cutoff, store.resolution);
          ServedStep(old(store.contents), before, gone, {}, 0, cutoff, store.resolution);
          assert {} + {0} == {0};
        } else {
          ServedMore(old(store.contents), before, gone, {0}, cutoff, store.resolution);
        }
        if !hasMore {
          AllClear(store.contents, cutoff, store.resolution);
          NoneDueTotal(store.contents, cutoff, store.resolution);
          Accounts(old(store.contents), gone, cutoff);
          return false, gone, check;
        }
      }
    }

    method CleanupQuantum(cutoff: Nanos, timeUp: nat -> bool)
      returns (pending: bool, ghost first: nat, ghost gone: seq<set<Key>>, ghost checks: nat, ghost round: Round)
      requires Valid()
      modifies this`nextSegment, scratchSegments, store, store.Repr
      ensures Valid() && store.Repr == old(store.Repr) && |store.contents| == |old(store.contents)| == |store.segments|
      ensures Passed(store.contents, store.counts) == old(Passed(store.contents, store.counts))
      ensures Progress(old(store.contents), store.contents, gone, cutoff, store.resolution)
      ensures TotalGone(gone) <= entryBudget
      ensures !pending ==> NoneDue(store.contents, cutoff, store.resolution)
      ensures checks > 0 && (pending ==> TotalGone(gone) == entryBudget || timeUp(checks - 1))
      ensures forall c :: 0 <= c < checks && timeUp(c) ==> pending && c == checks - 1
      ensures (forall c :: !timeUp(c)) && TotalDue(old(store.contents), cutoff, store.resolution) < entryBudget ==>
                !pending
      ensures (forall c :: !timeUp(c)) ==>
                TotalGone(gone) == Min(entryBudget, TotalDue(old(store.contents), cutoff, store.resolution))
      ensures Rotates(|store.segments|, old(nextSegment), first, nextSegment)
      ensures !pending ==> first == |store.segments| && nextSegment == (old(nextSegment) + 1) % |store.segments|
      ensures pending && first == |store.segments| > 1 ==>
                && Turns(round.listed, |store.segments|, old(nextSegment), |store.segments|)
                && CutShort(round, store.contents, gone, nextSegment, cutoff, store.resolution)
      ensures !timeUp(0) ==> first > 0
      ensures Served(old(store.contents), gone, Reached(|store.segments|, old(nextSegment), first), cutoff,
                store.resolution)
    {
      hide Store.Valid, Passed, Progress, DueKeys, ListsDue, NoneDue, Served;
      if |store.segments| == 1 {
        pending, gone, checks := CleanupSingleSegment(cutoff, timeUp);
        first, round := if timeUp(0) then 0 else 1, Round([], 0, []);
        SameLength(old(store.contents), store.contents, gone, cutoff, store.resolution);
        NoneServed(old(store.contents), gone, cutoff, store.resolution);
        ReachedStep(1, 0, 0);
        assert {} + {0} == {0};
      } else {
        pending, first, gone, checks, round := CleanupSegments(cutoff, timeUp);
      }
    }

    /** What the quantum just finished has done. */
    lemma Recorded(quanta: seq<Quantum>, q: Quantum, segmentCount: nat, resolution: Int64)
      requires resolution > 0 && Consecutive(quanta, segmentCount, resolution)
      requires q.start < segmentCount && q.first > 0 && |q.before| == segmentCount
      requires Rotates(segmentCount, q.start, q.first, q.next)
      requires Served(q.before, q.gone, Reached(segmentCount, q.start, q.first), q.now, resolution)
      requires quanta != [] ==> q.start == quanta[|quanta| - 1].next
      ensures Consecutive(quanta + [q], segmentCount, resolution)
    {
    }

    /**
     * The worker's loop over as many quanta as there are cutoffs. If no quantum runs out of time before it begins,
     * and there is one for each segment, every segment is attended to.
     */
    method RunQuanta(cutoffs: seq<Nanos>, budgets: seq<nat -> bool>) returns (ghost quanta: seq<Quantum>)
      requires Valid() && |cutoffs| == |budgets| && forall q :: 0 <= q < |budgets| ==> !budgets[q](0)
      modifies this`nextSegment, scratchSegments, store, store.Repr
      ensures Valid() && store.Repr == old(store.Repr)
      ensures Passed(store.contents, store.counts) == old(Passed(store.contents, store.counts))
      ensures |quanta| == |cutoffs| && Consecutive(quanta, |store.segments|, store.resolution)
      ensures forall q :: 0 <= q < |quanta| ==> quanta[q].now == cutoffs[q] && TotalGone(quanta[q].gone) <= entryBudget
      ensures |quanta| == |store.segments| ==>
                forall segment: nat :: segment < |store.segments| ==>
                    AttendedTo(quanta, |store.segments|, segment, store.resolution)
    {
      hide Store.Valid, Passed, Progress, NoneDue, Served, Consecutive, TotalGone, AttendedTo, Rotates, Reached;
      quanta := [];
      NoQuanta(|store.segments|, store.resolution);
      for n := 0 to |cutoffs|
        invariant Valid() && store.Repr == old(store.Repr)
        invariant Passed(store.contents, store.counts) == old(Passed(store.contents, store.counts))
        invariant |quanta| == n && Consecutive(quanta, |store.segments|, store.resolution)
        invariant forall q :: 0 <= q < n ==> quanta[q].now == cutoffs[q] && TotalGone(quanta[q].gone) <= entryBudget
        invariant quanta != [] ==> quanta[n - 1].next == nextSegment
      {
        ghost var start, before := nextSegment, store.contents;
        StoreSizes();
        ghost var first, gone, checks, round;
        var pending;
        pending, first, gone, checks, round := CleanupQuantum(cutoffs[n], budgets[n]);
        ghost var q := Quantum(start, first, nextSegment, cutoffs[n], before, gone);
        Recorded(quanta, q, |store.segments|, store.resolution);
        quanta := quanta + [q];
      }
      if |quanta| == |store.segments| {
        AllAttended(quanta, |store.segments|, store.resolution);
      }
    }

    lemma StoreSizes()
      requires Valid()
      ensures |store.contents| == |store.segments| > nextSegment && store.resolution > 0
    {
    }

    lemma NoQuanta(segmentCount: nat, resolution: Int64)
      requires resolution > 0
      ensures Consecutive([], segmentCount, resolution)
    {
    }
  }
}
