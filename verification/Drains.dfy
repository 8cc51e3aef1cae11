/** Cleanup of many segments, on their contents alone. */
module Drains {
  import opened Types
  import opened Deadlines
  import opened SegmentModel

  type Contents = seq<seq<Item>>

  ghost function TotalDue(c: Contents, now: Nanos, resolution: Int64): nat
    requires resolution > 0
  {
    if c == [] then 0 else |DueKeys(c[0], now, resolution)| + TotalDue(c[1..], now, resolution)
  }

  ghost function TotalGone(gone: seq<set<Key>>): nat {
    if gone == [] then 0 else |gone[0]| + TotalGone(gone[1..])
  }

  /** From `before`, exactly the keys in `gone` have been reclaimed, segment by segment, lowest buckets first. */
  ghost predicate Progress(before: Contents, c: Contents, gone: seq<set<Key>>, now: Nanos, resolution: Int64)
    requires resolution > 0
  {
    && |before| == |c| == |gone|
    && (forall i :: 0 <= i < |c| ==> Distinct(before[i]) && Reclaimed(before[i], c[i], gone[i], now, resolution))
  }

  ghost predicate NoneDue(c: Contents, now: Nanos, resolution: Int64)
    requires resolution > 0
  {
    forall i :: 0 <= i < |c| ==> DueKeys(c[i], now, resolution) == {}
  }

  lemma {:induction false} NoneDueTotal(c: Contents, now: Nanos, resolution: Int64)
    requires resolution > 0
    ensures NoneDue(c, now, resolution) <==> TotalDue(c, now, resolution) == 0
  {
    if c != [] {
      NoneDueTotal(c[1..], now, resolution);
      assert NoneDue(c, now, resolution) ==> NoneDue(c[1..], now, resolution);
      if TotalDue(c, now, resolution) == 0 {
        forall i | 0 <= i < |c| ensures DueKeys(c[i], now, resolution) == {} {
          assert i > 0 ==> c[i] == c[1..][i - 1];
        }
      }
    }
  }

  lemma {:induction false} GoneUpdate(gone: seq<set<Key>>, i: nat, g: set<Key>)
    requires i < |gone|
    ensures TotalGone(gone[i := g]) == TotalGone(gone) - |gone[i]| + |g|
  {
    if i > 0 {
      assert gone[i := g][1..] == gone[1..][i - 1 := g];
      GoneUpdate(gone[1..], i - 1, g);
    }
  }

  lemma ProgressStart(c: Contents, now: Nanos, resolution: Int64) returns (gone: seq<set<Key>>)
    requires resolution > 0 && forall i :: 0 <= i < |c| ==> Distinct(c[i])
    ensures |gone| == |c| && (forall i :: 0 <= i < |gone| ==> gone[i] == {})
    ensures Progress(c, c, gone, now, resolution) && TotalGone(gone) == 0
  {
    hide Reclaimed;
    gone := seq(|c|, _ => {});
    forall i | 0 <= i < |c| ensures Reclaimed(c[i], c[i], gone[i], now, resolution) {
      ReclaimStart(c[i], now, resolution);
    }
    EmptyGone(gone);
  }

  lemma {:induction false} EmptyGone(gone: seq<set<Key>>)
    requires forall i :: 0 <= i < |gone| ==> gone[i] == {}
    ensures TotalGone(gone) == 0
  {
    if gone != [] {
      EmptyGone(gone[1..]);
    }
  }

  /** A cleanup after a cleanup is a cleanup. */
  lemma ReclaimTwice(s: seq<Item>, s': seq<Item>, s'': seq<Item>, gone: set<Key>, more: set<Key>,
                     now: Nanos, resolution: Int64)
    requires resolution > 0 && Distinct(s)
    requires Reclaimed(s, s', gone, now, resolution) && Reclaimed(s', s'', more, now, resolution)
    ensures Reclaimed(s, s'', gone + more, now, resolution) && gone !! more
  {
    hide BucketId, DueBucketId;
    WithoutMembers(s, gone);
    WithoutTwice(s, gone, more);
    DueSplit(s, gone, now, resolution);
    forall a, b | a in s && b in s && a.key in gone + more && b.key !in gone + more && b.deadline > 0
      ensures BucketId(a.deadline, resolution) <= BucketId(b.deadline, resolution)
    {
      assert b in s';
      assert a.key !in gone ==> a in s';
    }
  }

  lemma ProgressStep(before: Contents, c: Contents, gone: seq<set<Key>>, i: nat, s: seq<Item>, more: set<Key>,
                     limit: nat, now: Nanos, resolution: Int64)
    requires resolution > 0 && Progress(before, c, gone, now, resolution) && i < |c|
    requires Cleaned(c[i], s, more, now, limit, resolution)
    ensures Progress(before, c[i := s], gone[i := gone[i] + more], now, resolution)
    ensures TotalGone(gone[i := gone[i] + more]) == TotalGone(gone) + |more|
  {
    hide Reclaimed, Cleaned, Distinct;
    CleanedIsReclaimed(c[i], s, more, now, limit, resolution);
    ReclaimTwice(before[i], c[i], s, gone[i], more, now, resolution);
    GoneUpdate(gone, i, gone[i] + more);
    assert |gone[i] + more| == |gone[i]| + |more|;
  }

  lemma CleanedIsReclaimed(s: seq<Item>, s': seq<Item>, gone: set<Key>, now: Nanos, limit: nat, resolution: Int64)
    requires resolution > 0 && Cleaned(s, s', gone, now, limit, resolution)
    ensures Reclaimed(s, s', gone, now, resolution)
    ensures |gone| == Min(limit, |DueKeys(s, now, resolution)|)
  {
  }

  /** What was due is what was reclaimed and what is still due. */
  lemma {:induction false} ProgressTotal(before: Contents, c: Contents, gone: seq<set<Key>>, now: Nanos,
                                         resolution: Int64)
    requires resolution > 0 && Progress(before, c, gone, now, resolution)
    ensures TotalDue(before, now, resolution) == TotalGone(gone) + TotalDue(c, now, resolution)
  {
    if c != [] {
      DueSplit(before[0], gone[0], now, resolution);
      ProgressTotal(before[1..], c[1..], gone[1..], now, resolution);
    }
  }

  /** With nothing left due, every segment has lost exactly its due items. */
  lemma ProgressEnd(before: Contents, c: Contents, gone: seq<set<Key>>, now: Nanos, resolution: Int64)
    requires resolution > 0 && Progress(before, c, gone, now, resolution) && NoneDue(c, now, resolution)
    ensures TotalGone(gone) == TotalDue(before, now, resolution)
    ensures forall i :: 0 <= i < |c| ==>
              gone[i] == DueKeys(before[i], now, resolution) &&
                  c[i] == Without(before[i], DueKeys(before[i], now, resolution))
  {
    ProgressTotal(before, c, gone, now, resolution);
    NoneDueTotal(c, now, resolution);
    forall i | 0 <= i < |c| ensures gone[i] == DueKeys(before[i], now, resolution) {
      DueSplit(before[i], gone[i], now, resolution);
    }
  }

  /** A limited cleanup removes what it may, and leaves nothing due unless the limit cut it short. */
  lemma CleanedCount(s: seq<Item>, s': seq<Item>, gone: set<Key>, now: Nanos, limit: nat, resolution: Int64)
    requires resolution > 0 && Distinct(s) && Cleaned(s, s', gone, now, limit, resolution)
    ensures |gone| == Min(limit, |DueKeys(s, now, resolution)|)
    ensures DueKeys(s', now, resolution) != {} <==> |DueKeys(s, now, resolution)| > limit
  {
    DueSplit(s, gone, now, resolution);
  }

  lemma AllClear(c: Contents, now: Nanos, resolution: Int64)
    requires resolution > 0
    ensures (forall i :: 0 <= i < |c| ==> DueKeys(c[i], now, resolution) == {}) <==> NoneDue(c, now, resolution)
  {
  }
}
