/** The order in which a batch takes state locks. */
module LockPlans {
  import opened Types

  type Router = Key -> nat

  datatype LockEvent = Acquired(segment: nat) | Released(segment: nat)

  ghost predicate Sorted(keys: seq<Key>, route: Router) {
    forall i, j :: 0 <= i < j < |keys| ==> route(keys[i]) <= route(keys[j])
  }

  ghost predicate Ascending(s: seq<nat>) {
    forall i, j :: 0 <= i < j < |s| ==> s[i] < s[j]
  }

  /** The segments of `keys` in order, each run of equal segments once. */
  function Locks(keys: seq<Key>, route: Router): seq<nat> {
    if keys == [] then [] else
      var earlier := Locks(keys[..|keys| - 1], route);
      var index := route(keys[|keys| - 1]);
      if earlier != [] && earlier[|earlier| - 1] == index then earlier else earlier + [index]
  }

  lemma {:induction false} LastLock(keys: seq<Key>, route: Router)
    requires keys != []
    ensures Locks(keys, route) != [] && Locks(keys, route)[|Locks(keys, route)| - 1] == route(keys[|keys| - 1])
  {
  }

  /** For sorted keys that is each of their segments exactly once, in strictly ascending order. */
  lemma {:induction false} LocksAscend(keys: seq<Key>, route: Router)
    requires Sorted(keys, route)
    ensures Ascending(Locks(keys, route))
  {
    if keys != [] {
      var init := keys[..|keys| - 1];
      LocksAscend(init, route);
      if init != [] {
        LastLock(init, route);
        assert route(init[|init| - 1]) <= route(keys[|keys| - 1]);
      }
    }
  }

  lemma {:induction false} LocksCover(keys: seq<Key>, route: Router)
    ensures forall i :: 0 <= i < |keys| ==> route(keys[i]) in Locks(keys, route)
    ensures forall l :: l in Locks(keys, route) ==> exists i :: 0 <= i < |keys| && route(keys[i]) == l
  {
    if keys != [] {
      var n := |keys| - 1;
      var init, earlier, all := keys[..n], Locks(keys[..n], route), Locks(keys, route);
      LocksCover(init, route);
      LastLock(keys, route);
      assert forall l :: l in earlier ==> l in all;
      forall i | 0 <= i < |keys| ensures route(keys[i]) in all {
        assert i < n ==> init[i] == keys[i];
      }
      forall l | l in all ensures exists i :: 0 <= i < |keys| && route(keys[i]) == l {
        if l in earlier {
          var i :| 0 <= i < n && route(init[i]) == l;
          assert keys[i] == init[i];
        } else {
          assert l == route(keys[n]);
        }
      }
    }
  }

  /** The next key of a batch needs a new lock exactly if its segment differs from the one before. */
  lemma NextLock(keys: seq<Key>, i: nat, route: Router)
    requires i < |keys|
    ensures Locks(keys[..i + 1], route) ==
              (if i > 0 && route(keys[i - 1]) == route(keys[i]) then Locks(keys[..i], route)
               else Locks(keys[..i], route) + [route(keys[i])])
  {
    if i > 0 {
      LastLock(keys[..i], route);
    }
    assert keys[..i + 1][..i] == keys[..i];
  }

  lemma FirstLock(keys: seq<Key>, route: Router)
    ensures Locks(keys[..0], route) == [] && keys[..|keys|] == keys
  {
  }

  /** Going backward, before the key at `i`, the first `left` of `locks` are still to be released. */
  ghost predicate StillLocked(keys: seq<Key>, i: nat, locks: seq<nat>, left: nat, route: Router) {
    && i <= |keys| && left <= |locks|
    && if i == |keys| then locks[..left] == Locks(keys, route)
       else locks[..left] + [route(keys[i])] == Locks(keys[..i + 1], route)
  }

  lemma TopLock(locks: seq<nat>, left: nat, mine: seq<nat>)
    requires left <= |locks| && locks[..left] == mine && mine != []
    ensures left > 0 && locks[left - 1] == mine[|mine| - 1] && locks[..left - 1] + [mine[|mine| - 1]] == mine
  {
  }

  lemma StepBack(keys: seq<Key>, i: nat, locks: seq<nat>, left: nat, route: Router)
    requires i < |keys| && StillLocked(keys, i + 1, locks, left, route)
    ensures if i + 1 < |keys| && route(keys[i]) == route(keys[i + 1]) then StillLocked(keys, i, locks, left, route)
            else left > 0 && locks[left - 1] == route(keys[i]) && StillLocked(keys, i, locks, left - 1, route)
  {
    hide Locks;
    var mine := Locks(keys[..i + 1], route);
    assert keys[..i + 1][i] == keys[i];
    LastLock(keys[..i + 1], route);
    if i + 1 == |keys| {
      assert keys[..|keys|] == keys;
      TopLock(locks, left, mine);
    } else {
      NextLock(keys, i + 1, route);
      if route(keys[i]) != route(keys[i + 1]) {
        assert locks[..left] == (mine + [route(keys[i + 1])])[..|mine|] == mine;
        TopLock(locks, left, mine);
      }
    }
  }

  ghost function AcquireAll(locks: seq<nat>): seq<LockEvent> {
    seq(|locks|, i requires 0 <= i < |locks| => Acquired(locks[i]))
  }

  ghost function ReleaseAll(locks: seq<nat>): seq<LockEvent> {
    seq(|locks|, i requires 0 <= i < |locks| => Released(locks[|locks| - 1 - i]))
  }

  /** The lock that is taken last is released first. */
  lemma LastInFirstOut(locks: seq<nat>, i: nat)
    requires i < |locks|
    ensures |AcquireAll(locks)| == |ReleaseAll(locks)| == |locks|
    ensures AcquireAll(locks)[i] == Acquired(locks[i]) && ReleaseAll(locks)[|locks| - 1 - i] == Released(locks[i])
  {
  }

  lemma OneLockTrace(i: nat)
    ensures AcquireAll([i]) == [Acquired(i)] && ReleaseAll([i]) == [Released(i)]
    ensures AcquireAll([]) == [] && ReleaseAll([]) == []
  {
  }

  /** A new lock is above all earlier ones. */
  lemma HigherLock(keys: seq<Key>, i: nat, route: Router)
    requires Sorted(keys, route) && i < |keys| && (i > 0 ==> route(keys[i - 1]) != route(keys[i]))
    ensures forall l :: l in SegmentSet(Locks(keys[..i], route)) ==> l < route(keys[i])
    ensures SegmentSet(Locks(keys[..i + 1], route)) == SegmentSet(Locks(keys[..i], route)) + {route(keys[i])}
    ensures AcquireAll(Locks(keys[..i + 1], route)) == AcquireAll(Locks(keys[..i], route)) + [Acquired(route(keys[i]))]
  {
    NextLock(keys, i, route);
    LocksAscend(keys[..i + 1], route);
    var earlier, all := Locks(keys[..i], route), Locks(keys[..i + 1], route);
    assert all == earlier + [route(keys[i])];
    assert all[|earlier|] == route(keys[i]);
    forall j | 0 <= j < |earlier| ensures earlier[j] < route(keys[i]) {
      assert all[j] == earlier[j];
    }
  }

  lemma StartBack(keys: seq<Key>, route: Router) returns (left: nat)
    ensures left == |Locks(keys, route)| && StillLocked(keys, |keys|, Locks(keys, route), left, route)
    ensures Locks(keys, route)[..left] == Locks(keys, route)
  {
    left := |Locks(keys, route)|;
    assert Locks(keys, route)[..left] == Locks(keys, route);
  }

  lemma NoneLocked(keys: seq<Key>, locks: seq<nat>, left: nat, route: Router)
    requires StillLocked(keys, 0, locks, left, route) && locks == Locks(keys, route)
    ensures left == 0
  {
    if keys != [] {
      assert keys[..1] == [keys[0]] && keys[..1][..0] == [];
      assert |Locks(keys[..1], route)| == 1;
    }
  }

  /** The last of the remaining locks is none of the others. */
  lemma LastOut(locks: seq<nat>, left: nat, route: Router, keys: seq<Key>)
    requires Sorted(keys, route) && locks == Locks(keys, route) && left < |locks|
    ensures locks[left] in SegmentSet(locks[..left + 1])
    ensures SegmentSet(locks[..left + 1]) - {locks[left]} == SegmentSet(locks[..left])
    ensures ReleaseAll(locks)[..|locks| - left - 1] + [Released(locks[left])] == ReleaseAll(locks)[..|locks| - left]
  {
    LocksAscend(keys, route);
    assert locks[..left + 1] == locks[..left] + [locks[left]];
  }

  ghost function UpTo(n: nat): seq<nat> {
    seq(n, i => i)
  }

  lemma UpToStep(n: nat, all: nat)
    ensures SegmentSet(UpTo(n + 1)) == SegmentSet(UpTo(n)) + {n} && n !in SegmentSet(UpTo(n)) &&
              SegmentSet(UpTo(0)) == {}
    ensures forall l :: l in SegmentSet(UpTo(n)) ==> l < n
    ensures AcquireAll(UpTo(n + 1)) == AcquireAll(UpTo(n)) + [Acquired(n)] && AcquireAll(UpTo(0)) == []
    ensures n < all ==>
              ReleaseAll(UpTo(all))[..all - n] == ReleaseAll(UpTo(all))[..all - 1 - n] + [Released(n)]
    ensures |ReleaseAll(UpTo(all))| == all
  {
    assert UpTo(n + 1) == UpTo(n) + [n];
  }
}
