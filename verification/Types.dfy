/** Types shared by every module of the cache model. */
module Types {

  /** Cache keys: any comparable type. */
  type Key(==, !new)

  /** Cached values: any type. */
  type Value(==, !new)

  const MAX_INT64: int := 0x7fff_ffff_ffff_ffff
  const MIN_INT64: int := -0x8000_0000_0000_0000

  /** The machine integers in which times, durations and bucket ids are kept. */
  type Int64 = x: int | MIN_INT64 <= x <= MAX_INT64

  /** Nanoseconds since the storage was created; a deadline of zero means "never expires". */
  type Nanos = x: int | 0 <= x <= MAX_INT64

  datatype Option<+T> = None | Some(value: T)

  function Min(a: int, b: int): int {
    if a < b then a else b
  }

  function Max(a: int, b: int): int {
    if a < b then b else a
  }

  /** The segments in a list. */
  ghost function SegmentSet(segments: seq<nat>): set<nat> {
    set segment | segment in segments
  }
}

/** Sequences without duplicates, used for every intrusive list. */
module Lists {

  ghost predicate NoDup<T>(s: seq<T>) {
    forall i, j :: 0 <= i < j < |s| ==> s[i] != s[j]
  }

  ghost function IndexOf<T>(s: seq<T>, x: T): (i: nat)
    requires x in s
    ensures i < |s| && s[i] == x
  {
    var i :| 0 <= i < |s| && s[i] == x;
    i
  }

  ghost function RemoveAt<T>(s: seq<T>, i: nat): seq<T>
    requires i < |s|
  {
    s[..i] + s[i + 1..]
  }

  /** `s` with its (only) occurrence of `x` taken out. */
  ghost function Minus<T>(s: seq<T>, x: T): seq<T> {
    if x in s then RemoveAt(s, IndexOf(s, x)) else s
  }

  lemma MinusFacts<T>(s: seq<T>, x: T)
    requires NoDup(s)
    ensures NoDup(Minus(s, x))
    ensures forall y :: y in Minus(s, x) <==> y in s && y != x
    ensures x in s ==> |Minus(s, x)| == |s| - 1
  {
    if x in s {
      var i := IndexOf(s, x);
      var r := RemoveAt(s, i);
      forall y ensures y in r <==> y in s && y != x {
        if y in s && y != x {
          var j := IndexOf(s, y);
          assert r[if j < i then j else j - 1] == y;
        }
      }
    }
  }

  lemma MinusLast<T>(s: seq<T>)
    requires NoDup(s) && s != []
    ensures Minus(s, s[|s| - 1]) == s[..|s| - 1]
  {
    assert IndexOf(s, s[|s| - 1]) == |s| - 1;
  }
}
