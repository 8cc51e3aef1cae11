/** Time arithmetic: deadlines, jitter, and the bucket grid on which deadlines are grouped. */
module Deadlines {
  import opened Types

  /** Stands for the cache's own ttl. */
  const DEFAULT_EXPIRATION: Int64 := 0

  /** Stands for no expiration. */
  const NO_EXPIRATION: Int64 := -1

  /** The deadline `ttl` after `now`, saturated; zero when there is no ttl. Every intermediate is an Int64. */
  function DeadlineAfter(now: Nanos, ttl: Int64): (deadline: Nanos)
    ensures ttl <= 0 <==> deadline == 0
    ensures ttl > 0 ==> deadline == Min(now + ttl, MAX_INT64)
    ensures ttl > 0 ==> deadline > now || deadline == MAX_INT64
  {
    var delta: Int64 := ttl;
    if delta <= 0 then
      0
    else
      var room: Int64 := MAX_INT64 - delta;
      if now >= room then
        MAX_INT64
      else
        var sum: Int64 := now + delta;
        sum
  }

  /** `draw` stands for the random source: it maps a positive bound to a number in [0, bound). */
  ghost predicate IsDraw(draw: Int64 -> Int64) {
    forall bound: Int64 :: bound > 0 ==> 0 <= draw(bound) < bound
  }

  function JitteredTTL(ttl: Int64, jitter: Nanos, draw: Int64 -> Int64): (r: Int64)
    requires ttl > 0 && IsDraw(draw)
    ensures ttl <= r
    ensures jitter == 0 ==> r == ttl
    ensures jitter > 0 ==> r < ttl + jitter
  {
    if jitter == 0 then
      ttl
    else
      var room: Int64 := MAX_INT64 - ttl;
      var limit: Int64 := Min(jitter, room);
      if limit <= 0 then
        ttl
      else
        var jittered: Int64 := ttl + draw(limit);
        jittered
  }

  /** Every ttl that the jitter allows is drawn for some state of the random source. */
  lemma JitterReachesAll(ttl: Int64, jitter: Nanos, r: Int64) returns (draw: Int64 -> Int64)
    requires ttl > 0 && ttl <= r && (r == ttl || r - ttl < Min(jitter, MAX_INT64 - ttl))
    ensures IsDraw(draw) && JitteredTTL(ttl, jitter, draw) == r
  {
    var offset: Int64 := r - ttl;
    draw := bound => if offset < bound then offset else 0;
    assert forall bound: Int64 :: bound > 0 ==> 0 <= draw(bound) < bound;
  }

  /** The ttl under which an entry is stored; zero when it is not to expire. */
  function EffectiveTTL(expiration: Int64, cacheTTL: Int64, jitter: Nanos, draw: Int64 -> Int64): (ttl: Nanos)
    requires IsDraw(draw)
    ensures ttl == 0 <==> expiration < 0 || (expiration == DEFAULT_EXPIRATION && cacheTTL <= 0)
    ensures expiration > 0 ==> expiration <= ttl && ttl < expiration + Max(jitter, 1)
    ensures expiration == DEFAULT_EXPIRATION && cacheTTL > 0 ==> cacheTTL <= ttl && ttl < cacheTTL + Max(jitter, 1)
  {
    var ttl := if expiration == DEFAULT_EXPIRATION then cacheTTL else expiration;
    if ttl <= 0 then 0 else JitteredTTL(ttl, jitter, draw)
  }

  /** The first grid line at or after `deadline`. */
  function BucketId(deadline: Int64, resolution: Int64): (id: Int64)
    requires resolution > 0
    ensures deadline <= 0 ==> id == 0
    ensures deadline > 0 ==> id > 0
  {
    if deadline <= 0 then
      0
    else
      GridBounds(deadline, resolution);
      var id: Int64 := deadline / resolution;
      if deadline % resolution != 0 then
        var next: Int64 := id + 1;
        next
      else
        id
  }

  /** The last grid line at or before `now`. */
  function DueBucketId(now: Int64, resolution: Int64): (id: Int64)
    requires resolution > 0
    ensures now < 0 ==> id == -1
    ensures now >= 0 ==> id >= 0
  {
    if now < 0 then
      -1
    else
      GridBounds(now, resolution);
      now / resolution
  }

  lemma MulMono(a: int, b: int, k: int)
    requires a <= b && k >= 0
    ensures a * k <= b * k
  {
    assert b * k - a * k == (b - a) * k;
  }

  lemma GridBounds(t: int, resolution: int)
    requires t >= 0 && resolution > 0
    ensures t == (t / resolution) * resolution + t % resolution
    ensures 0 <= t / resolution <= t
    ensures t % resolution != 0 ==> t / resolution < t
  {
    var q := t / resolution;
    MulMono(1, resolution, q);
    assert resolution * q == q * resolution;
  }

  /** The two rounding directions, as multiples of the resolution. */
  lemma GridLines(deadline: Int64, now: Int64, resolution: Int64)
    requires resolution > 0
    ensures var id := BucketId(deadline, resolution);
            deadline > 0 ==> (id - 1) * resolution < deadline <= id * resolution
    ensures var due := DueBucketId(now, resolution);
            now >= 0 ==> due * resolution <= now < (due + 1) * resolution
  {
    if deadline > 0 {
      GridBounds(deadline, resolution);
    }
    if now >= 0 {
      GridBounds(now, resolution);
    }
  }

  /** An entry is in a due bucket exactly when the grid line at or after its deadline has passed. */
  ghost predicate Due(deadline: Int64, now: Int64, resolution: Int64)
    requires resolution > 0
  {
    deadline > 0 && BucketId(deadline, resolution) <= DueBucketId(now, resolution)
  }

  /** Due entries have expired; an expiring entry that is not due expires later than one resolution ago. */
  lemma DueIsExpired(deadline: Nanos, now: Nanos, resolution: Int64)
    requires resolution > 0
    ensures Due(deadline, now, resolution) ==> deadline <= now
    ensures deadline > 0 && !Due(deadline, now, resolution) ==> deadline > now - resolution
  {
    hide DueBucketId;
    GridLines(deadline, now, resolution);
    if deadline > 0 {
      var id, due := BucketId(deadline, resolution), DueBucketId(now, resolution);
      if id <= due {
        MulMono(id, due, resolution);
      } else {
        MulMono(due, id - 1, resolution);
        assert (due + 1) * resolution == due * resolution + resolution;
      }
    }
  }
}
