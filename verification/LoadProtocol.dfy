/** What happens in one segment, as a history: its calls, its contents, and an ordered log of events. */
module Histories {
  import opened Types
  import opened Waves

  type Pid = nat

  /** Where a resident value comes from: the result of a wave, or the mutation at that position of the log. */
  datatype Origin = ByWave(wave: nat) | ByMutation(at: nat)

  datatype Stored = Stored(load: Load, origin: Origin)

  /** The kind of mutation that sets a barrier for one key. */
  datatype Cause = BySet | ByGetOrSet | ByTake | ByDelete

  datatype Event =
    | BeganWave(wave: nat, key: Key, pid: Pid)
    | JoinedWave(wave: nat, key: Key, pid: Pid)
    | TookCached(wave: nat, load: Load, origin: Origin)
    | LoaderBegan(wave: nat)
    | LoaderEnded(wave: nat, run: Run)
    | Tested(wave: nat, forgotten: bool)
    | Published(wave: nat, load: Load)
    | ClosedWave(wave: nat, run: Run)
    | Received(wave: nat, pid: Pid, awaited: Awaited)
    | ReadCached(key: Key, load: Load, origin: Origin)
    | Barrier(key: Key, cause: Cause)
    | BarrierAll
    | Wrote(key: Key, load: Load)
    | WroteAll
    | FoundLive(key: Key, load: Load, origin: Origin)

  datatype Source = FromCache(at: nat, load: Load, origin: Origin) | FromLoader(at: nat)
  datatype End = End(at: nat, run: Run)
  datatype Test = Test(at: nat, forgotten: bool)

  /** When each thing happened to a wave: positions in the log. */
  datatype Life = Life(owner: Pid, start: nat, source: Option<Source>, end: Option<End>, test: Option<Test>,
                       published: Option<nat>, closed: Option<End>)

  datatype History = History(flight: Flight, store: map<Key, Stored>, log: seq<Event>, lives: seq<Life>)

  const EMPTY: History := History(Flight([], map[]), map[], [], [])

  predicate Affects(e: Event, k: Key) {
    (e.Barrier? && e.key == k) || e == BarrierAll
  }

  predicate Writes(e: Event, k: Key) {
    (e.Wrote? && e.key == k) || e == WroteAll
  }

  /** A barrier for `k` lies strictly between the two positions. */
  ghost predicate Barred(log: seq<Event>, k: Key, a: nat, b: nat) {
    exists i :: a < i < b && i < |log| && Affects(log[i], k)
  }

  /** A mutation has written `k` strictly between the two positions. */
  ghost predicate Overwritten(log: seq<Event>, k: Key, a: nat, b: nat) {
    exists i :: a < i < b && i < |log| && Writes(log[i], k)
  }

  ghost predicate HasJoin(log: seq<Event>, w: nat) {
    exists i :: 0 <= i < |log| && log[i].JoinedWave? && log[i].wave == w
  }

  /** Before position `n`, process `p` has begun or joined wave `w` for `k`. */
  ghost predicate EnteredBy(log: seq<Event>, w: nat, k: Key, p: Pid, n: nat) {
    exists i :: 0 <= i < n && i < |log| && (log[i] == BeganWave(w, k, p) || log[i] == JoinedWave(w, k, p))
  }

  // ---------------------------------------------------------------- what can happen

  function Noted(h: History, e: Event): History {
    h.(log := h.log + [e])
  }

  /** StartCall. */
  function Entered(h: History, k: Key, p: Pid): History {
    var w := Handle(h.flight, k);
    if k in h.flight.live then
      Noted(h, JoinedWave(w, k, p)).(flight := Started(h.flight, k))
    else
      History(Started(h.flight, k), h.store, h.log + [BeganWave(w, k, p)],
              h.lives + [Life(p, |h.log|, None, None, None, None, None)])
  }

  function TookResident(h: History, w: nat, k: Key): History
    requires w < |h.lives| && k in h.store
  {
    var s := h.store[k];
    Noted(h, TookCached(w, s.load, s.origin))
      .(lives := h.lives[w := h.lives[w].(source := Some(FromCache(|h.log|, s.load, s.origin)))])
  }

  function BeganLoader(h: History, w: nat): History
    requires w < |h.lives|
  {
    Noted(h, LoaderBegan(w)).(lives := h.lives[w := h.lives[w].(source := Some(FromLoader(|h.log|)))])
  }

  function EndedLoader(h: History, w: nat, run: Run): History
    requires w < |h.lives|
  {
    Noted(h, LoaderEnded(w, run)).(lives := h.lives[w := h.lives[w].(end := Some(End(|h.log|, run)))])
  }

  function TestedWave(h: History, w: nat): History
    requires w < |h.lives| && w < |h.flight.waves|
  {
    var f := h.flight.waves[w].forgotten;
    Noted(h, Tested(w, f)).(lives := h.lives[w := h.lives[w].(test := Some(Test(|h.log|, f)))])
  }

  function PublishedWave(h: History, w: nat, k: Key, load: Load): History
    requires w < |h.lives|
  {
    Noted(h, Published(w, load))
      .(lives := h.lives[w := h.lives[w].(published := Some(|h.log|))], store := h.store[k := Stored(load, ByWave(w))])
  }

  function Closed(h: History, w: nat, run: Run): History
    requires w < |h.lives| && w < |h.flight.waves|
  {
    Noted(h, ClosedWave(w, run))
      .(lives := h.lives[w := h.lives[w].(closed := Some(End(|h.log|, run)))],
        flight := Finished(h.flight, w, ValOf(run), ErrOf(run)))
  }

  function KeyBarred(h: History, k: Key, cause: Cause): History {
    Noted(h, Barrier(k, cause)).(flight := Forgot(h.flight, k))
  }

  function AllBarred(h: History): History {
    Noted(h, BarrierAll).(flight := ForgotAll(h.flight))
  }

  /** A mutation leaves `k` with the given value, or without any. */
  function Mutated(h: History, k: Key, load: Load): History {
    Noted(h, Wrote(k, load))
      .(store := if load.Present? then h.store[k := Stored(load, ByMutation(|h.log|))] else h.store - {k})
  }

  function MutatedAll(h: History): History {
    Noted(h, WroteAll).(store := map[])
  }

  function Evicted(h: History, k: Key): History {
    h.(store := h.store - {k})
  }

  function Renewed(h: History, k: Key, deadline: Nanos): History
    requires k in h.store && h.store[k].load.Present?
  {
    h.(store := h.store[k := h.store[k].(load := Present(h.store[k].load.value, deadline))])
  }

  // ---------------------------------------------------------------- what is always true

  /** What getOrLoad makes of an unsuccessful loader: whatever came with an error is dropped. */
  function Forwarded(run: Run): Run {
    if run.Returns? && run.err.Some? then Returns(Missing, run.err) else run
  }

  predicate Succeeded(run: Run) {
    run.Returns? && run.err.None?
  }

  /** What the work of a wave returns, given what has happened to it. */
  predicate Concluded(l: Life, run: Run) {
    match l.source
    case None => false
    case Some(FromCache(_, load, _)) => run == Returns(load, None) && l.end.None? && l.test.None? && l.published.None?
    case Some(FromLoader(_)) =>
      && l.end.Some?
      && if !Succeeded(l.end.value.run) then run == Forwarded(l.end.value.run) && l.test.None? && l.published.None?
         else
           && l.test.Some?
           && if l.test.value.forgotten then run == Returns(Missing, Some(LoadSuperseded)) && l.published.None?
              else run == l.end.value.run && (l.published.Some? <==> run.val.Present?)
  }

  /** Where `w` came to an end, or the end of the log. */
  function Until(h: History, w: nat): nat
    requires w < |h.lives|
  {
    if h.lives[w].closed.Some? then h.lives[w].closed.value.at else |h.log|
  }

  /** The positions of a life are in order and lead to the right events. */
  ghost predicate Chronicled(h: History, w: nat)
    requires w < |h.lives| && w < |h.flight.waves|
  {
    var l, n := h.lives[w], |h.log|;
    && l.start < n && h.log[l.start] == BeganWave(w, h.flight.waves[w].key, l.owner)
    && (l.source.Some? ==>
          && l.start < l.source.value.at < n
          && h.log[l.source.value.at] ==
               (match l.source.value
                case FromCache(_, load, origin) => TookCached(w, load, origin)
                case _ => LoaderBegan(w)))
    && (l.end.Some? ==>
          && l.source.Some? && l.source.value.FromLoader? && l.source.value.at < l.end.value.at < n
          && h.log[l.end.value.at] == LoaderEnded(w, l.end.value.run))
    && (l.test.Some? ==>
          && l.end.Some? && Succeeded(l.end.value.run) && l.end.value.at < l.test.value.at < n
          && h.log[l.test.value.at] == Tested(w, l.test.value.forgotten))
    && (l.published.Some? ==>
          && l.test.Some? && !l.test.value.forgotten && l.end.value.run.val.Present? &&
              l.test.value.at < l.published.value < n
          && h.log[l.published.value] == Published(w, l.end.value.run.val))
    && (l.closed.Some? ==>
          && Concluded(l, l.closed.value.run)
          && l.source.value.at < l.closed.value.at < n
          && (l.end.Some? ==> l.end.value.at < l.closed.value.at)
          && (l.test.Some? ==> l.test.value.at < l.closed.value.at)
          && (l.published.Some? ==> l.published.value < l.closed.value.at)
          && h.log[l.closed.value.at] == ClosedWave(w, l.closed.value.run))
  }

  /** What is known of a wave agrees with the barriers and writes in the log. */
  ghost predicate Judged(h: History, w: nat)
    requires w < |h.lives| && w < |h.flight.waves|
  {
    var l, v := h.lives[w], h.flight.waves[w];
    && (v.done <==> l.closed.Some?)
    && (v.done ==> v.val == ValOf(l.closed.value.run) && v.err == ErrOf(l.closed.value.run))
    && (v.forgotten <==> Barred(h.log, v.key, l.start, Until(h, w)))
    && (Registered(v) ==> !Overwritten(h.log, v.key, l.start, |h.log|))
    && (l.test.Some? ==> (l.test.value.forgotten <==> Barred(h.log, v.key, l.start, l.test.value.at)))
    && (l.published.Some? ==>
          !Barred(h.log, v.key, l.start, l.published.value) && !Overwritten(h.log, v.key, l.start, l.published.value))
    && (v.dups > 0 <==> HasJoin(h.log, w))
  }

  /** An event agrees with the life of its wave. */
  ghost predicate Told(h: History, i: nat)
    requires i < |h.log| && |h.lives| == |h.flight.waves|
  {
    match h.log[i]
    case BeganWave(w, k, p) => w < |h.lives| && h.lives[w].start == i
    case JoinedWave(w, k, p) =>
      && w < |h.lives| && h.lives[w].start < i < Until(h, w) && h.flight.waves[w].key == k
      && !Overwritten(h.log, k, h.lives[w].start, i)
    case TookCached(w, load, origin) =>
      && w < |h.lives| && h.lives[w].source == Some(FromCache(i, load, origin))
      && Current(h, h.flight.waves[w].key, load, origin, i)
    case LoaderBegan(w) => w < |h.lives| && h.lives[w].source == Some(FromLoader(i))
    case LoaderEnded(w, run) => w < |h.lives| && h.lives[w].end == Some(End(i, run))
    case Tested(w, f) => w < |h.lives| && h.lives[w].test == Some(Test(i, f))
    case Published(w, load) => w < |h.lives| && h.lives[w].published == Some(i)
    case ClosedWave(w, run) => w < |h.lives| && h.lives[w].closed == Some(End(i, run))
    case Received(w, p, a) =>
      && w < |h.lives| && h.lives[w].closed.Some? && h.lives[w].closed.value.at < i
      && a == Outcome(h.flight.waves[w])
      && EnteredBy(h.log, w, h.flight.waves[w].key, p, i)
    case ReadCached(k, load, origin) => Current(h, k, load, origin, i)
    case FoundLive(k, load, origin) => Current(h, k, load, origin, i)
    case _ => true
  }

  /**
   * A value of `k` seen at `i` is that of the last write before `i`, or has been loaded since:
   * no write lies between `i` and the mutation, or the beginning of the wave, that it comes from.
   */
  ghost predicate Current(h: History, k: Key, load: Load, origin: Origin, i: nat) {
    && load.Present?
    && match origin
       case ByMutation(at) =>
         && at < i && at < |h.log| && h.log[at].Wrote? && h.log[at].key == k
         && h.log[at].load.Present? && h.log[at].load.value == load.value
         && !Overwritten(h.log, k, at, i)
       case ByWave(w) =>
         && w < |h.lives| && w < |h.flight.waves| && h.flight.waves[w].key == k
         && var l := h.lives[w];
            && l.published.Some? && l.published.value < i
            && l.end.Some? && l.end.value.run.Returns? && l.end.value.run.val.Present?
            && l.end.value.run.val.value == load.value
            && !Overwritten(h.log, k, l.start, i)
  }

  /** A later wave starts later; if it is for the same key, after the earlier one could still publish. */
  ghost predicate InTurn(h: History, v: nat, w: nat)
    requires v < w < |h.lives| && w < |h.flight.waves|
  {
    && h.lives[v].start < h.lives[w].start
    && (h.flight.waves[v].key == h.flight.waves[w].key ==>
          && !Registered(h.flight.waves[v])
          && (h.lives[v].published.Some? ==> h.lives[v].published.value < h.lives[w].start))
  }

  ghost predicate Sound(h: History) {
    && Disciplined(h.flight)
    && |h.lives| == |h.flight.waves|
    && (forall w :: 0 <= w < |h.lives| ==> Chronicled(h, w))
    && (forall w :: 0 <= w < |h.lives| ==> Judged(h, w))
    && (forall i :: 0 <= i < |h.log| ==> Told(h, i))
    && (forall k :: k in h.store ==> Current(h, k, h.store[k].load, h.store[k].origin, |h.log|))
    && (forall v, w {:trigger InTurn(h, v, w)} :: 0 <= v < w < |h.lives| ==> InTurn(h, v, w))
  }
}

/**
 * The cache-aside load protocol: any number of processes load keys and mutate the cache, one small step at a time.
 * Locks, forgetting, store writes and the work of a loader are all steps of their own.
 */
module LoadProtocol {
  import opened Types
  import opened Waves
  import opened Histories
  import opened LockPlans

  datatype Config = Config(segments: nat, processes: nat, route: Router)

  ghost predicate Proper(cfg: Config) {
    cfg.segments > 0 && forall k :: cfg.route(k) < cfg.segments
  }

  datatype Mutation =
    | SetKey(key: Key, value: Value, deadline: Nanos)
    | GetOrSetKey(key: Key, value: Value, deadline: Nanos)
    | TakeKey(key: Key)
    | DeleteKeys(keys: seq<Key>)
    | ClearAll

  datatype Action =
    | Forget(key: Key, cause: Cause)
    | ForgetEvery(segment: nat)
    | Put(key: Key, load: Load)
    | PutIfAbsent(key: Key, load: Load)
    | Remove(key: Key)
    | RemoveEvery(segment: nat)

  /** Keys of a batch come sorted by segment. */
  ghost predicate WellFormed(cfg: Config, m: Mutation) {
    m.DeleteKeys? ==> m.keys != [] && Sorted(m.keys, cfg.route)
  }

  /** The segments that a mutation locks, in order. */
  ghost function Plan(cfg: Config, m: Mutation): seq<nat> {
    match m
    case SetKey(k, _, _) => [cfg.route(k)]
    case GetOrSetKey(k, _, _) => [cfg.route(k)]
    case TakeKey(k) => [cfg.route(k)]
    case DeleteKeys(keys) => Locks(keys, cfg.route)
    case ClearAll => UpTo(cfg.segments)
  }

  function CauseOf(m: Mutation): Cause {
    match m
    case SetKey(_, _, _) => BySet
    case GetOrSetKey(_, _, _) => ByGetOrSet
    case TakeKey(_) => ByTake
    case _ => ByDelete
  }

  /** What a mutation does while it holds its locks, in order. */
  ghost function Script(cfg: Config, m: Mutation): seq<Action> {
    match m
    case SetKey(k, v, d) => [Forget(k, BySet), Put(k, Present(v, d))]
    case GetOrSetKey(k, v, d) => [Forget(k, ByGetOrSet), PutIfAbsent(k, Present(v, d))]
    case TakeKey(k) => [Forget(k, ByTake), Remove(k)]
    case DeleteKeys(keys) =>
      seq(2 * |keys|, j requires 0 <= j < 2 * |keys| =>
        if j % 2 == 0 then Forget(keys[j / 2], ByDelete) else Remove(keys[j / 2]))
    case ClearAll =>
      seq(2 * cfg.segments, j requires 0 <= j < 2 * cfg.segments =>
        if j < cfg.segments then ForgetEvery(j) else RemoveEvery(j - cfg.segments))
  }

  function Where(cfg: Config, a: Action): nat {
    match a
    case Forget(k, _) => cfg.route(k)
    case ForgetEvery(i) => i
    case Put(k, _) => cfg.route(k)
    case PutIfAbsent(k, _) => cfg.route(k)
    case Remove(k) => cfg.route(k)
    case RemoveEvery(i) => i
  }

  /** Where a process is. */
  datatype PC =
    | Idle
    | LookingUp(key: Key)
    | Registering(key: Key)
    | Starting(key: Key)
    | Enrolled(key: Key, wave: nat, owner: bool)
    | Rechecking(key: Key, wave: nat)
    | Loading(key: Key, wave: nat)
    | Running(key: Key, wave: nat)
    | Publishing(key: Key, wave: nat, load: Load)
    | Testing(key: Key, wave: nat, load: Load)
    | Storing(key: Key, wave: nat, load: Load)
    | Leaving(key: Key, wave: nat, run: Run)
    | Finishing(key: Key, wave: nat, run: Run)
    | Waiting(key: Key, wave: nat)
    // A GetOrSet looks the key up before it locks.
    | Peeking(key: Key, value: Value, deadline: Nanos)
    | Locking(m: Mutation, at: nat)
    | Acting(m: Mutation, at: nat)
    | Unlocking(m: Mutation, at: nat)

  /** One segment: its state lock, and its history. */
  datatype Seg = Seg(writer: Option<Pid>, readers: set<Pid>, h: History)

  /** What a process does next: most steps leave no choice. */
  datatype Move =
    | BeginLoad(key: Key)
    | BeginMutation(m: Mutation)
    | GiveUp
    | LoaderReturns(run: Run)
    | Proceed

  function Did(h: History, a: Action): History {
    match a
    case Forget(k, cause) => KeyBarred(h, k, cause)
    case ForgetEvery(_) => AllBarred(h)
    case Put(k, load) => Mutated(h, k, load)
    case PutIfAbsent(k, load) =>
      if k in h.store then Noted(h, FoundLive(k, h.store[k].load, h.store[k].origin)) else Mutated(h, k, load)
    case Remove(k) => Mutated(h, k, Missing)
    case RemoveEvery(_) => MutatedAll(h)
  }

  /** The segment on which the next step of a process works. */
  ghost function Target(cfg: Config, pc: PC): nat {
    match pc
    case Idle => 0
    case Locking(m, n) => if n < |Plan(cfg, m)| then Plan(cfg, m)[n] else 0
    case Acting(m, n) => if n < |Script(cfg, m)| then Where(cfg, Script(cfg, m)[n]) else 0
    case Unlocking(m, n) => if 0 < n <= |Plan(cfg, m)| then Plan(cfg, m)[n - 1] else 0
    case _ => cfg.route(pc.key)
  }

  predicate Known(s: Seg, w: nat) {
    w < |s.h.lives| && w < |s.h.flight.waves|
  }

  /** The steps of a load, and the lookup of a GetOrSet. */
  function LoadStep(p: Pid, pc: PC, s: Seg): Option<(PC, Seg)> {
    match pc
    case LookingUp(k) =>
      if k in s.h.store
      then Some((Idle, s.(h := Noted(s.h, ReadCached(k, s.h.store[k].load, s.h.store[k].origin)))))
      else Some((Registering(k), s))
    case Registering(k) =>
      if s.writer.None? then Some((Starting(k), s.(readers := s.readers + {p}))) else None
    case Starting(k) =>
      Some((Enrolled(k, Handle(s.h.flight, k), k !in s.h.flight.live), s.(h := Entered(s.h, k, p))))
    case Enrolled(k, w, owner) =>
      Some((if owner then Rechecking(k, w) else Waiting(k, w), s.(readers := s.readers - {p})))
    case Rechecking(k, w) =>
      if !Known(s, w) then None
      else if k in s.h.store
      then Some((Finishing(k, w, Returns(s.h.store[k].load, None)), s.(h := TookResident(s.h, w, k))))
      else Some((Loading(k, w), s))
    case Loading(k, w) =>
      if Known(s, w) then Some((Running(k, w), s.(h := BeganLoader(s.h, w)))) else None
    case Publishing(k, w, load) =>
      if s.writer.None? then Some((Testing(k, w, load), s.(readers := s.readers + {p}))) else None
    case Testing(k, w, load) =>
      if !Known(s, w) then None
      else
        Some((if s.h.flight.waves[w].forgotten then Leaving(k, w, Returns(Missing, Some(LoadSuperseded)))
              else if load.Present? then Storing(k, w, load)
              else Leaving(k, w, Returns(load, None)),
              s.(h := TestedWave(s.h, w))))
    case Storing(k, w, load) =>
      if Known(s, w) then Some((Leaving(k, w, Returns(load, None)), s.(h := PublishedWave(s.h, w, k, load)))) else None
    case Leaving(k, w, run) => Some((Finishing(k, w, run), s.(readers := s.readers - {p})))
    case Finishing(k, w, run) =>
      // A goroutine that exits does not come back to wait for its own wave.
      if Known(s, w) then Some((if run.Exits? then Idle else Waiting(k, w), s.(h := Closed(s.h, w, run)))) else None
    case Waiting(k, w) =>
      if Known(s, w) && s.h.flight.waves[w].done
      then Some((Idle, s.(h := Noted(s.h, Received(w, p, Outcome(s.h.flight.waves[w])))))) else None
    case Peeking(k, v, d) =>
      if k in s.h.store
      then Some((Idle, s.(h := Noted(s.h, ReadCached(k, s.h.store[k].load, s.h.store[k].origin)))))
      else Some((Locking(GetOrSetKey(k, v, d), 0), s))
    case _ => None
  }

  function FirstOf(m: Mutation): PC {
    if m.GetOrSetKey? then Peeking(m.key, m.value, m.deadline) else Locking(m, 0)
  }

  /** The steps of a mutation: lock upward, act, unlock downward. */
  ghost function MutationStep(cfg: Config, p: Pid, pc: PC, s: Seg): Option<(PC, Seg)> {
    match pc
    case Locking(m, n) =>
      if s.writer.None? && s.readers == {}
      then Some((if n + 1 < |Plan(cfg, m)| then Locking(m, n + 1) else Acting(m, 0), s.(writer := Some(p)))) else None
    case Acting(m, n) =>
      if n < |Script(cfg, m)|
      then Some((if n + 1 < |Script(cfg, m)| then Acting(m, n + 1) else Unlocking(m, |Plan(cfg, m)|),
                 s.(h := Did(s.h, Script(cfg, m)[n])))) else None
    case Unlocking(m, n) => Some((if n > 1 then Unlocking(m, n - 1) else Idle, s.(writer := None)))
    case _ => None
  }

  /** What process `p` at `pc` and its target segment become in a step; None if the step is not possible. */
  ghost function Advance(cfg: Config, p: Pid, pc: PC, move: Move, s: Seg): Option<(PC, Seg)> {
    match move
    case BeginLoad(k) => if pc.Idle? then Some((LookingUp(k), s)) else None
    case BeginMutation(m) => if pc.Idle? && WellFormed(cfg, m) then Some((FirstOf(m), s)) else None
    // Cancelled, or without a loader; a waiter may leave even when its wave is done.
    case GiveUp => if pc.Registering? || pc.Waiting? then Some((Idle, s)) else None
    case LoaderReturns(run) =>
      if pc.Running? && Known(s, pc.wave)
      then Some((if Succeeded(run) then Publishing(pc.key, pc.wave, run.val)
                 else Finishing(pc.key, pc.wave, Forwarded(run)),
                 s.(h := EndedLoader(s.h, pc.wave, run)))) else None
    case Proceed =>
      if pc.Locking? || pc.Acting? || pc.Unlocking? then MutationStep(cfg, p, pc, s) else LoadStep(p, pc, s)
  }

  datatype State = State(segs: seq<Seg>, pcs: seq<PC>)

  ghost predicate Initial(cfg: Config, s: State) {
    && s.segs == seq(cfg.segments, _ => Seg(None, {}, EMPTY))
    && s.pcs == seq(cfg.processes, _ => Idle)
  }

  ghost predicate ProcessStep(cfg: Config, s: State, s': State, p: Pid, move: Move) {
    && p < |s.pcs|
    && var i := Target(cfg, s.pcs[p]);
       && i < |s.segs|
       && var r := Advance(cfg, p, s.pcs[p], move, s.segs[i]);
          r.Some? && s' == State(s.segs[i := r.value.1], s.pcs[p := r.value.0])
  }

  /** Expiration, eviction and sliding reads may come at any time. */
  ghost predicate Upkeep(s: State, s': State, i: nat, k: Key, deadline: Nanos) {
    && i < |s.segs| && k in s.segs[i].h.store && s.segs[i].h.store[k].load.Present?
    && var seg := s.segs[i];
       || s' == s.(segs := s.segs[i := seg.(h := Evicted(seg.h, k))])
       || s' == s.(segs := s.segs[i := seg.(h := Renewed(seg.h, k, deadline))])
  }

  ghost predicate Step(cfg: Config, s: State, s': State) {
    || (exists p, move :: ProcessStep(cfg, s, s', p, move))
    || (exists i, k, deadline :: Upkeep(s, s', i, k, deadline))
  }

  ghost predicate Execution(cfg: Config, run: seq<State>) {
    && Proper(cfg) && run != [] && Initial(cfg, run[0])
    && forall n :: 0 <= n < |run| - 1 ==> Step(cfg, run[n], run[n + 1])
  }
}
