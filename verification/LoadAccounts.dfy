/**
 * What each operation does from its beginning to its end, whatever the others do in between: the events it logs, in
 * order, and what it finds in the store before it logs them.
 */
module Accounts {
  import opened Types
  import opened Waves
  import opened Histories
  import opened LoadProtocol

  datatype Operation = Loads(key: Key) | Mutates(m: Mutation)

  /** One step of a process: the segment on which it works, before and after. */
  datatype Note = Note(segment: nat, before: Seg, after: Seg)

  /** The steps that a process has made in its latest operation, and whether it has given that up. */
  datatype Account = Account(op: Option<Operation>, notes: seq<Note>, gaveUp: bool)

  /** Something a process has logged, and where. */
  datatype Act = Act(segment: nat, event: Event)

  ghost function ActsOf(n: Note): seq<Act> {
    var a, b := |n.before.h.log|, |n.after.h.log|;
    if b <= a then [] else seq(b - a, i requires 0 <= i < b - a => Act(n.segment, n.after.h.log[a + i]))
  }

  ghost function Acts(notes: seq<Note>): seq<Act> {
    if notes == [] then [] else Acts(notes[..|notes| - 1]) + ActsOf(notes[|notes| - 1])
  }

  /** After its first `n` acts, and before the next, the process was at a moment at which `k` was not stored. */
  ghost predicate Missed(notes: seq<Note>, k: Key, n: nat) {
    exists q :: 0 <= q < |notes| && MissedAt(notes, k, n, q)
  }

  ghost predicate MissedAt(notes: seq<Note>, k: Key, n: nat, q: nat) {
    q < |notes| && |Acts(notes[..q])| == n && k !in notes[q].before.h.store
  }

  // ---------------------------------------------------------------- what a complete load has done

  function Publication(i: nat, w: nat, r: Run, forgotten: bool): seq<Act> {
    if !Succeeded(r) then []
    else if forgotten then [Act(i, Tested(w, true))]
    else if r.val.Missing? then [Act(i, Tested(w, false))]
    else [Act(i, Tested(w, false)), Act(i, Published(w, r.val))]
  }

  /** What the work of a wave comes to. */
  function ResultOf(r: Run, forgotten: bool): Run {
    match r
    case Panics(_) => r
    case Exits => r
    case Returns(val, Some(e)) => Returns(Missing, Some(e))
    case Returns(val, None) => if forgotten then Returns(Missing, Some(LoadSuperseded)) else r
  }

  function CachedWork(i: nat, k: Key, p: Pid, w: nat, load: Load, origin: Origin): seq<Act> {
    [Act(i, BeganWave(w, k, p)), Act(i, TookCached(w, load, origin))]
  }

  function LoaderWork(i: nat, k: Key, p: Pid, w: nat, r: Run, forgotten: bool): seq<Act> {
    [Act(i, BeganWave(w, k, p)), Act(i, LoaderBegan(w)), Act(i, LoaderEnded(w, r))] + Publication(i, w, r, forgotten)
  }

  /**
   * The owner of a wave has done its work: it has taken the resident entry, or else has missed it once more and run the
   * loader, and published the result if it may be published.
   */
  ghost predicate Worked(i: nat, k: Key, p: Pid, w: nat, acts: seq<Act>, missed: bool, run: Run) {
    || (exists load, origin :: acts == CachedWork(i, k, p, w, load, origin) && run == Returns(load, None))
    || (missed && exists r, forgotten :: acts == LoaderWork(i, k, p, w, r, forgotten) && run == ResultOf(r, forgotten))
  }

  ghost predicate ClosedBy(i: nat, k: Key, p: Pid, w: nat, acts: seq<Act>, missed: bool, run: Run) {
    && acts != [] && acts[|acts| - 1] == Act(i, ClosedWave(w, run))
    && Worked(i, k, p, w, acts[..|acts| - 1], missed, run)
  }

  /** The process waits for wave `w`, which it has joined, or has begun and closed itself. */
  ghost predicate Awaits(i: nat, k: Key, p: Pid, w: nat, acts: seq<Act>, missed: bool) {
    || acts == [Act(i, JoinedWave(w, k, p))]
    || exists run: Run :: !run.Exits? && ClosedBy(i, k, p, w, acts, missed, run)
  }

  ghost predicate Receives(i: nat, p: Pid, w: nat, act: Act) {
    act.segment == i && act.event.Received? && act.event.wave == w && act.event.pid == p
  }

  /** The process has received the outcome of wave `w` at last, or its own loader has made it exit. */
  ghost predicate Ended(i: nat, k: Key, p: Pid, w: nat, acts: seq<Act>, missed: bool) {
    && acts != []
    && (|| (Receives(i, p, w, acts[|acts| - 1]) && Awaits(i, k, p, w, acts[..|acts| - 1], missed))
        || ClosedBy(i, k, p, w, acts, missed, Exits))
  }

  /**
   * A complete load of `k`: it has read the resident entry, and done nothing else; or it has missed the key, entered a
   * wave, done the work if the wave is its own, and received the outcome, unless it has given up waiting or
   * its own loader has exited.
   */
  ghost predicate LoadDone(i: nat, k: Key, p: Pid, a: Account) {
    var acts, m0, m1 := Acts(a.notes), Missed(a.notes, k, 0), Missed(a.notes, k, 1);
    || (!a.gaveUp && exists load, origin :: acts == [Act(i, ReadCached(k, load, origin))])
    || (m0 && a.gaveUp && (acts == [] || exists w :: Awaits(i, k, p, w, acts, m1)))
    || (m0 && !a.gaveUp && exists w :: Ended(i, k, p, w, acts, m1))
  }

  // ---------------------------------------------------------------- what a complete mutation has done

  ghost function Deletions(cfg: Config, keys: seq<Key>): seq<Act> {
    if keys == [] then [] else
      var k := keys[|keys| - 1];
      Deletions(cfg, keys[..|keys| - 1])
      + [Act(cfg.route(k), Barrier(k, ByDelete)), Act(cfg.route(k), Wrote(k, Missing))]
  }

  function Everywhere(n: nat, e: Event): seq<Act> {
    seq(n, i requires 0 <= i < n => Act(i, e))
  }

  /** What a mutation other than a GetOrSet has to do. */
  ghost function Deed(cfg: Config, m: Mutation): seq<Act>
    requires !m.GetOrSetKey?
  {
    match m
    case SetKey(k, v, d) => [Act(cfg.route(k), Barrier(k, BySet)), Act(cfg.route(k), Wrote(k, Present(v, d)))]
    case TakeKey(k) => [Act(cfg.route(k), Barrier(k, ByTake)), Act(cfg.route(k), Wrote(k, Missing))]
    case DeleteKeys(keys) => Deletions(cfg, keys)
    case ClearAll => Everywhere(cfg.segments, BarrierAll) + Everywhere(cfg.segments, WroteAll)
  }

  /**
   * A complete GetOrSet has read the resident entry; or has missed it, set the barrier, and then found an entry that
   * came in between, or missed it once more and stored its own value.
   */
  ghost predicate GotOrSet(i: nat, k: Key, load: Load, notes: seq<Note>) {
    var acts := Acts(notes);
    || (exists seen, origin :: acts == [Act(i, ReadCached(k, seen, origin))])
    || (Missed(notes, k, 0) && exists seen, origin ::
          acts == [Act(i, Barrier(k, ByGetOrSet)), Act(i, FoundLive(k, seen, origin))])
    || (Missed(notes, k, 0) && Missed(notes, k, 1) && acts == [Act(i, Barrier(k, ByGetOrSet)), Act(i, Wrote(k, load))])
  }

  ghost predicate MutationDone(cfg: Config, m: Mutation, a: Account) {
    && !a.gaveUp
    && match m
       case GetOrSetKey(k, v, d) => GotOrSet(cfg.route(k), k, Present(v, d), a.notes)
       case _ => Acts(a.notes) == Deed(cfg, m)
  }

  ghost predicate Done(cfg: Config, p: Pid, a: Account) {
    match a.op
    case None => a.notes == [] && !a.gaveUp
    case Some(Loads(k)) => LoadDone(cfg.route(k), k, p, a)
    case Some(Mutates(m)) => MutationDone(cfg, m, a)
  }

  // ---------------------------------------------------------------- what a step does to its segment

  /** Of two acts, or of a store that changes without one, a step is never the cause. */
  ghost predicate OneAtATime(n: Note) {
    || (n.after.h.log == n.before.h.log && n.after.h.store == n.before.h.store)
    || (|n.after.h.log| == |n.before.h.log| + 1 && n.before.h.log <= n.after.h.log)
  }

  /** What is logged agrees with the store and the calls at that moment, and with what becomes of the store. */
  ghost predicate Truthful(p: Pid, n: Note) {
    var h, h' := n.before.h, n.after.h;
    && OneAtATime(n)
    && (|h'.log| == |h.log| + 1 ==>
          && (h'.log[|h.log|].Wrote? || h'.log[|h.log|].WroteAll? || h'.log[|h.log|].Published? || h'.store == h.store)
          && match h'.log[|h.log|]
             case ReadCached(k, load, origin) => k in h.store && h.store[k] == Stored(load, origin)
             case FoundLive(k, load, origin) => Writing(p, n) && k in h.store && h.store[k] == Stored(load, origin)
             case TookCached(w, load, origin) =>
               && w < |h.flight.waves| && h.flight.waves[w].key in h.store
               && h.store[h.flight.waves[w].key] == Stored(load, origin)
             case BeganWave(w, k, q) => Reading(p, n) && q == p && k !in h.flight.live && w == |h.flight.waves|
             case JoinedWave(w, k, q) => Reading(p, n) && q == p && k in h.flight.live && w == h.flight.live[k]
             case Tested(w, forgotten) =>
               Reading(p, n) && w < |h.flight.waves| && forgotten == h.flight.waves[w].forgotten
             case Published(w, load) =>
               && Reading(p, n) && w < |h.flight.waves|
               && h'.store == h.store[h.flight.waves[w].key := Stored(load, ByWave(w))]
             case Received(w, q, a) =>
               q == p && w < |h.flight.waves| && h.flight.waves[w].done && a == Outcome(h.flight.waves[w])
             case Wrote(k, load) =>
               Writing(p, n) && h'.store == if load.Present? then h.store[k := Stored(load, ByMutation(|h.log|))]
                                            else h.store - {k}
             case WroteAll => Writing(p, n) && h'.store == map[]
             case Barrier(_, _) => Writing(p, n)
             case BarrierAll => Writing(p, n)
             case _ => true)
  }

  ghost predicate Reading(p: Pid, n: Note) {
    p in n.before.readers && n.before.writer == None
  }

  ghost predicate Writing(p: Pid, n: Note) {
    n.before.writer == Some(p) && n.before.readers == {}
  }

  // ---------------------------------------------------------------- facts

  lemma OneMoreNote(notes: seq<Note>, n: Note)
    ensures Acts(notes + [n]) == Acts(notes) + ActsOf(n)
  {
    assert (notes + [n])[..|notes|] == notes;
  }

  lemma Quiet(n: Note)
    requires n.after.h.log == n.before.h.log
    ensures ActsOf(n) == []
  {
  }

  lemma Speaks(n: Note, e: Event)
    requires n.after.h.log == n.before.h.log + [e]
    ensures ActsOf(n) == [Act(n.segment, e)]
  {
  }

  /** What has been missed stays missed. */
  lemma StillMissed(notes: seq<Note>, n: Note, k: Key, m: nat)
    ensures Missed(notes, k, m) ==> Missed(notes + [n], k, m)
    ensures |Acts(notes)| == m && k !in n.before.h.store ==> Missed(notes + [n], k, m)
  {
    if Missed(notes, k, m) {
      var q :| 0 <= q < |notes| && MissedAt(notes, k, m, q);
      assert (notes + [n])[..q] == notes[..q];
      assert MissedAt(notes + [n], k, m, q);
    }
    if |Acts(notes)| == m && k !in n.before.h.store {
      assert (notes + [n])[..|notes|] == notes;
      assert MissedAt(notes + [n], k, m, |notes|);
    }
  }
}

/** In every execution every operation that is over has done exactly what it has to do. */
module LoadAccounts {
  import opened Types
  import opened Waves
  import opened Histories
  import opened LockPlans
  import opened LoadProtocol
  import opened LoadInvariant
  import opened LoadSteps
  import opened LoadSafety
  import opened LoadTheorems
  import opened Accounts

  datatype Actor = ByProcess(p: Pid, move: Move) | ByUpkeep

  ghost predicate Acted(cfg: Config, s: State, s': State, a: Actor) {
    match a
    case ByProcess(p, move) => ProcessStep(cfg, s, s', p, move)
    case ByUpkeep => exists i, k, deadline :: Upkeep(s, s', i, k, deadline)
  }

  /** `actors[n]` makes the step from `run[n]` to the next state. */
  ghost predicate Labelled(cfg: Config, run: seq<State>, actors: seq<Actor>) {
    && Execution(cfg, run) && |actors| == |run| - 1
    && forall n :: 0 <= n < |actors| ==> Acted(cfg, run[n], run[n + 1], actors[n])
  }

  lemma OneLabel(cfg: Config, s: State, s': State) returns (a: Actor)
    requires Step(cfg, s, s')
    ensures Acted(cfg, s, s', a)
  {
    hide ProcessStep, Upkeep;
    a := ByUpkeep;
    if p, move :| ProcessStep(cfg, s, s', p, move) {
      a := ByProcess(p, move);
    }
  }

  lemma {:induction false} LabelsExist(cfg: Config, run: seq<State>) returns (actors: seq<Actor>)
    requires Execution(cfg, run)
    ensures Labelled(cfg, run, actors)
  {
    hide ProcessStep, Upkeep, Initial;
    actors := [];
    if |run| > 1 {
      var m := |run| - 2;
      actors := LabelsExist(cfg, run[..m + 1]);
      assert Step(cfg, run[m], run[m + 1]);
      var a := OneLabel(cfg, run[m], run[m + 1]);
      actors := actors + [a];
      forall n | 0 <= n < |actors| ensures Acted(cfg, run[n], run[n + 1], actors[n]) {
      }
    }
  }

  /** What becomes of the account of `p` in a step of its own. */
  ghost function Recorded(cfg: Config, a: Account, p: Pid, pc: PC, move: Move, s: Seg, s': Seg): Account {
    match move
    case BeginLoad(k) => Account(Some(Loads(k)), [], false)
    case BeginMutation(m) => Account(Some(Mutates(m)), [], false)
    case GiveUp => a.(gaveUp := true)
    case _ => a.(notes := a.notes + [Note(Target(cfg, pc), s, s')])
  }

  ghost function AccountOf(cfg: Config, run: seq<State>, actors: seq<Actor>, p: Pid, n: nat): Account
    requires Labelled(cfg, run, actors) && n < |run|
  {
    if n == 0 then Account(None, [], false) else
      var earlier := AccountOf(cfg, run, actors, p, n - 1);
      assert Acted(cfg, run[n - 1], run[n - 1 + 1], actors[n - 1]);
      match actors[n - 1]
      case ByProcess(q, move) =>
        if q != p then earlier else
          var i := Target(cfg, run[n - 1].pcs[p]);
          Recorded(cfg, earlier, p, run[n - 1].pcs[p], move, run[n - 1].segs[i], run[n].segs[i])
      case ByUpkeep => earlier
  }

  // ---------------------------------------------------------------- what an operation has done so far

  ghost predicate InLoad(a: Account, k: Key) {
    a.op == Some(Loads(k)) && !a.gaveUp
  }

  /** The account of a process says how it has come to where it is. */
  ghost predicate SoFar(cfg: Config, p: Pid, pc: PC, a: Account) {
    var acts := Acts(a.notes);
    match pc
    case Idle => Done(cfg, p, a)
    case LookingUp(k) => InLoad(a, k) && acts == []
    case Registering(k) => InLoad(a, k) && Missed(a.notes, k, 0) && acts == []
    case Starting(k) => InLoad(a, k) && Missed(a.notes, k, 0) && acts == []
    case Enrolled(k, w, owner) =>
      && InLoad(a, k) && Missed(a.notes, k, 0)
      && acts == [Act(cfg.route(k), if owner then BeganWave(w, k, p) else JoinedWave(w, k, p))]
    case Rechecking(k, w) =>
      InLoad(a, k) && Missed(a.notes, k, 0) && acts == [Act(cfg.route(k), BeganWave(w, k, p))]
    case Loading(k, w) =>
      && InLoad(a, k) && Missed(a.notes, k, 0) && Missed(a.notes, k, 1)
      && acts == [Act(cfg.route(k), BeganWave(w, k, p))]
    case Running(k, w) =>
      && InLoad(a, k) && Missed(a.notes, k, 0) && Missed(a.notes, k, 1)
      && acts == [Act(cfg.route(k), BeganWave(w, k, p)), Act(cfg.route(k), LoaderBegan(w))]
    case Publishing(k, w, load) => Loaded(cfg, p, k, w, Returns(load, None), [], a)
    case Testing(k, w, load) => Loaded(cfg, p, k, w, Returns(load, None), [], a)
    case Storing(k, w, load) =>
      Loaded(cfg, p, k, w, Returns(load, None), [Act(cfg.route(k), Tested(w, false))], a) && load.Present?
    case Leaving(k, w, run) => Working(cfg, p, k, w, run, a)
    case Finishing(k, w, run) => Working(cfg, p, k, w, run, a)
    case Waiting(k, w) =>
      && InLoad(a, k) && Missed(a.notes, k, 0)
      && Awaits(cfg.route(k), k, p, w, acts, Missed(a.notes, k, 1))
    case Peeking(k, v, d) => Mutating(a, GetOrSetKey(k, v, d)) && acts == []
    case Locking(m, n) => Mutating(a, m) && acts == [] && (m.GetOrSetKey? ==> Missed(a.notes, m.key, 0))
    case Acting(m, n) =>
      && Mutating(a, m)
      && if m.GetOrSetKey? then
           && Missed(a.notes, m.key, 0)
           && acts == if n == 0 then [] else [Act(cfg.route(m.key), Barrier(m.key, ByGetOrSet))]
         else n <= |Deed(cfg, m)| && acts == Deed(cfg, m)[..n]
    case Unlocking(m, n) => a.op == Some(Mutates(m)) && MutationDone(cfg, m, a)
  }

  ghost predicate Mutating(a: Account, m: Mutation) {
    a.op == Some(Mutates(m)) && !a.gaveUp
  }

  ghost predicate Loaded(cfg: Config, p: Pid, k: Key, w: nat, r: Run, more: seq<Act>, a: Account) {
    var i := cfg.route(k);
    && InLoad(a, k) && Missed(a.notes, k, 0) && Missed(a.notes, k, 1)
    && Acts(a.notes) ==
         [Act(i, BeganWave(w, k, p)), Act(i, LoaderBegan(w)), Act(i, LoaderEnded(w, r))] + more
  }

  ghost predicate Working(cfg: Config, p: Pid, k: Key, w: nat, run: Run, a: Account) {
    && InLoad(a, k) && Missed(a.notes, k, 0)
    && Worked(cfg.route(k), k, p, w, Acts(a.notes), Missed(a.notes, k, 1), run)
  }

  // ---------------------------------------------------------------- steps of a load

  /** What a step on the target segment adds to the account. */
  ghost function Plus(cfg: Config, a: Account, pc: PC, s: Seg, s': Seg): Account {
    a.(notes := a.notes + [Note(Target(cfg, pc), s, s')])
  }

  /** What has been missed so far, or is missed now, has been missed afterwards. */
  lemma MissedOn(a: Account, n: Note)
    ensures forall k, m :: Missed(a.notes, k, m) ==> Missed(a.notes + [n], k, m)
    ensures forall k :: k !in n.before.h.store ==> Missed(a.notes + [n], k, |Acts(a.notes)|)
  {
    hide Missed, Acts, ActsOf;
    forall k, m | Missed(a.notes, k, m) ensures Missed(a.notes + [n], k, m) {
      StillMissed(a.notes, n, k, m);
    }
    forall k | k !in n.before.h.store ensures Missed(a.notes + [n], k, |Acts(a.notes)|) {
      StillMissed(a.notes, n, k, |Acts(a.notes)|);
    }
  }

  /** A step that logs nothing. */
  lemma QuietStep(cfg: Config, a: Account, pc: PC, s: Seg, s': Seg)
    requires s'.h.log == s.h.log
    ensures Acts(Plus(cfg, a, pc, s, s').notes) == Acts(a.notes)
    ensures forall k, m :: Missed(a.notes, k, m) ==> Missed(Plus(cfg, a, pc, s, s').notes, k, m)
    ensures forall k :: k !in s.h.store ==> Missed(Plus(cfg, a, pc, s, s').notes, k, |Acts(a.notes)|)
  {
    hide Missed, Acts, ActsOf;
    var n := Note(Target(cfg, pc), s, s');
    OneMoreNote(a.notes, n);
    Quiet(n);
    MissedOn(a, n);
  }

  /** A step that logs `e`. */
  lemma LoggingStep(cfg: Config, a: Account, pc: PC, s: Seg, s': Seg, e: Event)
    requires s'.h.log == s.h.log + [e]
    ensures Acts(Plus(cfg, a, pc, s, s').notes) == Acts(a.notes) + [Act(Target(cfg, pc), e)]
    ensures forall k, m :: Missed(a.notes, k, m) ==> Missed(Plus(cfg, a, pc, s, s').notes, k, m)
    ensures forall k :: k !in s.h.store ==> Missed(Plus(cfg, a, pc, s, s').notes, k, |Acts(a.notes)|)
  {
    hide Missed, Acts, ActsOf;
    var n := Note(Target(cfg, pc), s, s');
    OneMoreNote(a.notes, n);
    Speaks(n, e);
    MissedOn(a, n);
  }

  ghost predicate Goes(cfg: Config, p: Pid, pc: PC, a: Account, s: Seg, r: Option<(PC, Seg)>) {
    r.Some? ==> SoFar(cfg, p, r.value.0, Plus(cfg, a, pc, s, r.value.1))
  }

  /** The first steps of a load, up to the recheck. */
  lemma EntrySteps(cfg: Config, p: Pid, pc: PC, a: Account, s: Seg)
    requires SoFar(cfg, p, pc, a) && (pc.LookingUp? || pc.Registering? || pc.Starting? || pc.Enrolled?)
    ensures Goes(cfg, p, pc, a, s, LoadStep(p, pc, s))
  {
    hide Missed, Acts, Worked;
    var r := LoadStep(p, pc, s);
    if r.Some? {
      var s' := r.value.1;
      if s'.h.log == s.h.log {
        QuietStep(cfg, a, pc, s, s');
      } else {
        LoggingStep(cfg, a, pc, s, s', s'.h.log[|s.h.log|]);
      }
    }
  }

  lemma SourceSteps(cfg: Config, p: Pid, pc: PC, a: Account, s: Seg)
    requires SoFar(cfg, p, pc, a) && (pc.Rechecking? || pc.Loading?)
    ensures Goes(cfg, p, pc, a, s, LoadStep(p, pc, s))
  {
    hide Missed, Acts;
    var r := LoadStep(p, pc, s);
    if r.Some? {
      var s' := r.value.1;
      if s'.h.log == s.h.log {
        QuietStep(cfg, a, pc, s, s');
      } else {
        LoggingStep(cfg, a, pc, s, s', s'.h.log[|s.h.log|]);
        if pc.Rechecking? {
          var found := s.h.store[pc.key];
          assert Acts(Plus(cfg, a, pc, s, s').notes) ==
                   CachedWork(cfg.route(pc.key), pc.key, p, pc.wave, found.load, found.origin);
        }
      }
    }
  }

  lemma LoaderEnds(cfg: Config, p: Pid, pc: PC, a: Account, s: Seg, run: Run)
    requires SoFar(cfg, p, pc, a) && pc.Running?
    ensures Goes(cfg, p, pc, a, s, Advance(cfg, p, pc, LoaderReturns(run), s))
  {
    hide Missed, Acts;
    var r := Advance(cfg, p, pc, LoaderReturns(run), s);
    if r.Some? {
      var s' := r.value.1;
      LoggingStep(cfg, a, pc, s, s', LoaderEnded(pc.wave, run));
      if !Succeeded(run) {
        assert Acts(Plus(cfg, a, pc, s, s').notes) == LoaderWork(cfg.route(pc.key), pc.key, p, pc.wave, run, false);
        assert Forwarded(run) == ResultOf(run, false);
      }
    }
  }

  lemma PublishSteps(cfg: Config, p: Pid, pc: PC, a: Account, s: Seg)
    requires SoFar(cfg, p, pc, a) && (pc.Publishing? || pc.Testing? || pc.Storing? || pc.Leaving?)
    ensures Goes(cfg, p, pc, a, s, LoadStep(p, pc, s))
  {
    hide Missed, Acts;
    var r := LoadStep(p, pc, s);
    if r.Some? {
      var s', i := r.value.1, cfg.route(pc.key);
      if s'.h.log == s.h.log {
        QuietStep(cfg, a, pc, s, s');
      } else {
        LoggingStep(cfg, a, pc, s, s', s'.h.log[|s.h.log|]);
        var r, forgotten := Returns(pc.load, None), pc.Testing? && s.h.flight.waves[pc.wave].forgotten;
        assert Publication(i, pc.wave, r, forgotten) ==
                 if forgotten then [Act(i, Tested(pc.wave, true))]
                 else if pc.load.Missing? then [Act(i, Tested(pc.wave, false))]
                 else [Act(i, Tested(pc.wave, false)), Act(i, Published(pc.wave, pc.load))];
        assert pc.Storing? || forgotten || pc.load.Missing? ==>
                 Acts(Plus(cfg, a, pc, s, s').notes) == LoaderWork(i, pc.key, p, pc.wave, r, forgotten);
      }
    }
  }

  lemma LastSteps(cfg: Config, p: Pid, pc: PC, a: Account, s: Seg)
    requires SoFar(cfg, p, pc, a) && (pc.Finishing? || pc.Waiting?)
    ensures Goes(cfg, p, pc, a, s, LoadStep(p, pc, s))
  {
    hide Missed, Acts, Worked;
    var r := LoadStep(p, pc, s);
    if r.Some? {
      var s', i := r.value.1, cfg.route(pc.key);
      var e := s'.h.log[|s.h.log|];
      LoggingStep(cfg, a, pc, s, s', e);
      var a' := Plus(cfg, a, pc, s, s');
      var acts := Acts(a'.notes);
      assert acts[..|acts| - 1] == Acts(a.notes) && acts[|acts| - 1] == Act(i, e);
      if pc.Finishing? {
        WorkedOn(i, pc.key, p, pc.wave, Acts(a.notes), Missed(a.notes, pc.key, 1), Missed(a'.notes, pc.key, 1), pc.run);
        assert ClosedBy(i, pc.key, p, pc.wave, acts, Missed(a'.notes, pc.key, 1), pc.run);
        assert pc.run.Exits? ==> Ended(i, pc.key, p, pc.wave, acts, Missed(a'.notes, pc.key, 1));
      } else {
        AwaitsOn(i, pc.key, p, pc.wave, Acts(a.notes), Missed(a.notes, pc.key, 1), Missed(a'.notes, pc.key, 1));
        assert Awaits(i, pc.key, p, pc.wave, acts[..|acts| - 1], Missed(a'.notes, pc.key, 1));
        assert Receives(i, p, pc.wave, acts[|acts| - 1]);
        assert Ended(i, pc.key, p, pc.wave, acts, Missed(a'.notes, pc.key, 1));
      }
    }
  }

  lemma WorkedOn(i: nat, k: Key, p: Pid, w: nat, acts: seq<Act>, missed: bool, missed': bool, run: Run)
    requires Worked(i, k, p, w, acts, missed, run) && (missed ==> missed')
    ensures Worked(i, k, p, w, acts, missed', run)
  {
  }

  lemma AwaitsOn(i: nat, k: Key, p: Pid, w: nat, acts: seq<Act>, missed: bool, missed': bool)
    requires Awaits(i, k, p, w, acts, missed) && (missed ==> missed')
    ensures Awaits(i, k, p, w, acts, missed')
  {
    hide Worked;
    if run: Run :| !run.Exits? && ClosedBy(i, k, p, w, acts, missed, run) {
      WorkedOn(i, k, p, w, acts[..|acts| - 1], missed, missed', run);
      assert ClosedBy(i, k, p, w, acts, missed', run);
    }
  }

  /** A wait or a lookup that is given up leaves nothing behind but what has been done. */
  lemma GivesUp(cfg: Config, p: Pid, pc: PC, a: Account)
    requires SoFar(cfg, p, pc, a) && (pc.Registering? || pc.Waiting?)
    ensures SoFar(cfg, p, Idle, a.(gaveUp := true))
  {
    hide Missed, Acts, Worked, ClosedBy, Awaits;
  }

  // ---------------------------------------------------------------- steps of a mutation

  /** What an action logs, other than a GetOrSet's last. */
  function Logs(a: Action): Event {
    match a
    case Forget(k, cause) => Barrier(k, cause)
    case ForgetEvery(_) => BarrierAll
    case Put(k, load) => Wrote(k, load)
    case PutIfAbsent(k, load) => Wrote(k, load)
    case Remove(k) => Wrote(k, Missing)
    case RemoveEvery(_) => WroteAll
  }

  lemma {:induction false} DeletionsAt(cfg: Config, keys: seq<Key>, n: nat)
    ensures |Deletions(cfg, keys)| == 2 * |keys|
    ensures n < 2 * |keys| ==>
              Deletions(cfg, keys)[n] ==
                Act(cfg.route(keys[n / 2]),
                    if n % 2 == 0 then Barrier(keys[n / 2], ByDelete) else Wrote(keys[n / 2], Missing))
  {
    if keys != [] {
      var m := |keys| - 1;
      DeletionsAt(cfg, keys[..m], n);
      if n == 2 * m || n == 2 * m + 1 {
        assert n / 2 == m && n % 2 == n - 2 * m;
      }
    }
  }

  /** The script of a mutation does what the mutation has to do. */
  lemma ScriptIsDeed(cfg: Config, m: Mutation, n: nat)
    requires !m.GetOrSetKey? && n < |Script(cfg, m)|
    ensures |Deed(cfg, m)| == |Script(cfg, m)|
    ensures Deed(cfg, m)[n] == Act(Where(cfg, Script(cfg, m)[n]), Logs(Script(cfg, m)[n]))
    ensures !Script(cfg, m)[n].PutIfAbsent?
  {
    match m
    case DeleteKeys(keys) =>
      DeletionsAt(cfg, keys, n);
      DeleteForgetsFirst(cfg, keys, n);
    case _ =>
  }

  lemma DeedSize(cfg: Config, m: Mutation)
    requires !m.GetOrSetKey?
    ensures |Deed(cfg, m)| == |Script(cfg, m)|
  {
    match m
    case DeleteKeys(keys) => DeletionsAt(cfg, keys, 0);
    case _ =>
  }

  lemma LockSteps(cfg: Config, p: Pid, pc: PC, a: Account, s: Seg)
    requires SoFar(cfg, p, pc, a) && (pc.Locking? || pc.Peeking? || pc.Unlocking?)
    ensures Goes(cfg, p, pc, a, s, Advance(cfg, p, pc, Proceed, s))
  {
    hide Missed, Acts, Plan, Script, Deed;
    var r := Advance(cfg, p, pc, Proceed, s);
    if r.Some? {
      var s' := r.value.1;
      if s'.h.log == s.h.log {
        QuietStep(cfg, a, pc, s, s');
        if pc.Locking? && !pc.m.GetOrSetKey? {
          DeedSize(cfg, pc.m);
        }
      } else {
        LoggingStep(cfg, a, pc, s, s', s'.h.log[|s.h.log|]);
      }
    }
  }

  lemma ActSteps(cfg: Config, p: Pid, pc: PC, a: Account, s: Seg)
    requires SoFar(cfg, p, pc, a) && pc.Acting? && !pc.m.GetOrSetKey?
    ensures Goes(cfg, p, pc, a, s, Advance(cfg, p, pc, Proceed, s))
  {
    hide Missed, Acts, Plan, Script, Deed;
    var m, n := pc.m, pc.at;
    var r := Advance(cfg, p, pc, Proceed, s);
    if r.Some? {
      ScriptIsDeed(cfg, m, n);
      var e := Logs(Script(cfg, m)[n]);
      assert r.value.1.h.log == s.h.log + [e];
      LoggingStep(cfg, a, pc, s, r.value.1, e);
      assert Deed(cfg, m)[..n] + [Deed(cfg, m)[n]] == Deed(cfg, m)[..n + 1];
      assert Deed(cfg, m)[..|Deed(cfg, m)|] == Deed(cfg, m);
    }
  }

  lemma GetOrSetSteps(cfg: Config, p: Pid, pc: PC, a: Account, s: Seg)
    requires SoFar(cfg, p, pc, a) && pc.Acting? && pc.m.GetOrSetKey? && pc.at < 2
    ensures Goes(cfg, p, pc, a, s, Advance(cfg, p, pc, Proceed, s))
  {
    hide Missed, Acts;
    var r := Advance(cfg, p, pc, Proceed, s);
    var s' := r.value.1;
    LoggingStep(cfg, a, pc, s, s', s'.h.log[|s.h.log|]);
  }

  // ---------------------------------------------------------------- all steps

  lemma AnyStepGoes(cfg: Config, p: Pid, pc: PC, move: Move, a: Account, s: Seg)
    requires SoFar(cfg, p, pc, a) && PcFits(cfg, pc)
    ensures var r := Advance(cfg, p, pc, move, s);
            r.Some? ==> SoFar(cfg, p, r.value.0, Recorded(cfg, a, p, pc, move, s, r.value.1))
  {
    hide SoFar, LoadStep, MutationStep, Target, PcFits;
    match move
    case BeginLoad(k) => Starts(cfg, p, a);
    case BeginMutation(m) => Starts(cfg, p, a);
    case GiveUp =>
      if pc.Registering? || pc.Waiting? {
        GivesUp(cfg, p, pc, a);
      }
    case LoaderReturns(run) =>
      if pc.Running? {
        LoaderEnds(cfg, p, pc, a, s, run);
      }
    case Proceed =>
      match pc {
        case Idle => NoStep(p, pc, s);
        case Running(_, _) => NoStep(p, pc, s);
        case LookingUp(_) => EntrySteps(cfg, p, pc, a, s);
        case Registering(_) => EntrySteps(cfg, p, pc, a, s);
        case Starting(_) => EntrySteps(cfg, p, pc, a, s);
        case Enrolled(_, _, _) => EntrySteps(cfg, p, pc, a, s);
        case Rechecking(_, _) => SourceSteps(cfg, p, pc, a, s);
        case Loading(_, _) => SourceSteps(cfg, p, pc, a, s);
        case Publishing(_, _, _) => PublishSteps(cfg, p, pc, a, s);
        case Testing(_, _, _) => PublishSteps(cfg, p, pc, a, s);
        case Storing(_, _, _) => PublishSteps(cfg, p, pc, a, s);
        case Leaving(_, _, _) => PublishSteps(cfg, p, pc, a, s);
        case Finishing(_, _, _) => LastSteps(cfg, p, pc, a, s);
        case Waiting(_, _) => LastSteps(cfg, p, pc, a, s);
        case Peeking(_, _, _) => LockSteps(cfg, p, pc, a, s);
        case Locking(_, _) => LockSteps(cfg, p, pc, a, s);
        case Unlocking(_, _) => LockSteps(cfg, p, pc, a, s);
        case Acting(m, n) =>
          InScript(cfg, pc);
          if m.GetOrSetKey? {
            GetOrSetSteps(cfg, p, pc, a, s);
          } else {
            ActSteps(cfg, p, pc, a, s);
          }
      }
  }

  lemma NoStep(p: Pid, pc: PC, s: Seg)
    requires pc.Idle? || pc.Running?
    ensures LoadStep(p, pc, s).None?
  {
  }

  lemma InScript(cfg: Config, pc: PC)
    requires PcFits(cfg, pc) && pc.Acting?
    ensures pc.m.GetOrSetKey? ==> pc.at < 2
  {
  }

  lemma Starts(cfg: Config, p: Pid, a: Account)
    ensures forall k :: SoFar(cfg, p, LookingUp(k), Account(Some(Loads(k)), [], false))
    ensures forall m :: SoFar(cfg, p, FirstOf(m), Account(Some(Mutates(m)), [], false))
  {
  }

  /** In every state of every execution the account of each process says how it has come to where it is. */
  lemma {:induction false} AlwaysSoFar(cfg: Config, run: seq<State>, actors: seq<Actor>, p: Pid, n: nat)
    requires Labelled(cfg, run, actors) && n < |run| && p < cfg.processes
    ensures |run[n].pcs| == cfg.processes
    ensures SoFar(cfg, p, run[n].pcs[p], AccountOf(cfg, run, actors, p, n))
  {
    hide SoFar, Inv, Advance, Target, Initial, Step;
    AlwaysOk(cfg, run, n);
    SegmentCount(cfg, run[n]);
    if n == 0 {
      StartsIdle(cfg, run[0], p);
    } else {
      AlwaysSoFar(cfg, run, actors, p, n - 1);
      AlwaysOk(cfg, run, n - 1);
      var s, s' := run[n - 1], run[n - 1 + 1];
      assert Acted(cfg, s, s', actors[n - 1]);
      match actors[n - 1]
      case ByProcess(q, move) =>
        if q == p {
          Fits(cfg, s, p);
          AnyStepGoes(cfg, p, s.pcs[p], move, AccountOf(cfg, run, actors, p, n - 1), s.segs[Target(cfg, s.pcs[p])]);
        }
      case ByUpkeep =>
    }
  }

  lemma StartsIdle(cfg: Config, s: State, p: Pid)
    requires Initial(cfg, s) && p < cfg.processes
    ensures p < |s.pcs| && SoFar(cfg, p, s.pcs[p], Account(None, [], false))
  {
  }

  // ---------------------------------------------------------------- what is logged is true, and stays logged

  lemma LoadTruth(cfg: Config, p: Pid, pc: PC, i: nat, s: Seg)
    requires Ready(cfg, p, pc, i, s)
    ensures var r := LoadStep(p, pc, s); r.Some? ==> Truthful(p, Note(i, s, r.value.1))
  {
    hide EnteredBy, Concluded, Succeeding, Sound, Handle;
    Matches(s.h);
    WhichWave(s.h.flight);
  }

  lemma WhichWave(f: Flight)
    ensures forall k :: Handle(f, k) == if k in f.live then f.live[k] else |f.waves|
  {
  }

  lemma LoaderTruth(cfg: Config, p: Pid, pc: PC, i: nat, s: Seg, run: Run)
    requires Ready(cfg, p, pc, i, s) && pc.Running?
    ensures var r := Advance(cfg, p, pc, LoaderReturns(run), s); r.Some? ==> Truthful(p, Note(i, s, r.value.1))
  {
    hide EnteredBy, Concluded, Succeeding, Sound;
  }

  lemma MutationTruth(cfg: Config, p: Pid, pc: PC, i: nat, s: Seg)
    requires Ready(cfg, p, pc, i, s) && (pc.Locking? || pc.Acting? || pc.Unlocking?)
    ensures var r := MutationStep(cfg, p, pc, s); r.Some? ==> Truthful(p, Note(i, s, r.value.1))
  {
    hide EnteredBy, Concluded, Succeeding, Sound, Plan, Script, SegmentSet;
    if pc.Acting? {
      ScriptCovered(cfg, pc.m, pc.at);
    }
  }

  lemma StepTruth(cfg: Config, p: Pid, pc: PC, move: Move, i: nat, s: Seg)
    requires Ready(cfg, p, pc, i, s) && !move.BeginLoad? && !move.BeginMutation? && !move.GiveUp?
    ensures var r := Advance(cfg, p, pc, move, s); r.Some? ==> Truthful(p, Note(i, s, r.value.1))
  {
    hide Truthful, LoadStep, MutationStep, Ready;
    match move
    case LoaderReturns(run) =>
      if pc.Running? {
        LoaderTruth(cfg, p, pc, i, s, run);
      }
    case Proceed =>
      if pc.Locking? || pc.Acting? || pc.Unlocking? {
        MutationTruth(cfg, p, pc, i, s);
      } else {
        LoadTruth(cfg, p, pc, i, s);
      }
  }

  /** Each act is in the log of its segment, and later acts are later there. */
  ghost predicate Logged(acts: seq<Act>, s: State, at: seq<nat>) {
    && |at| == |acts|
    && (forall j :: 0 <= j < |acts| ==>
          && acts[j].segment < |s.segs| && at[j] < |s.segs[acts[j].segment].h.log|
          && s.segs[acts[j].segment].h.log[at[j]] == acts[j].event)
    && (forall j, l :: 0 <= j < l < |acts| && acts[j].segment == acts[l].segment ==> at[j] < at[l])
  }

  ghost predicate AllTrue(p: Pid, notes: seq<Note>) {
    forall q :: 0 <= q < |notes| ==> Truthful(p, notes[q])
  }

  lemma StaysLogged(acts: seq<Act>, s: State, s': State, at: seq<nat>)
    requires Logged(acts, s, at) && |s.segs| <= |s'.segs|
    requires forall i :: 0 <= i < |s.segs| ==> s.segs[i].h.log <= s'.segs[i].h.log
    ensures Logged(acts, s', at)
  {
  }

  /** One more step of the process itself. */
  lemma LogsMore(a: Account, s: State, s': State, i: nat, p: Pid, at: seq<nat>) returns (at': seq<nat>)
    requires Logged(Acts(a.notes), s, at) && |s.segs| <= |s'.segs| && i < |s.segs|
    requires forall j :: 0 <= j < |s.segs| ==> s.segs[j].h.log <= s'.segs[j].h.log
    requires OneAtATime(Note(i, s.segs[i], s'.segs[i]))
    ensures Logged(Acts(a.notes + [Note(i, s.segs[i], s'.segs[i])]), s', at')
  {
    hide Acts, ActsOf;
    var n := Note(i, s.segs[i], s'.segs[i]);
    OneMoreNote(a.notes, n);
    if n.after.h.log == n.before.h.log {
      Quiet(n);
      at' := at;
    } else {
      var e := n.after.h.log[|n.before.h.log|];
      assert n.after.h.log == n.before.h.log + [e];
      Speaks(n, e);
      at' := at + [|n.before.h.log|];
    }
  }

  /**
   * What a process does in an operation is true when it is done, each barrier and write under the write lock, each
   * registration, test and publication under a read lock; and the log keeps it all, in order.
   */
  lemma {:induction false} AlwaysTrue(cfg: Config, run: seq<State>, actors: seq<Actor>, p: Pid, n: nat)
    returns (at: seq<nat>)
    requires Labelled(cfg, run, actors) && n < |run| && p < cfg.processes
    ensures var a := AccountOf(cfg, run, actors, p, n);
            AllTrue(p, a.notes) && Logged(Acts(a.notes), run[n], at)
  {
    hide Inv, Advance, Target, Initial, Step, Truthful, Acts, Logged, Extends;
    if n == 0 {
      at := [];
      NothingLogged(run[0]);
    } else {
      at := AlwaysTrue(cfg, run, actors, p, n - 1);
      AlwaysOk(cfg, run, n - 1);
      AlwaysOk(cfg, run, n);
      SegmentCount(cfg, run[n - 1]);
      SegmentCount(cfg, run[n]);
      var s, s' := run[n - 1], run[n - 1 + 1];
      var a := AccountOf(cfg, run, actors, p, n - 1);
      assert Step(cfg, s, s');
      LogsGrow(cfg, s, s');
      assert Acted(cfg, s, s', actors[n - 1]);
      match actors[n - 1]
      case ByProcess(q, move) =>
        if q == p {
          var i := Target(cfg, s.pcs[p]);
          StepReady(cfg, s, p);
          if move.BeginLoad? || move.BeginMutation? {
            at := [];
            NothingLogged(s');
          } else if move.GiveUp? {
            StaysLogged(Acts(a.notes), s, s', at);
          } else {
            StepTruth(cfg, p, s.pcs[p], move, i, s.segs[i]);
            TrueOfOne(p, Note(i, s.segs[i], s'.segs[i]));
            at := LogsMore(a, s, s', i, p, at);
          }
        } else {
          StaysLogged(Acts(a.notes), s, s', at);
        }
      case ByUpkeep => StaysLogged(Acts(a.notes), s, s', at);
    }
  }

  lemma TrueOfOne(p: Pid, n: Note)
    requires Truthful(p, n)
    ensures OneAtATime(n)
  {
  }

  lemma NothingLogged(s: State)
    ensures Logged(Acts([]), s, [])
  {
  }

  lemma LogsGrow(cfg: Config, s: State, s': State)
    requires Inv(cfg, s) && Step(cfg, s, s')
    ensures |s'.segs| == |s.segs|
    ensures forall i :: 0 <= i < |s.segs| ==> s.segs[i].h.log <= s'.segs[i].h.log
  {
    hide Inv, Step;
    SegmentCount(cfg, s);
    Positive(cfg, s);
    StepExtends(cfg, s, s', 0);
    forall i | 0 <= i < |s.segs| ensures s.segs[i].h.log <= s'.segs[i].h.log {
      StepExtends(cfg, s, s', i);
    }
  }

  lemma Positive(cfg: Config, s: State)
    requires Inv(cfg, s)
    ensures cfg.segments > 0
  {
  }

  // ---------------------------------------------------------------- where an operation works

  /** The operation has something to do in segment `i`. */
  ghost predicate Concerns(cfg: Config, op: Operation, i: nat) {
    match op
    case Loads(k) => i == cfg.route(k)
    case Mutates(SetKey(k, _, _)) => i == cfg.route(k)
    case Mutates(GetOrSetKey(k, _, _)) => i == cfg.route(k)
    case Mutates(TakeKey(k)) => i == cfg.route(k)
    case Mutates(DeleteKeys(keys)) => exists j :: 0 <= j < |keys| && cfg.route(keys[j]) == i
    case Mutates(ClearAll) => i < cfg.segments
  }

  ghost predicate Local(cfg: Config, a: Account) {
    forall q :: 0 <= q < |a.notes| ==> a.op.Some? && Concerns(cfg, a.op.value, a.notes[q].segment)
  }

  lemma PlanConcerns(cfg: Config, m: Mutation, i: nat)
    requires i in SegmentSet(Plan(cfg, m))
    ensures Concerns(cfg, Mutates(m), i)
  {
    match m
    case DeleteKeys(keys) => LocksCover(keys, cfg.route);
    case _ =>
  }

  lemma StepConcerns(cfg: Config, p: Pid, pc: PC, a: Account)
    requires SoFar(cfg, p, pc, a) && PcFits(cfg, pc) && !pc.Idle?
    ensures a.op.Some? && Concerns(cfg, a.op.value, Target(cfg, pc))
  {
    hide Plan, Script, Acts, Missed, Worked, Awaits, MutationDone, Deed;
    match pc
    case Locking(m, n) => PlanConcerns(cfg, m, Plan(cfg, m)[n]);
    case Acting(m, n) =>
      ScriptCovered(cfg, m, n);
      PlanConcerns(cfg, m, Where(cfg, Script(cfg, m)[n]));
    case Unlocking(m, n) => PlanConcerns(cfg, m, Plan(cfg, m)[n - 1]);
    case _ =>
  }

  /** No operation locks or touches any segment but those of its own keys. */
  lemma {:induction false} AlwaysLocal(cfg: Config, run: seq<State>, actors: seq<Actor>, p: Pid, n: nat)
    requires Labelled(cfg, run, actors) && n < |run| && p < cfg.processes
    ensures Local(cfg, AccountOf(cfg, run, actors, p, n))
  {
    hide Inv, Advance, Target, Initial, Step, SoFar, Concerns, PcFits;
    if n > 0 {
      AlwaysLocal(cfg, run, actors, p, n - 1);
      AlwaysSoFar(cfg, run, actors, p, n - 1);
      AlwaysOk(cfg, run, n - 1);
      var s, a := run[n - 1], AccountOf(cfg, run, actors, p, n - 1);
      assert Acted(cfg, s, run[n - 1 + 1], actors[n - 1]);
      match actors[n - 1]
      case ByProcess(q, move) =>
        if q == p {
          Fits(cfg, s, p);
          if !s.pcs[p].Idle? {
            StepConcerns(cfg, p, s.pcs[p], a);
          } else {
            OnlyBegins(cfg, p, move, s.segs[Target(cfg, s.pcs[p])]);
          }
        }
      case ByUpkeep =>
    }
  }

  lemma OnlyBegins(cfg: Config, p: Pid, move: Move, s: Seg)
    requires Advance(cfg, p, Idle, move, s).Some?
    ensures move.BeginLoad? || move.BeginMutation?
  {
  }

  // ---------------------------------------------------------------- the promises

  /** An operation that is over has done exactly what it has to do, in order, and nothing else. */
  lemma WhatIsOverIsDone(cfg: Config, run: seq<State>, actors: seq<Actor>, p: Pid, n: nat)
    requires Labelled(cfg, run, actors) && n < |run| && p < |run[n].pcs| && run[n].pcs[p].Idle?
    ensures Done(cfg, p, AccountOf(cfg, run, actors, p, n))
  {
    hide Inv, Done;
    AlwaysOk(cfg, run, n);
    SegmentCount(cfg, run[n]);
    AlwaysSoFar(cfg, run, actors, p, n);
  }

  predicate Enters(e: Event, w: nat, k: Key, p: Pid) {
    e == BeganWave(w, k, p) || e == JoinedWave(w, k, p)
  }

  predicate Leaves(e: Event, w: nat, p: Pid) {
    (e.Received? && e.wave == w && e.pid == p) || e == ClosedWave(w, Exits)
  }

  /**
   * A process that has entered a wave and has not given up receives the outcome of that very wave before its load is
   * over, unless its own loader has made it exit.
   */
  lemma EntrantsReceive(cfg: Config, run: seq<State>, actors: seq<Actor>, p: Pid, n: nat, k: Key, w: nat, j: nat)
    returns (e: nat, r: nat)
    requires Labelled(cfg, run, actors) && n < |run| && p < |run[n].pcs| && run[n].pcs[p].Idle?
    requires var a := AccountOf(cfg, run, actors, p, n);
             && a.op == Some(Loads(k)) && !a.gaveUp
             && j < |Acts(a.notes)| && Enters(Acts(a.notes)[j].event, w, k, p)
    ensures cfg.route(k) < |run[n].segs| && e < r < |run[n].segs[cfg.route(k)].h.log|
    ensures var log := run[n].segs[cfg.route(k)].h.log; Enters(log[e], w, k, p) && Leaves(log[r], w, p)
  {
    hide Inv, Acts, Logged, AccountOf, Labelled, Done, Enters, Leaves, AllTrue;
    Runs(cfg, run, actors, n);
    WhatIsOverIsDone(cfg, run, actors, p, n);
    var a := AccountOf(cfg, run, actors, p, n);
    var at := AlwaysTrue(cfg, run, actors, p, n);
    LeavesAtLast(cfg, k, p, w, a, j);
    e, r := Places(Acts(a.notes), run[n], at, j, |Acts(a.notes)| - 1);
  }

  lemma Runs(cfg: Config, run: seq<State>, actors: seq<Actor>, n: nat)
    requires Labelled(cfg, run, actors) && n < |run|
    ensures |run[n].pcs| == cfg.processes
  {
    hide Inv;
    AlwaysOk(cfg, run, n);
    SegmentCount(cfg, run[n]);
  }

  /** Where two acts in the same segment are in its log. */
  lemma Places(acts: seq<Act>, s: State, at: seq<nat>, j: nat, l: nat) returns (a: nat, b: nat)
    requires Logged(acts, s, at) && j < l < |acts| && acts[j].segment == acts[l].segment
    ensures acts[j].segment < |s.segs| && a < b < |s.segs[acts[j].segment].h.log|
    ensures var log := s.segs[acts[j].segment].h.log; log[a] == acts[j].event && log[b] == acts[l].event
  {
    a, b := at[j], at[l];
  }

  /** The first act enters wave `w`, and no other act enters any. */
  ghost predicate EntersFirst(acts: seq<Act>, i: nat, k: Key, p: Pid, w: nat) {
    && acts != [] && acts[0].segment == i && Enters(acts[0].event, w, k, p)
    && forall j :: 0 < j < |acts| ==> !acts[j].event.BeganWave? && !acts[j].event.JoinedWave?
  }

  lemma WorkEnters(i: nat, k: Key, p: Pid, w: nat, acts: seq<Act>, missed: bool, run: Run)
    requires Worked(i, k, p, w, acts, missed, run)
    ensures EntersFirst(acts, i, k, p, w)
  {
  }

  lemma CloseEnters(i: nat, k: Key, p: Pid, w: nat, acts: seq<Act>, missed: bool, run: Run)
    requires ClosedBy(i, k, p, w, acts, missed, run)
    ensures EntersFirst(acts, i, k, p, w) && |acts| > 1
  {
    hide Worked;
    WorkEnters(i, k, p, w, acts[..|acts| - 1], missed, run);
    assert forall j :: 0 <= j < |acts| - 1 ==> acts[..|acts| - 1][j] == acts[j];
  }

  lemma WaitEnters(i: nat, k: Key, p: Pid, w: nat, acts: seq<Act>, missed: bool)
    requires Awaits(i, k, p, w, acts, missed)
    ensures EntersFirst(acts, i, k, p, w)
  {
    hide ClosedBy;
    if run: Run :| !run.Exits? && ClosedBy(i, k, p, w, acts, missed, run) {
      CloseEnters(i, k, p, w, acts, missed, run);
    }
  }

  lemma EndEnters(i: nat, k: Key, p: Pid, w: nat, acts: seq<Act>, missed: bool)
    requires Ended(i, k, p, w, acts, missed)
    ensures EntersFirst(acts, i, k, p, w) && |acts| > 1
    ensures Leaves(acts[|acts| - 1].event, w, p) && acts[|acts| - 1].segment == i
  {
    hide Awaits, Worked;
    if ClosedBy(i, k, p, w, acts, missed, Exits) {
      CloseEnters(i, k, p, w, acts, missed, Exits);
    } else {
      WaitEnters(i, k, p, w, acts[..|acts| - 1], missed);
      assert forall j :: 0 <= j < |acts| - 1 ==> acts[..|acts| - 1][j] == acts[j];
    }
  }

  lemma LeavesAtLast(cfg: Config, k: Key, p: Pid, w: nat, a: Account, j: nat)
    requires Done(cfg, p, a) && a.op == Some(Loads(k)) && !a.gaveUp
    requires j < |Acts(a.notes)| && Enters(Acts(a.notes)[j].event, w, k, p)
    ensures var acts := Acts(a.notes);
            && j < |acts| - 1 && Leaves(acts[|acts| - 1].event, w, p)
            && acts[j].segment == acts[|acts| - 1].segment == cfg.route(k)
  {
    hide Acts, Missed, Ended;
    var i := cfg.route(k);
    var acts, m1 := Acts(a.notes), Missed(a.notes, k, 1);
    if w': nat :| Ended(i, k, p, w', acts, m1) {
      EndEnters(i, k, p, w', acts, m1);
    }
  }

  /**
   * A loader is run only after the key has been missed twice: by the lookup, before the process entered the wave,
   * and again by the owner's recheck, between the registration of the wave and the loader.
   */
  lemma LoaderOnlyAfterMisses(cfg: Config, run: seq<State>, actors: seq<Actor>, p: Pid, n: nat, k: Key, j: nat)
    requires Labelled(cfg, run, actors) && n < |run| && p < |run[n].pcs|
    requires var a := AccountOf(cfg, run, actors, p, n);
             a.op == Some(Loads(k)) && j < |Acts(a.notes)| && Acts(a.notes)[j].event.LoaderBegan?
    ensures var a := AccountOf(cfg, run, actors, p, n);
            && Missed(a.notes, k, 0) && Missed(a.notes, k, 1)
            && j == 1 && Acts(a.notes)[0].event == BeganWave(Acts(a.notes)[1].event.wave, k, p)
  {
    hide Inv;
    AlwaysOk(cfg, run, n);
    SegmentCount(cfg, run[n]);
    AlwaysSoFar(cfg, run, actors, p, n);
    BegunAfterMisses(cfg, p, run[n].pcs[p], AccountOf(cfg, run, actors, p, n), k, j);
    EnteredAfterMiss(cfg, p, run[n].pcs[p], AccountOf(cfg, run, actors, p, n), k);
  }

  /** If a loader has begun, it is the second act, after the wave of the process; and the key has been missed. */
  ghost predicate SecondAct(acts: seq<Act>, k: Key, p: Pid, missed: bool) {
    forall j :: 0 <= j < |acts| && acts[j].event.LoaderBegan? ==>
      missed && j == 1 && acts[0].event == BeganWave(acts[1].event.wave, k, p)
  }

  lemma WorkBegins(i: nat, k: Key, p: Pid, w: nat, acts: seq<Act>, missed: bool, run: Run)
    requires Worked(i, k, p, w, acts, missed, run)
    ensures SecondAct(acts, k, p, missed)
  {
  }

  lemma CloseBegins(i: nat, k: Key, p: Pid, w: nat, acts: seq<Act>, missed: bool, run: Run)
    requires ClosedBy(i, k, p, w, acts, missed, run)
    ensures SecondAct(acts, k, p, missed)
  {
    hide Worked;
    WorkBegins(i, k, p, w, acts[..|acts| - 1], missed, run);
    forall j | 0 <= j < |acts| && acts[j].event.LoaderBegan?
      ensures missed && j == 1 && acts[0].event == BeganWave(acts[1].event.wave, k, p)
    {
      assert acts[..|acts| - 1][j] == acts[j];
    }
  }

  lemma WaitBegins(i: nat, k: Key, p: Pid, w: nat, acts: seq<Act>, missed: bool)
    requires Awaits(i, k, p, w, acts, missed)
    ensures SecondAct(acts, k, p, missed)
  {
    hide ClosedBy;
    if run: Run :| !run.Exits? && ClosedBy(i, k, p, w, acts, missed, run) {
      CloseBegins(i, k, p, w, acts, missed, run);
    }
  }

  lemma DoneBegins(i: nat, k: Key, p: Pid, a: Account)
    requires LoadDone(i, k, p, a)
    ensures SecondAct(Acts(a.notes), k, p, Missed(a.notes, k, 1))
  {
    hide Acts, Missed, Awaits, ClosedBy;
    var acts, m1 := Acts(a.notes), Missed(a.notes, k, 1);
    if w: nat :| Awaits(i, k, p, w, acts, m1) {
      WaitBegins(i, k, p, w, acts, m1);
    } else if w: nat :| Ended(i, k, p, w, acts, m1) {
      if ClosedBy(i, k, p, w, acts, m1, Exits) {
        CloseBegins(i, k, p, w, acts, m1, Exits);
      } else {
        WaitBegins(i, k, p, w, acts[..|acts| - 1], m1);
        assert forall j :: 0 <= j < |acts| - 1 ==> acts[..|acts| - 1][j] == acts[j];
      }
    }
  }

  lemma EnteredAfterMiss(cfg: Config, p: Pid, pc: PC, a: Account, k: Key)
    requires SoFar(cfg, p, pc, a) && a.op == Some(Loads(k)) && |Acts(a.notes)| > 1
    ensures Missed(a.notes, k, 0)
  {
    hide Acts, Missed, Worked, Awaits, ClosedBy;
  }

  lemma BegunAfterMisses(cfg: Config, p: Pid, pc: PC, a: Account, k: Key, j: nat)
    requires SoFar(cfg, p, pc, a) && a.op == Some(Loads(k))
    requires j < |Acts(a.notes)| && Acts(a.notes)[j].event.LoaderBegan?
    ensures Missed(a.notes, k, 1)
    ensures j == 1 && Acts(a.notes)[0].event == BeganWave(Acts(a.notes)[1].event.wave, k, p)
  {
    hide Acts, Missed, Worked, Awaits, LoadDone;
    var i, acts, m1 := cfg.route(k), Acts(a.notes), Missed(a.notes, k, 1);
    match pc
    case Idle => DoneBegins(i, k, p, a);
    case Waiting(_, w) => WaitBegins(i, k, p, w, acts, m1);
    case Leaving(_, w, run) => WorkBegins(i, k, p, w, acts, m1, run);
    case Finishing(_, w, run) => WorkBegins(i, k, p, w, acts, m1, run);
    case _ =>
  }

  /** An entry that is resident whenever the load looks is what the load returns, without any loader. */
  lemma ResidentIsReturned(cfg: Config, run: seq<State>, actors: seq<Actor>, p: Pid, n: nat, k: Key)
    requires Labelled(cfg, run, actors) && n < |run| && p < |run[n].pcs| && run[n].pcs[p].Idle?
    requires var a := AccountOf(cfg, run, actors, p, n);
             && a.op == Some(Loads(k)) && !a.gaveUp
             && forall q :: 0 <= q < |a.notes| ==> k in a.notes[q].before.h.store
    ensures var acts := Acts(AccountOf(cfg, run, actors, p, n).notes);
            |acts| == 1 && acts[0].event.ReadCached? && acts[0].event.key == k
  {
    hide Inv, Acts, Execution;
    WhatIsOverIsDone(cfg, run, actors, p, n);
    var a := AccountOf(cfg, run, actors, p, n);
    assert forall m :: !Missed(a.notes, k, m);
  }

  /** A Set that is over has forgotten the call of its key and then stored exactly its own value. */
  lemma SetStores(cfg: Config, run: seq<State>, actors: seq<Actor>, p: Pid, n: nat, k: Key, v: Value, d: Nanos)
    returns (b: nat, w: nat)
    requires Labelled(cfg, run, actors) && n < |run| && p < |run[n].pcs| && run[n].pcs[p].Idle?
    requires AccountOf(cfg, run, actors, p, n).op == Some(Mutates(SetKey(k, v, d)))
    ensures cfg.route(k) < |run[n].segs| && b < w < |run[n].segs[cfg.route(k)].h.log|
    ensures var log := run[n].segs[cfg.route(k)].h.log; log[b] == Barrier(k, BySet) && log[w] == Wrote(k, Present(v, d))
  {
    hide Inv, Execution, Acts, Logged;
    WhatIsOverIsDone(cfg, run, actors, p, n);
    AlwaysOk(cfg, run, n);
    SegmentCount(cfg, run[n]);
    var at := AlwaysTrue(cfg, run, actors, p, n);
    b, w := Places(Acts(AccountOf(cfg, run, actors, p, n).notes), run[n], at, 0, 1);
  }
}
