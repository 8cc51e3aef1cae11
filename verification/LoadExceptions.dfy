/** Two executions in which ErrLoadSuperseded does not mean what its documentation says. */
module LoadExceptions {
  import opened Types
  import opened Waves
  import opened Histories
  import opened LoadProtocol
  import opened LoadTheorems

  /** One segment, which every key is routed to. */
  ghost function OneSegment(processes: nat): (cfg: Config)
    ensures Proper(cfg) && cfg.segments == 1 && cfg.processes == processes && forall k :: cfg.route(k) == 0
  {
    Config(1, processes, k => 0)
  }

  /** What leaves a store from `s` to `s'` has a deadline, and so may have expired. */
  ghost predicate MayHaveExpired(s: State, s': State) {
    && |s'.segs| == |s.segs|
    && forall i, k :: 0 <= i < |s.segs| && k in s.segs[i].h.store && k !in s'.segs[i].h.store ==>
         s.segs[i].h.store[k].load.Present? && s.segs[i].h.store[k].load.deadline > 0
  }

  /** Without evictions no insertion is needed to explain a run. */
  ghost predicate OnlyExpires(run: seq<State>) {
    forall n :: 0 <= n < |run| - 1 ==> MayHaveExpired(run[n], run[n + 1])
  }

  /** `run` has come to this point. */
  ghost predicate At(cfg: Config, run: seq<State>, pcs: seq<PC>, seg: Seg) {
    Execution(cfg, run) && OnlyExpires(run) && run[|run| - 1] == State([seg], pcs)
  }

  lemma OneMore(cfg: Config, run: seq<State>, pcs: seq<PC>, seg: Seg, pcs': seq<PC>, seg': Seg)
    requires At(cfg, run, pcs, seg)
    requires Step(cfg, State([seg], pcs), State([seg'], pcs')) && MayHaveExpired(State([seg], pcs), State([seg'], pcs'))
    ensures At(cfg, run + [State([seg'], pcs')], pcs', seg')
  {
    hide Initial, Step, MayHaveExpired;
    var run' := run + [State([seg'], pcs')];
    forall n | 0 <= n < |run'| - 1 ensures Step(cfg, run'[n], run'[n + 1]) && MayHaveExpired(run'[n], run'[n + 1]) {
      assert n < |run| - 1 ==> Step(cfg, run[n], run[n + 1]) && MayHaveExpired(run[n], run[n + 1]);
    }
  }

  lemma Begin(processes: nat) returns (run: seq<State>)
    ensures At(OneSegment(processes), run, seq(processes, _ => Idle), Seg(None, {}, EMPTY))
  {
    run := [State(seq(1, _ => Seg(None, {}, EMPTY)), seq(processes, _ => Idle))];
    assert seq(1, _ => Seg(None, {}, EMPTY)) == [Seg(None, {}, EMPTY)];
  }

  lemma Go(cfg: Config, run: seq<State>, pcs: seq<PC>, seg: Seg, p: nat, move: Move, pc': PC, seg': Seg)
    returns (run': seq<State>)
    requires At(cfg, run, pcs, seg) && p < |pcs| && Target(cfg, pcs[p]) == 0
    requires Advance(cfg, p, pcs[p], move, seg) == Some((pc', seg'))
    requires seg.h.store.Keys <= seg'.h.store.Keys
    ensures At(cfg, run', pcs[p := pc'], seg') && run <= run' && |run'| == |run| + 1
  {
    hide Advance, Target, At;
    var s, s' := State([seg], pcs), State([seg'], pcs[p := pc']);
    assert [seg][0 := seg'] == [seg'];
    assert ProcessStep(cfg, s, s', p, move);
    OneMore(cfg, run, pcs, seg, pcs[p := pc'], seg');
    run' := run + [s'];
  }

  lemma Expire(cfg: Config, run: seq<State>, pcs: seq<PC>, seg: Seg, k: Key) returns (run': seq<State>)
    requires At(cfg, run, pcs, seg) && k in seg.h.store
    requires seg.h.store[k].load.Present? && seg.h.store[k].load.deadline > 0
    ensures At(cfg, run', pcs, seg.(h := Evicted(seg.h, k))) && run <= run'
  {
    hide At;
    var s, seg' := State([seg], pcs), seg.(h := Evicted(seg.h, k));
    var s' := State([seg'], pcs);
    assert [seg][0 := seg'] == [seg'];
    assert Upkeep(s, s', 0, k, 0);
    OneMore(cfg, run, pcs, seg, pcs, seg');
    run' := run + [s'];
  }

  /** An unlocked segment. */
  ghost function Free(h: History): Seg {
    Seg(None, {}, h)
  }

  lemma Miss(cfg: Config, run: seq<State>, pcs: seq<PC>, h: History, p: nat, k: Key) returns (run': seq<State>)
    requires At(cfg, run, pcs, Free(h)) && p < |pcs| && pcs[p].Idle? && k !in h.store && cfg.route(k) == 0
    ensures At(cfg, run', pcs[p := Registering(k)], Free(h)) && run <= run'
  {
    hide At;
    run' := Go(cfg, run, pcs, Free(h), p, BeginLoad(k), LookingUp(k), Free(h));
    var pcs' := pcs[p := LookingUp(k)];
    run' := Go(cfg, run', pcs', Free(h), p, Proceed, Registering(k), Free(h));
    assert pcs'[p := Registering(k)] == pcs[p := Registering(k)];
  }

  /** Neither the registration of a wave nor its completion changes the store. */
  lemma SameStore(h: History, k: Key, p: nat, w: nat, r: Run)
    ensures Entered(h, k, p).store == h.store
    ensures w < |h.lives| && w < |h.flight.waves| ==> Closed(h, w, r).store == h.store
  {
  }

  /** Registers a wave of its own and comes to the recheck. */
  lemma Enroll(cfg: Config, run: seq<State>, pcs: seq<PC>, h: History, p: nat, k: Key) returns (run': seq<State>)
    requires At(cfg, run, pcs, Free(h)) && p < |pcs| && pcs[p] == Registering(k) && k !in h.flight.live &&
              cfg.route(k) == 0
    ensures At(cfg, run', pcs[p := Rechecking(k, |h.flight.waves|)], Free(Entered(h, k, p))) && run <= run'
  {
    hide At, Entered;
    var w, held, after := |h.flight.waves|, Seg(None, {p}, h), Seg(None, {p}, Entered(h, k, p));
    assert {} + {p} == {p} && {p} - {p} == {};
    SameStore(h, k, p, w, Exits);
    run' := Go(cfg, run, pcs, Free(h), p, Proceed, Starting(k), held);
    var pcs1 := pcs[p := Starting(k)];
    run' := Go(cfg, run', pcs1, held, p, Proceed, Enrolled(k, w, true), after);
    var pcs2 := pcs1[p := Enrolled(k, w, true)];
    run' := Go(cfg, run', pcs2, after, p, Proceed, Rechecking(k, w), Free(Entered(h, k, p)));
    assert pcs2[p := Rechecking(k, w)] == pcs[p := Rechecking(k, w)];
  }

  /** Finds nothing at the recheck, and has its loader end with `r`. */
  lemma RunLoader(cfg: Config, run: seq<State>, pcs: seq<PC>, h: History, p: nat, k: Key, w: nat, r: Run)
    returns (run': seq<State>)
    requires At(cfg, run, pcs, Free(h)) && p < |pcs| && pcs[p] == Rechecking(k, w) && k !in h.store && cfg.route(k) == 0
    requires w < |h.lives| && w < |h.flight.waves|
    ensures At(cfg, run', pcs[p := if Succeeded(r) then Publishing(k, w, r.val) else Finishing(k, w, Forwarded(r))],
               Free(EndedLoader(BeganLoader(h, w), w, r))) && run <= run'
  {
    hide At;
    var h1, h2 := BeganLoader(h, w), EndedLoader(BeganLoader(h, w), w, r);
    run' := Go(cfg, run, pcs, Free(h), p, Proceed, Loading(k, w), Free(h));
    var pcs1 := pcs[p := Loading(k, w)];
    run' := Go(cfg, run', pcs1, Free(h), p, Proceed, Running(k, w), Free(h1));
    var pcs2 := pcs1[p := Running(k, w)];
    var next := if Succeeded(r) then Publishing(k, w, r.val) else Finishing(k, w, Forwarded(r));
    run' := Go(cfg, run', pcs2, Free(h1), p, LoaderReturns(r), next, Free(h2));
    assert pcs2[p := next] == pcs[p := next];
  }

  lemma Complete(cfg: Config, run: seq<State>, pcs: seq<PC>, h: History, p: nat, k: Key, w: nat, r: Run)
    returns (run': seq<State>)
    requires At(cfg, run, pcs, Free(h)) && p < |pcs| && pcs[p] == Finishing(k, w, r) && !r.Exits? && cfg.route(k) == 0
    requires w < |h.lives| && w < |h.flight.waves|
    ensures At(cfg, run', pcs[p := Waiting(k, w)], Free(Closed(h, w, r))) && run <= run'
  {
    hide At, Closed;
    SameStore(h, k, p, w, r);
    run' := Go(cfg, run, pcs, Free(h), p, Proceed, Waiting(k, w), Free(Closed(h, w, r)));
  }

  /**
   * Without any barrier a wave is closed with ErrLoadSuperseded: its loader returned that error,
   * which it may have from another cache.
   */
  lemma SupersededByItsLoader(k: Key) returns (cfg: Config, run: seq<State>, h: History)
    ensures run != [] && Reached(cfg, run, |run| - 1, 0, h)
    ensures |h.log| == 4 && Began(h.log, 0, 0, k) && IsClose(h.log[3], 0)
    ensures h.log[3].run == Returns(Missing, Some(LoadSuperseded))
    ensures forall b :: 0 <= b < |h.log| ==> !Affects(h.log[b], k)
  {
    hide At;
    cfg := OneSegment(1);
    var pcs, r := seq(1, _ => Idle), Returns(Missing, Some(LoadSuperseded));
    run := Begin(1);
    run := Miss(cfg, run, pcs, EMPTY, 0, k);
    var pcs1 := pcs[0 := Registering(k)];
    run := Enroll(cfg, run, pcs1, EMPTY, 0, k);
    var pcs2, h1 := pcs1[0 := Rechecking(k, 0)], Entered(EMPTY, k, 0);
    run := RunLoader(cfg, run, pcs2, h1, 0, k, 0, r);
    var pcs3, h2 := pcs2[0 := Finishing(k, 0, r)], EndedLoader(BeganLoader(h1, 0), 0, r);
    run := Complete(cfg, run, pcs3, h2, 0, k, 0, r);
    h := Closed(h2, 0, r);
    AtIsReached(cfg, run, pcs3[0 := Waiting(k, 0)], h);
    assert h.log == [BeganWave(0, k, 0), LoaderBegan(0), LoaderEnded(0, r), ClosedWave(0, r)];
  }

  lemma AtIsReached(cfg: Config, run: seq<State>, pcs: seq<PC>, h: History)
    requires At(cfg, run, pcs, Free(h))
    ensures run != [] && Reached(cfg, run, |run| - 1, 0, h) && OnlyExpires(run)
  {
  }

  /** Publishes the result of a wave that nothing has overtaken. */
  lemma Publish(cfg: Config, run: seq<State>, pcs: seq<PC>, h: History, p: nat, k: Key, w: nat, load: Load)
    returns (run': seq<State>)
    requires At(cfg, run, pcs, Free(h)) && p < |pcs| && pcs[p] == Publishing(k, w, load) && load.Present? &&
              cfg.route(k) == 0
    requires w < |h.lives| && w < |h.flight.waves| && !h.flight.waves[w].forgotten
    ensures At(cfg, run', pcs[p := Finishing(k, w, Returns(load, None))],
              Free(PublishedWave(TestedWave(h, w), w, k, load))) && run <= run'
  {
    hide At;
    var h1, h2 := TestedWave(h, w), PublishedWave(TestedWave(h, w), w, k, load);
    assert {} + {p} == {p} && {p} - {p} == {};
    run' := Go(cfg, run, pcs, Free(h), p, Proceed, Testing(k, w, load), Seg(None, {p}, h));
    var pcs1 := pcs[p := Testing(k, w, load)];
    run' := Go(cfg, run', pcs1, Seg(None, {p}, h), p, Proceed, Storing(k, w, load), Seg(None, {p}, h1));
    var pcs2 := pcs1[p := Storing(k, w, load)];
    run' := Go(cfg, run', pcs2, Seg(None, {p}, h1), p, Proceed, Leaving(k, w, Returns(load, None)), Seg(None, {p}, h2));
    var pcs3 := pcs2[p := Leaving(k, w, Returns(load, None))];
    run' := Go(cfg, run', pcs3, Seg(None, {p}, h2), p, Proceed, Finishing(k, w, Returns(load, None)), Free(h2));
    assert pcs3[p := Finishing(k, w, Returns(load, None))] == pcs[p := Finishing(k, w, Returns(load, None))];
  }

  /** Drops the result of a wave that has been forgotten. */
  lemma Drop(cfg: Config, run: seq<State>, pcs: seq<PC>, h: History, p: nat, k: Key, w: nat, load: Load)
    returns (run': seq<State>)
    requires At(cfg, run, pcs, Free(h)) && p < |pcs| && pcs[p] == Publishing(k, w, load) && cfg.route(k) == 0
    requires w < |h.lives| && w < |h.flight.waves| && h.flight.waves[w].forgotten
    ensures At(cfg, run', pcs[p := Finishing(k, w, Returns(Missing, Some(LoadSuperseded)))], Free(TestedWave(h, w))) &&
              run <= run'
  {
    hide At;
    var h1, r := TestedWave(h, w), Returns(Missing, Some(LoadSuperseded));
    assert {} + {p} == {p} && {p} - {p} == {};
    run' := Go(cfg, run, pcs, Free(h), p, Proceed, Testing(k, w, load), Seg(None, {p}, h));
    var pcs1 := pcs[p := Testing(k, w, load)];
    run' := Go(cfg, run', pcs1, Seg(None, {p}, h), p, Proceed, Leaving(k, w, r), Seg(None, {p}, h1));
    var pcs2 := pcs1[p := Leaving(k, w, r)];
    run' := Go(cfg, run', pcs2, Seg(None, {p}, h1), p, Proceed, Finishing(k, w, r), Free(h1));
    assert pcs2[p := Finishing(k, w, r)] == pcs[p := Finishing(k, w, r)];
  }

  ghost function LeftAsFound(h: History, k: Key): History
    requires k in h.store
  {
    Noted(KeyBarred(h, k, ByGetOrSet), FoundLive(k, h.store[k].load, h.store[k].origin))
  }

  /** From `s` to `s'` a GetOrSet of process `p` looks `k` up and does not find it. */
  ghost predicate Missed(s: State, s': State, p: nat, m: Mutation) {
    && m.GetOrSetKey? && p < |s.pcs| == |s'.pcs|
    && s.pcs[p] == FirstOf(m) && s'.pcs[p] == Locking(m, 0)
    && forall i :: 0 <= i < |s.segs| ==> m.key !in s.segs[i].h.store
  }

  /** A GetOrSet does not find `k`, and goes on to lock. */
  lemma Peek(cfg: Config, run: seq<State>, pcs: seq<PC>, h: History, p: nat, m: Mutation)
      returns (run': seq<State>, g: nat)
    requires At(cfg, run, pcs, Free(h)) && p < |pcs| && pcs[p].Idle? && m.GetOrSetKey? && m.key !in h.store
    requires cfg.route(m.key) == 0
    ensures At(cfg, run', pcs[p := Locking(m, 0)], Free(h)) && run <= run'
    ensures g + 1 < |run'| && Missed(run'[g], run'[g + 1], p, m)
  {
    hide Execution, OnlyExpires;
    run' := Go(cfg, run, pcs, Free(h), p, BeginMutation(m), FirstOf(m), Free(h));
    var pcs1 := pcs[p := FirstOf(m)];
    var before := run';
    g := |before| - 1;
    run' := Go(cfg, before, pcs1, Free(h), p, Proceed, Locking(m, 0), Free(h));
    assert pcs1[p := Locking(m, 0)] == pcs[p := Locking(m, 0)];
    assert run'[g] == before[g] && run'[g].segs == [Free(h)];
  }

  /** Under its lock a GetOrSet forgets the call for `k` and finds a live entry. */
  lemma FindLive(cfg: Config, run: seq<State>, pcs: seq<PC>, h: History, p: nat, k: Key, m: Mutation)
    returns (run': seq<State>)
    requires At(cfg, run, pcs, Free(h)) && p < |pcs| && pcs[p] == Locking(m, 0) && k in h.store && cfg.route(k) == 0
    requires m.GetOrSetKey? && m.key == k
    ensures At(cfg, run', pcs[p := Idle], Free(LeftAsFound(h, k))) && run <= run'
  {
    hide At, Forgot;
    var h1, h2 := KeyBarred(h, k, ByGetOrSet), LeftAsFound(h, k);
    run' := Go(cfg, run, pcs, Free(h), p, Proceed, Acting(m, 0), Seg(Some(p), {}, h));
    var pcs2 := pcs[p := Acting(m, 0)];
    run' := Go(cfg, run', pcs2, Seg(Some(p), {}, h), p, Proceed, Acting(m, 1), Seg(Some(p), {}, h1));
    var pcs3 := pcs2[p := Acting(m, 1)];
    run' := Go(cfg, run', pcs3, Seg(Some(p), {}, h1), p, Proceed, Unlocking(m, 1), Seg(Some(p), {}, h2));
    var pcs4 := pcs3[p := Unlocking(m, 1)];
    run' := Go(cfg, run', pcs4, Seg(Some(p), {}, h2), p, Proceed, Idle, Free(h2));
    assert pcs4[p := Idle] == pcs[p := Idle];
  }

  /** What is left when process 1 has loaded `k`. */
  ghost function LoadedOnce(k: Key, load: Load): History {
    var r := Returns(load, None);
    History(Flight([Wave(k, 0, false, true, load, None)], map[]), map[k := Stored(load, ByWave(0))],
            [BeganWave(0, k, 1), LoaderBegan(0), LoaderEnded(0, r), Tested(0, false), Published(0, load),
                ClosedWave(0, r)],
            [Life(1, 0, Some(FromLoader(1)), Some(End(2, r)), Some(Test(3, false)), Some(4), Some(End(5, r)))])
  }

  /** Process 0 misses `k`, and so does the GetOrSet of process 2; then process 1 loads it. */
  lemma LoadOnce(cfg: Config, k: Key, load: Load, m: Mutation) returns (run: seq<State>, g: nat)
    requires cfg == OneSegment(3) && load.Present? && m.GetOrSetKey? && m.key == k
    ensures At(cfg, run, [Registering(k), Waiting(k, 0), Locking(m, 0)], Free(LoadedOnce(k, load)))
    ensures g + 1 < |run| && Missed(run[g], run[g + 1], 2, m)
  {
    hide At, LoadedOnce, Missed;
    var r := Returns(load, None);
    run := Begin(3);
    assert seq(3, _ => Idle) == [Idle, Idle, Idle];
    run := Miss(cfg, run, [Idle, Idle, Idle], EMPTY, 0, k);
    assert [Idle, Idle, Idle][0 := Registering(k)] == [Registering(k), Idle, Idle];
    run := Miss(cfg, run, [Registering(k), Idle, Idle], EMPTY, 1, k);
    assert [Registering(k), Idle, Idle][1 := Registering(k)] == [Registering(k), Registering(k), Idle];
    run, g := Peek(cfg, run, [Registering(k), Registering(k), Idle], EMPTY, 2, m);
    assert [Registering(k), Registering(k), Idle][2 := Locking(m, 0)] ==
        [Registering(k), Registering(k), Locking(m, 0)];
    run := LoadAlone(cfg, run, k, load, m);
  }

  /** Process 1 loads `k` while the others stay where they are. */
  lemma LoadAlone(cfg: Config, run: seq<State>, k: Key, load: Load, m: Mutation) returns (run': seq<State>)
    requires cfg == OneSegment(3) && load.Present?
    requires At(cfg, run, [Registering(k), Registering(k), Locking(m, 0)], Free(EMPTY))
    ensures At(cfg, run', [Registering(k), Waiting(k, 0), Locking(m, 0)], Free(LoadedOnce(k, load))) && run <= run'
  {
    hide At, LoadedOnce;
    var r, x, y := Returns(load, None), Registering(k), Locking(m, 0);
    run' := Enroll(cfg, run, [x, x, y], EMPTY, 1, k);
    var h1 := Entered(EMPTY, k, 1);
    assert [x, x, y][1 := Rechecking(k, 0)] == [x, Rechecking(k, 0), y];
    run' := RunLoader(cfg, run', [x, Rechecking(k, 0), y], h1, 1, k, 0, r);
    var h2 := EndedLoader(BeganLoader(h1, 0), 0, r);
    assert [x, Rechecking(k, 0), y][1 := Publishing(k, 0, load)] == [x, Publishing(k, 0, load), y];
    run' := Publish(cfg, run', [x, Publishing(k, 0, load), y], h2, 1, k, 0, load);
    var h3 := PublishedWave(TestedWave(h2, 0), 0, k, load);
    assert [x, Publishing(k, 0, load), y][1 := Finishing(k, 0, r)] == [x, Finishing(k, 0, r), y];
    run' := Complete(cfg, run', [x, Finishing(k, 0, r), y], h3, 1, k, 0, r);
    assert [x, Finishing(k, 0, r), y][1 := Waiting(k, 0)] == [x, Waiting(k, 0), y];
    LoadedValue(k, load);
  }

  lemma LoadedValue(k: Key, load: Load)
    requires load.Present?
    ensures var h1 := Entered(EMPTY, k, 1);
            var h2 := EndedLoader(BeganLoader(h1, 0), 0, Returns(load, None));
            Closed(PublishedWave(TestedWave(h2, 0), 0, k, load), 0, Returns(load, None)) == LoadedOnce(k, load)
  {
    var h1 := Entered(EMPTY, k, 1);
    assert h1.flight == Flight([Wave(k, 0, false, false, Missing, None)], map[k := 0]);
    assert h1.log == [BeganWave(0, k, 1)] && h1.lives == [Life(1, 0, None, None, None, None, None)];
    var h2 := EndedLoader(BeganLoader(h1, 0), 0, Returns(load, None));
    assert h2.log == [BeganWave(0, k, 1), LoaderBegan(0), LoaderEnded(0, Returns(load, None))];
    var h3 := PublishedWave(TestedWave(h2, 0), 0, k, load);
    assert h3.store == map[k := Stored(load, ByWave(0))];
    var h4 := Closed(h3, 0, Returns(load, None));
    assert h4.flight.live == map[];
  }

  /** What becomes of the history when process 0 goes on to load `k`, and is overtaken by a GetOrSet. */
  lemma SecondLoad(k: Key, load: Load)
    requires load.Present?
    ensures var r, dropped := Returns(load, None), Returns(Missing, Some(LoadSuperseded));
            var h4 := LoadedOnce(k, load);
            var h5 := Entered(h4, k, 0);
            && k !in h4.flight.live && |h4.flight.waves| == 1 && k in h5.store
            && var h6 := LeftAsFound(h5, k);
               && k in h6.store && h6.store[k].load == load
               && var h7 := Evicted(h6, k);
                  && k !in h7.store && 1 < |h7.lives| && 1 < |h7.flight.waves|
                  && var h8 := EndedLoader(BeganLoader(h7, 1), 1, r);
                     && 1 < |h8.lives| && 1 < |h8.flight.waves| && h8.flight.waves[1].forgotten
                     && var h9 := TestedWave(h8, 1);
                        && 1 < |h9.lives| && 1 < |h9.flight.waves|
                        && Closed(h9, 1, dropped).log == h4.log + OvertakenLog(k, load)
  {
    var h4 := LoadedOnce(k, load);
    var h5 := Entered(h4, k, 0);
    assert h5.log == h4.log + [BeganWave(1, k, 0)] && h5.store == h4.store;
    assert h5.flight.waves[1] == Wave(k, 0, false, false, Missing, None) && h5.flight.live == map[k := 1];
    var h6 := LeftAsFound(h5, k);
    assert h6.flight.waves[1].forgotten;
    assert h6.log == h4.log + [BeganWave(1, k, 0), Barrier(k, ByGetOrSet), FoundLive(k, load, ByWave(0))];
  }

  ghost function OvertakenLog(k: Key, load: Load): seq<Event> {
    [BeganWave(1, k, 0), Barrier(k, ByGetOrSet), FoundLive(k, load, ByWave(0)), LoaderBegan(1),
     LoaderEnded(1, Returns(load, None)), Tested(1, true), ClosedWave(1, Returns(Missing, Some(LoadSuperseded)))]
  }

  lemma WholeLog(k: Key, load: Load, log: seq<Event>)
    requires log == LoadedOnce(k, load).log + OvertakenLog(k, load)
    ensures |log| == 13 && Began(log, 6, 1, k) && IsClose(log[12], 1)
    ensures log[12].run == Returns(Missing, Some(LoadSuperseded)) && EndedWell(log[10], 1)
    ensures log[7] == Barrier(k, ByGetOrSet) && log[8].FoundLive?
    ensures forall b :: 0 <= b < |log| ==> !Writes(log[b], k)
  {
  }

  /** Process 0 registers its wave, is overtaken by the GetOrSet, and loads once the entry has expired. */
  lemma Overtake(cfg: Config, run: seq<State>, k: Key, load: Load, m: Mutation) returns (run': seq<State>, h: History)
    requires cfg == OneSegment(3) && load.Present? && load.deadline > 0 && m.GetOrSetKey? && m.key == k
    requires At(cfg, run, [Registering(k), Waiting(k, 0), Locking(m, 0)], Free(LoadedOnce(k, load)))
    ensures At(cfg, run', [Waiting(k, 1), Waiting(k, 0), Idle], Free(h)) && run <= run'
    ensures h.log == LoadedOnce(k, load).log + OvertakenLog(k, load)
  {
    hide At, LoadedOnce, Entered, LeftAsFound, Evicted, EndedLoader, TestedWave, Closed, OvertakenLog;
    var r, dropped, y := Returns(load, None), Returns(Missing, Some(LoadSuperseded)), Waiting(k, 0);
    SecondLoad(k, load);
    var h4 := LoadedOnce(k, load);
    run' := Enroll(cfg, run, [Registering(k), y, Locking(m, 0)], h4, 0, k);
    var h5 := Entered(h4, k, 0);
    assert [Registering(k), y, Locking(m, 0)][0 := Rechecking(k, 1)] == [Rechecking(k, 1), y, Locking(m, 0)];
    run' := FindLive(cfg, run', [Rechecking(k, 1), y, Locking(m, 0)], h5, 2, k, m);
    var h6 := LeftAsFound(h5, k);
    assert [Rechecking(k, 1), y, Locking(m, 0)][2 := Idle] == [Rechecking(k, 1), y, Idle];
    run' := Expire(cfg, run', [Rechecking(k, 1), y, Idle], Free(h6), k);
    var h7 := Evicted(h6, k);
    run' := RunLoader(cfg, run', [Rechecking(k, 1), y, Idle], h7, 0, k, 1, r);
    var h8 := EndedLoader(BeganLoader(h7, 1), 1, r);
    assert [Rechecking(k, 1), y, Idle][0 := Publishing(k, 1, load)] == [Publishing(k, 1, load), y, Idle];
    run' := Drop(cfg, run', [Publishing(k, 1, load), y, Idle], h8, 0, k, 1, load);
    var h9 := TestedWave(h8, 1);
    assert [Publishing(k, 1, load), y, Idle][0 := Finishing(k, 1, dropped)] == [Finishing(k, 1, dropped), y, Idle];
    run' := Complete(cfg, run', [Finishing(k, 1, dropped), y, Idle], h9, 0, k, 1, dropped);
    h := Closed(h9, 1, dropped);
    assert [Finishing(k, 1, dropped), y, Idle][0 := Waiting(k, 1)] == [Waiting(k, 1), y, Idle];
  }

  /**
   * No mutation ever writes `k`, and yet a load of `k` is superseded. A GetOrSet has not found `k` and is about to
   * lock; then another load publishes it. So the GetOrSet sets the barrier and finds a live entry, which expires before
   * the superseded load looks again. Nothing is evicted on the way.
   */
  lemma SupersededByNoWrite(k: Key, v: Value, d: Nanos)
    returns (cfg: Config, run: seq<State>, h: History, g: nat)
    requires d > 0
    ensures run != [] && Reached(cfg, run, |run| - 1, 0, h) && OnlyExpires(run)
    ensures g + 1 < |run| && Missed(run[g], run[g + 1], 2, GetOrSetKey(k, v, d))
    ensures |h.log| == 13 && Began(h.log, 6, 1, k) && IsClose(h.log[12], 1)
    ensures h.log[12].run == Returns(Missing, Some(LoadSuperseded)) && EndedWell(h.log[10], 1)
    ensures h.log[7] == Barrier(k, ByGetOrSet) && h.log[8].FoundLive?
    ensures forall b :: 0 <= b < |h.log| ==> !Writes(h.log[b], k)
  {
    hide At, LoadedOnce, OvertakenLog, Reached, Missed, OnlyExpires;
    cfg := OneSegment(3);
    var load, m := Present(v, d), GetOrSetKey(k, v, d);
    run, g := LoadOnce(cfg, k, load, m);
    run, h := Overtake(cfg, run, k, load, m);
    AtIsReached(cfg, run, [Waiting(k, 1), Waiting(k, 0), Idle], h);
    WholeLog(k, load, h.log);
  }
}
