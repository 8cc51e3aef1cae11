/** Every step of the load protocol keeps its invariant. */
module LoadSteps {
  import opened Types
  import opened Waves
  import opened Histories
  import opened SoundHistories
  import opened LockPlans
  import opened LoadProtocol
  import opened LoadInvariant

  /** A step of `p` on its target segment is ready to be taken. */
  ghost predicate Ready(cfg: Config, p: Pid, pc: PC, i: nat, s: Seg) {
    && Proper(cfg) && p < cfg.processes && i == Target(cfg, pc)
    && SegOk(cfg, s) && PcOk(cfg, p, pc, i, s) && PcFits(cfg, pc)
  }

  /** What has to be shown of a step. */
  ghost predicate Kept(cfg: Config, p: Pid, pc': PC, i: nat, s: Seg, s': Seg) {
    SegOk(cfg, s') && PcOk(cfg, p, pc', i, s') && PcFits(cfg, pc') && Guarantee(p, s, s')
  }

  lemma EntriesStay(log: seq<Event>)
    ensures forall e, w, k, p {:trigger EnteredBy(log + [e], w, k, p, |log + [e]|)} ::
              EnteredBy(log, w, k, p, |log|) ==> EnteredBy(log + [e], w, k, p, |log + [e]|)
  {
    forall e, w, k, p | EnteredBy(log, w, k, p, |log|) ensures EnteredBy(log + [e], w, k, p, |log + [e]|) {
      EnteredStays(log, log + [e], w, k, p);
    }
  }

  lemma JustEntered(h: History, k: Key, p: Pid)
    ensures EnteredBy(Entered(h, k, p).log, Handle(h.flight, k), k, p, |Entered(h, k, p).log|)
  {
    assert Entered(h, k, p).log[|h.log|] == JoinedWave(Handle(h.flight, k), k, p) ||
           Entered(h, k, p).log[|h.log|] == BeganWave(Handle(h.flight, k), k, p);
  }

  lemma ReadLockSteps(cfg: Config, p: Pid, pc: PC, i: nat, s: Seg)
    requires Ready(cfg, p, pc, i, s) && (pc.Registering? || pc.Publishing?)
    ensures var r := LoadStep(p, pc, s); r.Some? ==> Kept(cfg, p, r.value.0, i, s, r.value.1)
  {
    hide EnteredBy, Sound, Concluded, Disciplined;
  }

  lemma ReadUnlockSteps(cfg: Config, p: Pid, pc: PC, i: nat, s: Seg)
    requires Ready(cfg, p, pc, i, s) && (pc.Enrolled? || pc.Leaving?)
    ensures var r := LoadStep(p, pc, s); r.Some? ==> Kept(cfg, p, r.value.0, i, s, r.value.1)
  {
    hide EnteredBy, Sound, Concluded, Disciplined;
  }

  lemma LookupSteps(cfg: Config, p: Pid, pc: PC, i: nat, s: Seg)
    requires Ready(cfg, p, pc, i, s) && pc.LookingUp?
    ensures var r := LoadStep(p, pc, s); r.Some? ==> Kept(cfg, p, r.value.0, i, s, r.value.1)
  {
    hide EnteredBy, Sound, Concluded;
    if pc.key in s.h.store {
      ReadSound(s.h, pc.key, ReadCached(pc.key, s.h.store[pc.key].load, s.h.store[pc.key].origin));
    }
  }

  /** The lookup of a GetOrSet. */
  lemma PeekStep(cfg: Config, p: Pid, pc: PC, i: nat, s: Seg)
    requires Ready(cfg, p, pc, i, s) && pc.Peeking?
    ensures var r := LoadStep(p, pc, s); r.Some? ==> Kept(cfg, p, r.value.0, i, s, r.value.1)
  {
    hide EnteredBy, Sound, Concluded;
    Matches(s.h);
    if pc.key in s.h.store {
      ReadSound(s.h, pc.key, ReadCached(pc.key, s.h.store[pc.key].load, s.h.store[pc.key].origin));
    } else {
      assert Plan(cfg, GetOrSetKey(pc.key, pc.value, pc.deadline))[..0] == [];
    }
  }

  lemma WaitSteps(cfg: Config, p: Pid, pc: PC, i: nat, s: Seg)
    requires Ready(cfg, p, pc, i, s) && pc.Waiting?
    ensures var r := LoadStep(p, pc, s); r.Some? ==> Kept(cfg, p, r.value.0, i, s, r.value.1)
  {
    hide EnteredBy, Sound, Concluded;
    if s.h.flight.waves[pc.wave].done {
      ReceiveSound(s.h, pc.wave, p);
    }
  }

  /** What entering a wave does to the waves. */
  lemma EnteredWaves(h: History, k: Key, p: Pid)
    requires Disciplined(h.flight) && |h.lives| == |h.flight.waves|
    ensures var h', n, w := Entered(h, k, p), |h.lives|, Handle(h.flight, k);
            && n <= |h'.lives| == |h'.flight.waves| && h.log <= h'.log
            && w < |h'.lives| && h'.flight.waves[w].key == k && !h'.flight.waves[w].done
            && (forall v :: 0 <= v < n ==>
                  && h'.lives[v] == h.lives[v]
                  && h'.flight.waves[v].(dups := 0) == h.flight.waves[v].(dups := 0))
            && (k in h.flight.live ==> |h'.lives| == n)
            && (k !in h.flight.live ==>
                  && w == n && |h'.lives| == n + 1
                  && h'.lives[n].owner == p && h'.lives[n].source.None? && h'.lives[n].end.None?
                  && h'.lives[n].test.None? && h'.lives[n].published.None?)
  {
  }

  lemma StartStep(cfg: Config, p: Pid, pc: PC, i: nat, s: Seg)
    requires Ready(cfg, p, pc, i, s) && pc.Starting?
    ensures var r := LoadStep(p, pc, s); r.Some? ==> Kept(cfg, p, r.value.0, i, s, r.value.1)
  {
    hide EnteredBy, Sound, Concluded, Disciplined, Entered, Handle;
    Matches(s.h);
    EnterSound(s.h, pc.key, p);
    JustEntered(s.h, pc.key, p);
    EnteredWaves(s.h, pc.key, p);
  }

  lemma Matches(h: History)
    requires Sound(h)
    ensures Disciplined(h.flight) && |h.lives| == |h.flight.waves|
    ensures forall k :: k in h.store ==> h.store[k].load.Present?
  {
  }

  /** The owner's recheck. */
  lemma RecheckStep(cfg: Config, p: Pid, pc: PC, i: nat, s: Seg)
    requires Ready(cfg, p, pc, i, s) && pc.Rechecking?
    ensures var r := LoadStep(p, pc, s); r.Some? ==> Kept(cfg, p, r.value.0, i, s, r.value.1)
  {
    hide EnteredBy, Sound, Disciplined;
    Matches(s.h);
    EntriesStay(s.h.log);
    if pc.key in s.h.store {
      TakeSound(s.h, pc.wave, pc.key);
    }
  }

  /** The beginning of the owner's loader. */
  lemma LoaderStarts(cfg: Config, p: Pid, pc: PC, i: nat, s: Seg)
    requires Ready(cfg, p, pc, i, s) && pc.Loading?
    ensures var r := LoadStep(p, pc, s); r.Some? ==> Kept(cfg, p, r.value.0, i, s, r.value.1)
  {
    hide EnteredBy, Sound, Disciplined;
    EntriesStay(s.h.log);
    BeginLoaderSound(s.h, pc.wave);
  }

  lemma LoaderStep(cfg: Config, p: Pid, pc: PC, i: nat, s: Seg, run: Run)
    requires Ready(cfg, p, pc, i, s) && pc.Running?
    ensures var r := Advance(cfg, p, pc, LoaderReturns(run), s); r.Some? ==> Kept(cfg, p, r.value.0, i, s, r.value.1)
  {
    hide EnteredBy, Sound;
    EntriesStay(s.h.log);
    EndLoaderSound(s.h, pc.wave, run);
  }

  lemma TestStep(cfg: Config, p: Pid, pc: PC, i: nat, s: Seg)
    requires Ready(cfg, p, pc, i, s) && pc.Testing?
    ensures var r := LoadStep(p, pc, s); r.Some? ==> Kept(cfg, p, r.value.0, i, s, r.value.1)
  {
    hide EnteredBy, Sound;
    EntriesStay(s.h.log);
    TestSound(s.h, pc.wave);
  }

  lemma StoreStep(cfg: Config, p: Pid, pc: PC, i: nat, s: Seg)
    requires Ready(cfg, p, pc, i, s) && pc.Storing?
    ensures var r := LoadStep(p, pc, s); r.Some? ==> Kept(cfg, p, r.value.0, i, s, r.value.1)
  {
    hide EnteredBy, Sound;
    EntriesStay(s.h.log);
    PublishSound(s.h, pc.wave, pc.key, pc.load);
  }

  lemma FinishStep(cfg: Config, p: Pid, pc: PC, i: nat, s: Seg)
    requires Ready(cfg, p, pc, i, s) && pc.Finishing?
    ensures var r := LoadStep(p, pc, s); r.Some? ==> Kept(cfg, p, r.value.0, i, s, r.value.1)
  {
    hide EnteredBy, Sound, Concluded;
    Matches(s.h);
    EntriesStay(s.h.log);
    CloseSound(s.h, pc.wave, pc.run);
  }

  // ---------------------------------------------------------------- mutations

  lemma PlanAscends(cfg: Config, m: Mutation)
    requires Proper(cfg) && WellFormed(cfg, m)
    ensures Ascending(Plan(cfg, m)) && Plan(cfg, m) != [] && Script(cfg, m) != []
    ensures forall n :: 0 <= n < |Plan(cfg, m)| ==> Plan(cfg, m)[n] < cfg.segments
  {
    match m
    case DeleteKeys(keys) =>
      LocksAscend(keys, cfg.route);
      LocksCover(keys, cfg.route);
      LastLock(keys, cfg.route);
      forall n | 0 <= n < |Plan(cfg, m)| ensures Plan(cfg, m)[n] < cfg.segments {
        assert Plan(cfg, m)[n] in Locks(keys, cfg.route);
      }
    case _ =>
  }

  lemma OneMoreLock(plan: seq<nat>, n: nat)
    requires n < |plan| && Ascending(plan)
    ensures SegmentSet(plan[..n + 1]) == SegmentSet(plan[..n]) + {plan[n]} && plan[n] !in SegmentSet(plan[..n])
    ensures n + 1 == |plan| ==> SegmentSet(plan) == SegmentSet(plan[..n + 1])
    ensures SegmentSet(plan[..0]) == {} && SegmentSet(plan[..|plan|]) == SegmentSet(plan)
  {
    assert plan[..n + 1] == plan[..n] + [plan[n]];
    assert plan[..|plan|] == plan;
  }

  lemma LockStep(cfg: Config, p: Pid, pc: PC, i: nat, s: Seg)
    requires Ready(cfg, p, pc, i, s) && pc.Locking?
    ensures var r := MutationStep(cfg, p, pc, s); r.Some? ==> Kept(cfg, p, r.value.0, i, s, r.value.1)
  {
    hide EnteredBy, Sound, Plan, Script, Ascending, SegmentSet;
    PlanAscends(cfg, pc.m);
    OneMoreLock(Plan(cfg, pc.m), pc.at);
  }

  lemma UnlockStep(cfg: Config, p: Pid, pc: PC, i: nat, s: Seg)
    requires Ready(cfg, p, pc, i, s) && pc.Unlocking?
    ensures var r := MutationStep(cfg, p, pc, s); r.Some? ==> Kept(cfg, p, r.value.0, i, s, r.value.1)
  {
    hide EnteredBy, Sound, Plan, Script, Ascending, SegmentSet;
    PlanAscends(cfg, pc.m);
    OneMoreLock(Plan(cfg, pc.m), pc.at - 1);
  }

  predicate WritesKey(a: Action) {
    a.Put? || a.PutIfAbsent? || a.Remove?
  }

  lemma DeleteForgetsFirst(cfg: Config, keys: seq<Key>, n: nat)
    requires n < 2 * |keys|
    ensures var script := Script(cfg, DeleteKeys(keys));
            && |script| == 2 * |keys|
            && (n % 2 == 0 ==> script[n] == Forget(keys[n / 2], ByDelete))
            && (n % 2 == 1 ==> script[n] == Remove(keys[n / 2]) && script[n - 1] == Forget(keys[n / 2], ByDelete))
  {
    assert n % 2 == 1 ==> (n - 1) / 2 == n / 2;
  }

  lemma ClearForgetsFirst(cfg: Config, n: nat)
    requires n < 2 * cfg.segments
    ensures var script := Script(cfg, ClearAll);
            && |script| == 2 * cfg.segments
            && (n < cfg.segments ==> script[n] == ForgetEvery(n))
            && (n >= cfg.segments ==>
                  script[n] == RemoveEvery(n - cfg.segments) &&
                      script[n - cfg.segments] == ForgetEvery(n - cfg.segments))
  {
  }

  /**
   * Right before a mutation writes a key it has forgotten that key; a clear forgets every segment before it empties
   * any.
   */
  lemma ForgetsFirst(cfg: Config, m: Mutation, n: nat) returns (j: nat)
    requires n < |Script(cfg, m)|
    ensures WritesKey(Script(cfg, m)[n]) ==>
              j < n && j == n - 1 && Script(cfg, m)[j] == Forget(Script(cfg, m)[n].key, CauseOf(m))
    ensures Script(cfg, m)[n].RemoveEvery? ==> j < n && Script(cfg, m)[j] == ForgetEvery(Script(cfg, m)[n].segment)
  {
    match m
    case DeleteKeys(keys) =>
      DeleteForgetsFirst(cfg, keys, n);
      j := if n > 0 then n - 1 else 0;
    case ClearAll =>
      ClearForgetsFirst(cfg, n);
      j := if n >= cfg.segments then n - cfg.segments else 0;
    case _ => j := 0;
  }

  /** What one action does to a history, when what it relies on has been forgotten. */
  lemma ActionSound(cfg: Config, h: History, a: Action)
    requires Sound(h)
    requires WritesKey(a) ==> a.key !in h.flight.live
    requires a.RemoveEvery? ==> h.flight.live == map[]
    ensures Sound(Did(h, a)) && Did(h, a).lives == h.lives
  {
    hide EnteredBy, Sound;
    match a
    case Forget(k, cause) => BarrierSound(h, k, cause);
    case ForgetEvery(_) => BarrierAllSound(h);
    case Put(k, load) => WriteSound(h, k, load);
    case PutIfAbsent(k, load) =>
      if k in h.store {
        ReadSound(h, k, FoundLive(k, h.store[k].load, h.store[k].origin));
      } else {
        WriteSound(h, k, load);
      }
    case Remove(k) => WriteSound(h, k, Missing);
    case RemoveEvery(_) => WriteAllSound(h);
  }

  /** What one action does to the calls. */
  lemma ActionCalls(h: History, a: Action)
    requires Disciplined(h.flight)
    ensures var f, f' := h.flight, Did(h, a).flight;
            && |f'.waves| == |f.waves| && f'.live.Keys <= f.live.Keys
            && (forall w :: 0 <= w < |f.waves| ==>
                 f'.waves[w].key == f.waves[w].key && f'.waves[w].done == f.waves[w].done)
            && h.log <= Did(h, a).log
            && (a.Forget? ==> a.key !in f'.live)
            && (a.ForgetEvery? ==> f'.live == map[])
  {
  }

  lemma ActStep(cfg: Config, p: Pid, pc: PC, i: nat, s: Seg)
    requires Ready(cfg, p, pc, i, s) && pc.Acting?
    ensures var r := MutationStep(cfg, p, pc, s); r.Some? ==> Kept(cfg, p, r.value.0, i, s, r.value.1)
  {
    hide EnteredBy, Sound, Plan, Script, Ascending, SegmentSet, Did, Effective;
    var m, n := pc.m, pc.at;
    var a := Script(cfg, m)[n];
    PlanAscends(cfg, m);
    OneMoreLock(Plan(cfg, m), 0);
    ScriptCovered(cfg, m, n);
    Matches(s.h);
    RelyOn(cfg, m, n, i, s.h);
    ActionSound(cfg, s.h, a);
    ActionCalls(s.h, a);
    forall j | 0 <= j < n + 1 && j < |Script(cfg, m)| ensures Effective(cfg, Did(s.h, a), i, Script(cfg, m)[j]) {
      StillEffective(cfg, s.h, a, i, Script(cfg, m)[j]);
    }
  }

  lemma RelyOn(cfg: Config, m: Mutation, n: nat, i: nat, h: History)
    requires n < |Script(cfg, m)| && Committed(cfg, Acting(m, n), h, i) && i == Where(cfg, Script(cfg, m)[n])
    ensures var a := Script(cfg, m)[n];
            && (WritesKey(a) ==> a.key !in h.flight.live)
            && (a.RemoveEvery? ==> h.flight.live == map[])
  {
    hide Script;
    var j := ForgetsFirst(cfg, m, n);
    var a := Script(cfg, m)[n];
    assert j < n ==> Effective(cfg, h, i, Script(cfg, m)[j]);
  }

  lemma StillEffective(cfg: Config, h: History, a: Action, i: nat, b: Action)
    requires Disciplined(h.flight) && i == Where(cfg, a) && (Effective(cfg, h, i, b) || a == b)
    ensures Effective(cfg, Did(h, a), i, b)
  {
    hide Did;
    ActionCalls(h, a);
    assert Did(h, a).flight.live.Keys == {} ==> Did(h, a).flight.live == map[];
  }
}
