/** What holds in every reachable state of the load protocol. */
module LoadInvariant {
  import opened Types
  import opened Waves
  import opened Histories
  import opened LockPlans
  import opened LoadProtocol

  ghost predicate HoldsRead(cfg: Config, pc: PC, i: nat) {
    (pc.Starting? || pc.Enrolled? || pc.Testing? || pc.Storing? || pc.Leaving?) && cfg.route(pc.key) == i
  }

  ghost predicate HoldsWrite(cfg: Config, pc: PC, i: nat) {
    match pc
    case Locking(m, n) => n <= |Plan(cfg, m)| && i in SegmentSet(Plan(cfg, m)[..n])
    case Acting(m, _) => i in SegmentSet(Plan(cfg, m))
    case Unlocking(m, n) => n <= |Plan(cfg, m)| && i in SegmentSet(Plan(cfg, m)[..n])
    case _ => false
  }

  /** The process runs the wave `pc.wave`. */
  predicate Owning(pc: PC) {
    || (pc.Enrolled? && pc.owner) || pc.Rechecking? || pc.Loading? || pc.Running?
    || pc.Publishing? || pc.Testing? || pc.Storing? || pc.Leaving? || pc.Finishing?
  }

  /** A process with a wave knows how far that wave has come. */
  ghost predicate Attached(p: Pid, pc: PC, h: History) {
    && (Owning(pc) || pc.Enrolled? || pc.Waiting? ==>
          && pc.wave < |h.lives| == |h.flight.waves| && h.flight.waves[pc.wave].key == pc.key
          && EnteredBy(h.log, pc.wave, pc.key, p, |h.log|))
    && (Owning(pc) ==>
          && pc.wave < |h.lives| == |h.flight.waves|
          && h.lives[pc.wave].owner == p && !h.flight.waves[pc.wave].done
          && var l := h.lives[pc.wave];
             match pc
             case Running(_, _) => l.source.Some? && l.source.value.FromLoader? && l.end.None? && l.test.None? &&
                 l.published.None?
             case Publishing(_, _, load) => Succeeding(l, load) && l.test.None? && l.published.None?
             case Testing(_, _, load) => Succeeding(l, load) && l.test.None? && l.published.None?
             case Storing(_, w, load) =>
               && Succeeding(l, load) && load.Present? && l.test.Some? && !l.test.value.forgotten && l.published.None?
               && !h.flight.waves[w].forgotten
             case Leaving(_, _, run) => Concluded(l, run)
             case Finishing(_, _, run) => Concluded(l, run)
             case _ => l.source.None? && l.end.None? && l.test.None? && l.published.None?)
  }

  predicate Succeeding(l: Life, load: Load) {
    l.source.Some? && l.source.value.FromLoader? && l.end.Some? && l.end.value.run == Returns(load, None)
  }

  /** What has been forgotten under the locks of a mutation stays so until they are released. */
  ghost predicate Effective(cfg: Config, h: History, i: nat, a: Action) {
    match a
    case Forget(k, _) => cfg.route(k) == i ==> k !in h.flight.live
    case ForgetEvery(j) => j == i ==> h.flight.live == map[]
    case _ => true
  }

  ghost predicate Committed(cfg: Config, pc: PC, h: History, i: nat) {
    pc.Acting? ==> forall j :: 0 <= j < pc.at && j < |Script(cfg, pc.m)| ==> Effective(cfg, h, i, Script(cfg, pc.m)[j])
  }

  /** Every unfinished wave of a process is the one it is working on. */
  ghost predicate Responsible(cfg: Config, p: Pid, pc: PC, h: History, i: nat) {
    |h.lives| == |h.flight.waves| &&
    forall w :: 0 <= w < |h.lives| && h.lives[w].owner == p && !h.flight.waves[w].done ==>
      Owning(pc) && pc.wave == w && cfg.route(pc.key) == i
  }

  ghost predicate PcOk(cfg: Config, p: Pid, pc: PC, i: nat, s: Seg) {
    && (HoldsWrite(cfg, pc, i) <==> s.writer == Some(p))
    && (HoldsRead(cfg, pc, i) <==> p in s.readers)
    && (pc.Idle? || pc.Locking? || pc.Acting? || pc.Unlocking? || cfg.route(pc.key) != i || Attached(p, pc, s.h))
    && Committed(cfg, pc, s.h, i)
    && Responsible(cfg, p, pc, s.h, i)
  }

  ghost predicate PcFits(cfg: Config, pc: PC) {
    match pc
    case Locking(m, n) => WellFormed(cfg, m) && n < |Plan(cfg, m)|
    case Acting(m, n) => WellFormed(cfg, m) && n < |Script(cfg, m)|
    case Unlocking(m, n) => WellFormed(cfg, m) && 0 < n <= |Plan(cfg, m)|
    case _ => true
  }

  ghost predicate SegOk(cfg: Config, s: Seg) {
    && Sound(s.h)
    && (s.writer.Some? ==> s.readers == {} && s.writer.value < cfg.processes)
    && (forall q :: q in s.readers ==> q < cfg.processes)
    && (forall w :: 0 <= w < |s.h.lives| ==> s.h.lives[w].owner < cfg.processes)
  }

  ghost predicate Inv(cfg: Config, s: State) {
    && Proper(cfg)
    && |s.segs| == cfg.segments && |s.pcs| == cfg.processes
    && (forall i :: 0 <= i < |s.segs| ==> SegOk(cfg, s.segs[i]))
    && (forall p :: 0 <= p < |s.pcs| ==> PcFits(cfg, s.pcs[p]))
    && (forall p, i :: 0 <= p < |s.pcs| && 0 <= i < |s.segs| ==> PcOk(cfg, p, s.pcs[p], i, s.segs[i]))
  }

  /** What the other processes can rely on when `p` makes a step. */
  ghost predicate Guarantee(p: Pid, s: Seg, s': Seg) {
    && (forall q :: q != p ==> (s'.writer == Some(q) <==> s.writer == Some(q)) && (q in s'.readers <==> q in s.readers))
    && |s.h.lives| == |s.h.flight.waves| <= |s'.h.lives| == |s'.h.flight.waves|
    && s.h.log <= s'.h.log
    && (forall w :: 0 <= w < |s.h.lives| ==>
          && s'.h.flight.waves[w].key == s.h.flight.waves[w].key
          && s'.h.lives[w].owner == s.h.lives[w].owner
          && (s.h.lives[w].owner != p ==>
                s'.h.lives[w] == s.h.lives[w] && s'.h.flight.waves[w].done == s.h.flight.waves[w].done))
    && (forall w :: |s.h.lives| <= w < |s'.h.lives| ==> s'.h.lives[w].owner == p)
    && (s.writer.Some? && s.writer != Some(p) ==> s'.h.flight.live.Keys <= s.h.flight.live.Keys)
    && (s.readers - {p} != {} ==>
          forall w :: 0 <= w < |s.h.lives| ==> s'.h.flight.waves[w].forgotten == s.h.flight.waves[w].forgotten)
  }

  /** A mutation acts only on segments that it has locked. */
  lemma ScriptCovered(cfg: Config, m: Mutation, j: nat)
    requires WellFormed(cfg, m) && j < |Script(cfg, m)|
    ensures Where(cfg, Script(cfg, m)[j]) in SegmentSet(Plan(cfg, m))
  {
    match m
    case DeleteKeys(keys) => LocksCover(keys, cfg.route);
    case ClearAll =>
      var i := if j < cfg.segments then j else j - cfg.segments;
      assert Plan(cfg, m)[i] == i;
    case _ => assert Plan(cfg, m)[0] == cfg.route(m.key);
  }

  lemma StaysCommitted(cfg: Config, p: Pid, q: Pid, pc: PC, i: nat, s: Seg, s': Seg)
    requires p != q && PcOk(cfg, q, pc, i, s) && Guarantee(p, s, s') && PcFits(cfg, pc)
    ensures Committed(cfg, pc, s'.h, i)
  {
    hide Plan, Script;
    if pc.Acting? {
      forall j | 0 <= j < pc.at && j < |Script(cfg, pc.m)| ensures Effective(cfg, s'.h, i, Script(cfg, pc.m)[j]) {
        ScriptCovered(cfg, pc.m, j);
        assert Effective(cfg, s.h, i, Script(cfg, pc.m)[j]);
      }
    }
  }

  lemma StaysEntered(pc: PC, q: Pid, log: seq<Event>, log': seq<Event>)
    requires (Owning(pc) || pc.Enrolled? || pc.Waiting?) && log <= log'
    ensures EnteredBy(log, pc.wave, pc.key, q, |log|) ==> EnteredBy(log', pc.wave, pc.key, q, |log'|)
  {
  }

  lemma StaysAttached(p: Pid, q: Pid, pc: PC, s: Seg, s': Seg)
    requires p != q && Attached(q, pc, s.h) && Guarantee(p, s, s')
    requires pc.Storing? ==> q in s.readers
    ensures Attached(q, pc, s'.h)
  {
    hide Concluded, Succeeding, EnteredBy;
    if Owning(pc) || pc.Enrolled? || pc.Waiting? {
      StaysEntered(pc, q, s.h.log, s'.h.log);
    }
    assert q in s.readers ==> q in s.readers - {p};
  }

  lemma StaysResponsible(cfg: Config, p: Pid, q: Pid, pc: PC, i: nat, s: Seg, s': Seg)
    requires p != q && Responsible(cfg, q, pc, s.h, i) && Guarantee(p, s, s')
    ensures Responsible(cfg, q, pc, s'.h, i)
  {
  }

  /** Another process is not disturbed. */
  lemma Undisturbed(cfg: Config, p: Pid, q: Pid, pc: PC, i: nat, s: Seg, s': Seg)
    requires p != q && PcOk(cfg, q, pc, i, s) && Guarantee(p, s, s') && PcFits(cfg, pc)
    ensures PcOk(cfg, q, pc, i, s')
  {
    hide Plan, Script, Committed, Attached, Responsible, PcFits;
    StaysCommitted(cfg, p, q, pc, i, s, s');
    StaysResponsible(cfg, p, q, pc, i, s, s');
    if Attached(q, pc, s.h) && !pc.Idle? && !pc.Locking? && !pc.Acting? && !pc.Unlocking? && cfg.route(pc.key) == i {
      StaysAttached(p, q, pc, s, s');
    }
  }

  lemma Fits(cfg: Config, s: State, p: Pid)
    requires Inv(cfg, s) && p < |s.pcs|
    ensures PcFits(cfg, s.pcs[p]) && Proper(cfg) && |s.segs| == cfg.segments
  {
  }
}
