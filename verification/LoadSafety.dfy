/** What every execution of the load protocol guarantees. */
module LoadSafety {
  import opened Types
  import opened Waves
  import opened Histories
  import opened SoundHistories
  import opened LockPlans
  import opened LoadProtocol
  import opened LoadInvariant
  import opened LoadSteps

  lemma AnyStepKept(cfg: Config, p: Pid, pc: PC, move: Move, i: nat, s: Seg)
    requires Ready(cfg, p, pc, i, s)
    ensures var r := Advance(cfg, p, pc, move, s); r.Some? && !pc.Idle? ==> Kept(cfg, p, r.value.0, i, s, r.value.1)
  {
    hide Sound, Kept, LoadStep, MutationStep, PcOk, SegOk;
    match move
    case Proceed =>
      match pc {
        case Registering(_) => ReadLockSteps(cfg, p, pc, i, s);
        case Enrolled(_, _, _) => ReadUnlockSteps(cfg, p, pc, i, s);
        case Publishing(_, _, _) => ReadLockSteps(cfg, p, pc, i, s);
        case Leaving(_, _, _) => ReadUnlockSteps(cfg, p, pc, i, s);
        case LookingUp(_) => LookupSteps(cfg, p, pc, i, s);
        case Peeking(_, _, _) => PeekStep(cfg, p, pc, i, s);
        case Waiting(_, _) => WaitSteps(cfg, p, pc, i, s);
        case Starting(_) => StartStep(cfg, p, pc, i, s);
        case Rechecking(_, _) => RecheckStep(cfg, p, pc, i, s);
        case Loading(_, _) => LoaderStarts(cfg, p, pc, i, s);
        case Running(_, _) => NoLoadStep(p, pc, s);
        case Testing(_, _, _) => TestStep(cfg, p, pc, i, s);
        case Storing(_, _, _) => StoreStep(cfg, p, pc, i, s);
        case Finishing(_, _, _) => FinishStep(cfg, p, pc, i, s);
        case Locking(_, _) => LockStep(cfg, p, pc, i, s);
        case Acting(_, _) => ActStep(cfg, p, pc, i, s);
        case Unlocking(_, _) => UnlockStep(cfg, p, pc, i, s);
        case Idle =>
      }
    case LoaderReturns(run) =>
      if pc.Running? {
        LoaderStep(cfg, p, pc, i, s, run);
      }
    case GiveUp =>
      if pc.Registering? || pc.Waiting? {
        GiveUpStep(cfg, p, pc, i, s);
      }
    case _ =>
  }

  lemma NoLoadStep(p: Pid, pc: PC, s: Seg)
    requires pc.Running?
    ensures LoadStep(p, pc, s).None?
  {
  }

  lemma GiveUpStep(cfg: Config, p: Pid, pc: PC, i: nat, s: Seg)
    requires Ready(cfg, p, pc, i, s) && (pc.Registering? || pc.Waiting?)
    ensures Kept(cfg, p, Idle, i, s, s)
  {
    hide Sound;
    Matches(s.h);
  }

  /** A mutation that is about to lock holds nothing. */
  lemma LocksElsewhere(cfg: Config, p: Pid, pc: PC, m: Mutation, j: nat, t: Seg)
    requires Proper(cfg) && WellFormed(cfg, m) && PcOk(cfg, p, pc, j, t) && (pc.Idle? || pc.Peeking?)
    ensures PcOk(cfg, p, Locking(m, 0), j, t) && PcFits(cfg, Locking(m, 0))
  {
    hide Plan, Script, Ascending, SegmentSet, Effective;
    Beginning(cfg, m);
  }

  /** The process is at a load, or at the lookup of a GetOrSet. */
  predicate AtKey(pc: PC) {
    !pc.Idle? && !pc.Locking? && !pc.Acting? && !pc.Unlocking?
  }

  /** A load stays with its key. */
  lemma SameKey(cfg: Config, p: Pid, pc: PC, move: Move, s: Seg)
    requires AtKey(pc)
    ensures var r := Advance(cfg, p, pc, move, s);
            r.Some? ==>
              || r.value.0.Idle?
              || (AtKey(r.value.0) && r.value.0.key == pc.key)
              || (pc.Peeking? && r.value.0 == Locking(GetOrSetKey(pc.key, pc.value, pc.deadline), 0))
  {
  }

  lemma Begins(cfg: Config, p: Pid, move: Move, s: Seg)
    ensures var r := Advance(cfg, p, Idle, move, s);
            r.Some? ==>
              || r.value.0.LookingUp? || r.value.0.Peeking?
              || (r.value.0.Locking? && r.value.0.at == 0 && WellFormed(cfg, r.value.0.m))
  {
    hide WellFormed;
  }

  /** Where its key is not routed to, a load has nothing. */
  lemma NothingElsewhere(cfg: Config, p: Pid, pc: PC, pc': PC, j: nat, t: Seg)
    requires PcOk(cfg, p, pc, j, t) && (pc.Idle? || (AtKey(pc) && cfg.route(pc.key) != j))
    requires pc'.Idle? || (AtKey(pc') && (pc.Idle? || pc'.key == pc.key))
    requires pc.Idle? ==> pc'.Idle? || pc'.LookingUp? || pc'.Peeking?
    ensures PcOk(cfg, p, pc', j, t) && PcFits(cfg, pc')
  {
    hide Concluded, Succeeding, EnteredBy;
  }

  lemma LoadElsewhere(cfg: Config, p: Pid, pc: PC, move: Move, i: nat, s: Seg, j: nat, t: Seg)
    requires Proper(cfg) && i == Target(cfg, pc) && PcFits(cfg, pc) && PcOk(cfg, p, pc, j, t)
    requires (j != i || pc.Idle?) && (pc.Idle? || AtKey(pc))
    ensures var r := Advance(cfg, p, pc, move, s); r.Some? ==> PcOk(cfg, p, r.value.0, j, t) && PcFits(cfg, r.value.0)
  {
    hide PcOk, PcFits, Advance;
    var r := Advance(cfg, p, pc, move, s);
    if r.Some? {
      if pc.Idle? {
        Begins(cfg, p, move, s);
      } else {
        SameKey(cfg, p, pc, move, s);
      }
      if r.value.0.Locking? {
        LocksElsewhere(cfg, p, pc, r.value.0.m, j, t);
      } else {
        NothingElsewhere(cfg, p, pc, r.value.0, j, t);
      }
    }
  }

  lemma MutationElsewhere(cfg: Config, p: Pid, pc: PC, i: nat, s: Seg, j: nat, t: Seg)
    requires Proper(cfg) && i == Target(cfg, pc) && PcFits(cfg, pc) && PcOk(cfg, p, pc, j, t)
    requires j != i && (pc.Locking? || pc.Acting? || pc.Unlocking?)
    ensures var r := MutationStep(cfg, p, pc, s); r.Some? ==> PcOk(cfg, p, r.value.0, j, t) && PcFits(cfg, r.value.0)
  {
    hide Plan, Script, Ascending, SegmentSet, Effective, Attached, Did;
    PlanAscends(cfg, pc.m);
    if pc.Locking? {
      OneMoreLock(Plan(cfg, pc.m), pc.at);
    } else if pc.Unlocking? {
      OneMoreLock(Plan(cfg, pc.m), pc.at - 1);
    } else {
      OneMoreLock(Plan(cfg, pc.m), 0);
      NotConcerned(cfg, t.h, j, Script(cfg, pc.m)[pc.at]);
    }
  }

  /** On any other segment a step of `p` changes nothing, and `p` is as it was. */
  lemma Elsewhere(cfg: Config, p: Pid, pc: PC, move: Move, i: nat, s: Seg, j: nat, t: Seg)
    requires Proper(cfg) && i == Target(cfg, pc) && PcFits(cfg, pc) && PcOk(cfg, p, pc, j, t)
    requires j != i || pc.Idle?
    ensures var r := Advance(cfg, p, pc, move, s); r.Some? ==> PcOk(cfg, p, r.value.0, j, t) && PcFits(cfg, r.value.0)
  {
    hide PcOk, PcFits, LoadStep, MutationStep;
    if pc.Locking? || pc.Acting? || pc.Unlocking? {
      MutationElsewhere(cfg, p, pc, i, s, j, t);
    } else {
      LoadElsewhere(cfg, p, pc, move, i, s, j, t);
    }
  }

  lemma Beginning(cfg: Config, m: Mutation)
    requires Proper(cfg)
    ensures WellFormed(cfg, m) ==> Plan(cfg, m) != []
    ensures SegmentSet(Plan(cfg, m)[..0]) == {}
  {
    if WellFormed(cfg, m) {
      PlanAscends(cfg, m);
    }
  }

  lemma NotConcerned(cfg: Config, h: History, j: nat, a: Action)
    requires Where(cfg, a) != j
    ensures Effective(cfg, h, j, a)
  {
  }

  lemma ProcessStepKeeps(cfg: Config, s: State, s': State, p: Pid, move: Move)
    requires Inv(cfg, s) && ProcessStep(cfg, s, s', p, move)
    ensures Inv(cfg, s')
  {
    hide PcOk, SegOk, PcFits, Guarantee, Advance, Target, Proper;
    var pc := s.pcs[p];
    var i := Target(cfg, pc);
    var r := Advance(cfg, p, pc, move, s.segs[i]);
    var pc', seg' := r.value.0, r.value.1;
    assert SegOk(cfg, s.segs[i]) && PcFits(cfg, pc) && PcOk(cfg, p, pc, i, s.segs[i]);
    AnyStepKept(cfg, p, pc, move, i, s.segs[i]);
    IdleSteps(cfg, p, pc, move, i, s.segs[i]);
    forall j | 0 <= j < |s.segs| ensures PcOk(cfg, p, pc', j, s'.segs[j]) && PcFits(cfg, pc') {
      assert PcOk(cfg, p, pc, j, s.segs[j]);
      if j != i || pc.Idle? {
        Elsewhere(cfg, p, pc, move, i, s.segs[i], j, s.segs[j]);
      }
    }
    forall j | 0 <= j < |s.segs| ensures SegOk(cfg, s'.segs[j]) {
      assert SegOk(cfg, s.segs[j]);
    }
    forall q | 0 <= q < |s.pcs| && q != p ensures PcFits(cfg, s'.pcs[q]) {
      assert PcFits(cfg, s.pcs[q]);
    }
    assert PcOk(cfg, p, s'.pcs[p], i, s'.segs[i]);
    forall q, j | 0 <= q < |s.pcs| && 0 <= j < |s.segs| && q != p ensures PcOk(cfg, q, s'.pcs[q], j, s'.segs[j]) {
      assert PcOk(cfg, q, s.pcs[q], j, s.segs[j]) && PcFits(cfg, s.pcs[q]);
      if j == i {
        Undisturbed(cfg, p, q, s.pcs[q], i, s.segs[i], seg');
      }
    }
  }

  /** Beginning an operation touches no segment. */
  lemma IdleSteps(cfg: Config, p: Pid, pc: PC, move: Move, i: nat, s: Seg)
    requires SegOk(cfg, s)
    ensures pc.Idle? && Advance(cfg, p, pc, move, s).Some? ==>
              Advance(cfg, p, pc, move, s).value.1 == s && Guarantee(p, s, s)
  {
    hide Sound;
    Matches(s.h);
  }

  lemma UpkeepKeeps(cfg: Config, s: State, s': State, i: nat, k: Key, deadline: Nanos)
    requires Inv(cfg, s) && Upkeep(s, s', i, k, deadline)
    ensures Inv(cfg, s')
  {
    hide Sound, HoldsRead, HoldsWrite, Concluded, Script;
    UpkeepSound(s.segs[i].h, k, deadline);
    forall p, j | 0 <= p < |s.pcs| && 0 <= j < |s.segs| ensures PcOk(cfg, p, s'.pcs[p], j, s'.segs[j]) {
      assert PcOk(cfg, p, s.pcs[p], j, s.segs[j]);
    }
  }

  lemma StepKeeps(cfg: Config, s: State, s': State)
    requires Inv(cfg, s) && Step(cfg, s, s')
    ensures Inv(cfg, s')
  {
    hide Inv, ProcessStep, Upkeep;
    if p, move :| ProcessStep(cfg, s, s', p, move) {
      ProcessStepKeeps(cfg, s, s', p, move);
    } else {
      var i, k, deadline :| Upkeep(s, s', i, k, deadline);
      UpkeepKeeps(cfg, s, s', i, k, deadline);
    }
  }

  lemma InitialOk(cfg: Config, s: State)
    requires Proper(cfg) && Initial(cfg, s)
    ensures Inv(cfg, s)
  {
  }

  /** The invariant holds in every reachable state. */
  lemma {:induction false} AlwaysOk(cfg: Config, run: seq<State>, n: nat)
    requires Execution(cfg, run) && n < |run|
    ensures Inv(cfg, run[n])
  {
    hide Inv, Step, Initial;
    if n == 0 {
      InitialOk(cfg, run[0]);
    } else {
      AlwaysOk(cfg, run, n - 1);
      StepKeeps(cfg, run[n - 1], run[n - 1 + 1]);
    }
  }
}
