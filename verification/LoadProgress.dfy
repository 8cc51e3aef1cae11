/** The load protocol never gets stuck, and every operation ends. */
module LoadProgress {
  import opened Types
  import opened Waves
  import opened Histories
  import opened LoadProtocol
  import opened LoadInvariant
  import opened LoadSteps
  import opened LoadSafety
  import opened LoadTheorems

  /** Somebody is waiting for, or about to ask for, the write lock of the segment. */
  ghost predicate WriterQueued(cfg: Config, s: State, i: nat) {
    exists q :: 0 <= q < |s.pcs| && s.pcs[q].Locking? && Target(cfg, s.pcs[q]) == i
  }

  /** The next move of a process that is not between operations; it does not count on a cancellation. */
  function NextMove(pc: PC): Move {
    if pc.Running? then LoaderReturns(Exits) else Proceed
  }

  /** Process `p` can make its next step, even if waiting writers keep all new readers out. */
  ghost predicate CanMove(cfg: Config, s: State, p: Pid) {
    && p < |s.pcs| && !s.pcs[p].Idle?
    && var i := Target(cfg, s.pcs[p]);
       && i < |s.segs|
       && Advance(cfg, p, s.pcs[p], NextMove(s.pcs[p]), s.segs[i]).Some?
       && (s.pcs[p].Registering? || s.pcs[p].Publishing? ==> !WriterQueued(cfg, s, i))
  }

  lemma TargetExists(cfg: Config, pc: PC)
    requires Proper(cfg) && PcFits(cfg, pc)
    ensures Target(cfg, pc) < cfg.segments
  {
    hide Plan, Script;
    match pc
    case Locking(m, n) => PlanAscends(cfg, m);
    case Acting(m, n) => ActionsInRange(cfg, m, n);
    case Unlocking(m, n) => PlanAscends(cfg, m);
    case _ =>
  }

  lemma ActionsInRange(cfg: Config, m: Mutation, n: nat)
    requires Proper(cfg) && WellFormed(cfg, m) && n < |Script(cfg, m)|
    ensures Where(cfg, Script(cfg, m)[n]) < cfg.segments
  {
    hide Plan, Script;
    PlanAscends(cfg, m);
    ScriptCovered(cfg, m, n);
  }

  /** Only three kinds of steps can be blocked: taking a lock, and waiting for a wave. */
  lemma OthersMove(cfg: Config, s: State, p: Pid)
    requires Inv(cfg, s) && p < |s.pcs| && !s.pcs[p].Idle?
    requires !s.pcs[p].Registering? && !s.pcs[p].Publishing? && !s.pcs[p].Locking? && !s.pcs[p].Waiting?
    ensures CanMove(cfg, s, p)
  {
    hide Sound, Plan, Script;
    var pc := s.pcs[p];
    TargetExists(cfg, pc);
    assert PcFits(cfg, pc) && PcOk(cfg, p, pc, Target(cfg, pc), s.segs[Target(cfg, pc)]);
  }

  lemma HolderExists(cfg: Config, s: State, i: nat, q: Pid)
    requires Inv(cfg, s) && i < |s.segs|
    ensures s.segs[i].writer == Some(q) ==> q < |s.pcs| && HoldsWrite(cfg, s.pcs[q], i)
    ensures q in s.segs[i].readers ==> q < |s.pcs| && HoldsRead(cfg, s.pcs[q], i)
  {
    hide Sound, HoldsWrite, HoldsRead;
    assert SegOk(cfg, s.segs[i]);
    if q < |s.pcs| {
      assert PcOk(cfg, q, s.pcs[q], i, s.segs[i]);
    }
  }

  /** Somebody who holds a lock and wants another wants a higher one. */
  lemma WantsHigher(cfg: Config, pc: PC, i: nat)
    requires Proper(cfg) && PcFits(cfg, pc) && pc.Locking? && HoldsWrite(cfg, pc, i)
    ensures i < Target(cfg, pc)
  {
    hide Plan;
    PlanAscends(cfg, pc.m);
    var plan := Plan(cfg, pc.m);
    var j :| 0 <= j < pc.at && plan[..pc.at][j] == i;
    assert plan[j] == i;
  }

  /**
   * A process that waits for a write lock waits, in the end, for one that can move: locks are taken in ascending
   * order.
   */
  lemma {:induction false} LockersMove(cfg: Config, s: State, p: Pid) returns (q: Pid)
    requires Inv(cfg, s) && p < |s.pcs| && s.pcs[p].Locking?
    ensures CanMove(cfg, s, q)
    decreases cfg.segments - Target(cfg, s.pcs[p])
  {
    hide Sound, Plan, Script, PcOk, SegOk;
    var i := Target(cfg, s.pcs[p]);
    Fits(cfg, s, p);
    TargetExists(cfg, s.pcs[p]);
    var seg := s.segs[i];
    if seg.writer.Some? {
      q := seg.writer.value;
      HolderExists(cfg, s, i, q);
      Fits(cfg, s, q);
      if s.pcs[q].Locking? {
        WantsHigher(cfg, s.pcs[q], i);
        TargetExists(cfg, s.pcs[q]);
        q := LockersMove(cfg, s, q);
      } else {
        OthersMove(cfg, s, q);
      }
    } else if seg.readers != {} {
      q :| q in seg.readers;
      HolderExists(cfg, s, i, q);
      OthersMove(cfg, s, q);
    } else {
      q := p;
    }
  }

  /** A process that waits for a read lock waits for a writer, or for one that is queued. */
  lemma ReadersMove(cfg: Config, s: State, p: Pid) returns (q: Pid)
    requires Inv(cfg, s) && p < |s.pcs| && (s.pcs[p].Registering? || s.pcs[p].Publishing?)
    ensures CanMove(cfg, s, q)
  {
    hide Sound, Plan, Script, PcOk, SegOk;
    var i := Target(cfg, s.pcs[p]);
    Fits(cfg, s, p);
    TargetExists(cfg, s.pcs[p]);
    if WriterQueued(cfg, s, i) {
      var r :| 0 <= r < |s.pcs| && s.pcs[r].Locking? && Target(cfg, s.pcs[r]) == i;
      q := LockersMove(cfg, s, r);
    } else if s.segs[i].writer.Some? {
      q := s.segs[i].writer.value;
      HolderExists(cfg, s, i, q);
      if s.pcs[q].Locking? {
        q := LockersMove(cfg, s, q);
      } else {
        OthersMove(cfg, s, q);
      }
    } else {
      q := p;
    }
  }

  /** The owner of an unfinished wave is at work on it. */
  lemma OwnerWorks(cfg: Config, s: State, p: Pid) returns (q: Pid)
    requires Inv(cfg, s) && p < |s.pcs| && s.pcs[p].Waiting?
    ensures q < |s.pcs| && ((q == p && CanMove(cfg, s, p)) || Owning(s.pcs[q]))
  {
    hide Sound, Plan, Script;
    var pc := s.pcs[p];
    var i := Target(cfg, pc);
    TargetExists(cfg, pc);
    assert SegOk(cfg, s.segs[i]) && PcOk(cfg, p, pc, i, s.segs[i]);
    q := p;
    if !s.segs[i].h.flight.waves[pc.wave].done {
      q := s.segs[i].h.lives[pc.wave].owner;
      assert PcOk(cfg, q, s.pcs[q], i, s.segs[i]);
    }
  }

  /**
   * Freedom from deadlock: as long as any operation is unfinished, some process can make its next step,
   * without any cancellation, and even if no reader may enter while a writer is waiting.
   */
  lemma NoDeadlock(cfg: Config, s: State, p: Pid) returns (q: Pid)
    requires Inv(cfg, s) && p < |s.pcs| && !s.pcs[p].Idle?
    ensures CanMove(cfg, s, q)
  {
    hide Inv, CanMove;
    q := p;
    if s.pcs[p].Waiting? {
      q := OwnerWorks(cfg, s, p);
      if s.pcs[q].Waiting? {
        return;
      }
    }
    if s.pcs[q].Locking? {
      q := LockersMove(cfg, s, q);
    } else if s.pcs[q].Registering? || s.pcs[q].Publishing? {
      q := ReadersMove(cfg, s, q);
    } else {
      OthersMove(cfg, s, q);
    }
  }

  lemma NeverStuck(cfg: Config, run: seq<State>, n: nat, p: Pid) returns (q: Pid)
    requires Execution(cfg, run) && n < |run| && p < |run[n].pcs| && !run[n].pcs[p].Idle?
    ensures CanMove(cfg, run[n], q)
  {
    hide Inv, CanMove;
    AlwaysOk(cfg, run, n);
    q := NoDeadlock(cfg, run[n], p);
  }

  // ---------------------------------------------------------------- every operation ends

  /** How many steps an operation has left at most. */
  ghost function StepsLeft(cfg: Config, pc: PC): nat
    decreases pc.Peeking?
  {
    match pc
    case Idle => 0
    case LookingUp(_) => 13
    case Registering(_) => 12
    case Starting(_) => 11
    case Enrolled(_, _, _) => 10
    case Rechecking(_, _) => 9
    case Loading(_, _) => 8
    case Running(_, _) => 7
    case Publishing(_, _, _) => 6
    case Testing(_, _, _) => 5
    case Storing(_, _, _) => 4
    case Leaving(_, _, _) => 3
    case Finishing(_, _, _) => 2
    case Waiting(_, _) => 1
    case Peeking(k, v, d) => StepsLeft(cfg, Locking(GetOrSetKey(k, v, d), 0)) + 1
    case Locking(m, n) => Over(2 * |Plan(cfg, m)|, n) + |Script(cfg, m)|
    case Acting(m, n) => Over(|Script(cfg, m)|, n) + |Plan(cfg, m)|
    case Unlocking(_, n) => n
  }

  ghost function Over(a: nat, b: nat): nat {
    if a > b then a - b else 0
  }

  ghost function TotalLeft(cfg: Config, pcs: seq<PC>): nat {
    if pcs == [] then 0 else TotalLeft(cfg, pcs[..|pcs| - 1]) + StepsLeft(cfg, pcs[|pcs| - 1])
  }

  lemma StepShortens(cfg: Config, p: Pid, pc: PC, move: Move, s: Seg)
    requires Proper(cfg) && PcFits(cfg, pc) && !move.BeginLoad? && !move.BeginMutation?
    ensures var r := Advance(cfg, p, pc, move, s); r.Some? ==> StepsLeft(cfg, r.value.0) < StepsLeft(cfg, pc)
  {
    hide Plan, Script;
    if pc.Locking? || pc.Acting? {
      PlanAscends(cfg, pc.m);
    }
  }

  lemma {:induction false} TotalShortens(cfg: Config, pcs: seq<PC>, p: nat, pc: PC)
    requires p < |pcs|
    ensures TotalLeft(cfg, pcs[p := pc]) == TotalLeft(cfg, pcs) - StepsLeft(cfg, pcs[p]) + StepsLeft(cfg, pc)
  {
    if p < |pcs| - 1 {
      assert pcs[p := pc][..|pcs| - 1] == pcs[..|pcs| - 1][p := pc];
      TotalShortens(cfg, pcs[..|pcs| - 1], p, pc);
    } else {
      assert pcs[p := pc][..|pcs| - 1] == pcs[..|pcs| - 1];
    }
  }

  /** A stretch in which nobody begins anything new. */
  ghost predicate WindingDown(cfg: Config, run: seq<State>) {
    && run != []
    && forall n :: 0 <= n < |run| - 1 ==> CarriesOn(cfg, run[n], run[n + 1])
  }

  ghost predicate CarriesOn(cfg: Config, s: State, s': State) {
    exists p, move: Move :: !move.BeginLoad? && !move.BeginMutation? && ProcessStep(cfg, s, s', p, move)
  }

  ghost predicate CanCarryOn(cfg: Config, s: State) {
    exists s' :: CarriesOn(cfg, s, s')
  }

  /** The operations under way end after a bounded number of steps, however they are interleaved. */
  lemma {:induction false} OperationsEnd(cfg: Config, run: seq<State>)
    requires WindingDown(cfg, run) && Inv(cfg, run[0])
    ensures |run| - 1 + TotalLeft(cfg, run[|run| - 1].pcs) <= TotalLeft(cfg, run[0].pcs)
    ensures Inv(cfg, run[|run| - 1])
  {
    hide Inv, Advance, PcFits, StepsLeft, Target;
    if |run| > 1 {
      var n := |run| - 2;
      OperationsEnd(cfg, run[..n + 1]);
      var s, s' := run[n], run[n + 1];
      assert CarriesOn(cfg, s, s');
      var p: nat, move: Move :| !move.BeginLoad? && !move.BeginMutation? && ProcessStep(cfg, s, s', p, move);
      Fits(cfg, s, p);
      var pc := s.pcs[p];
      StepShortens(cfg, p, pc, move, s.segs[Target(cfg, pc)]);
      TotalShortens(cfg, s.pcs, p, s'.pcs[p]);
      ProcessStepKeeps(cfg, s, s', p, move);
    }
  }

  ghost predicate AllIdle(s: State) {
    forall p :: 0 <= p < |s.pcs| ==> s.pcs[p].Idle?
  }

  /** A process that can move does so in a step that begins nothing. */
  lemma MoveCarriesOn(cfg: Config, s: State, p: Pid) returns (s': State)
    requires Inv(cfg, s) && CanMove(cfg, s, p)
    ensures CarriesOn(cfg, s, s') && Inv(cfg, s') && TotalLeft(cfg, s'.pcs) < TotalLeft(cfg, s.pcs)
  {
    hide Inv, Advance, PcFits, StepsLeft, Target;
    Fits(cfg, s, p);
    var pc := s.pcs[p];
    var i, move := Target(cfg, pc), NextMove(pc);
    var r := Advance(cfg, p, pc, move, s.segs[i]);
    s' := State(s.segs[i := r.value.1], s.pcs[p := r.value.0]);
    assert ProcessStep(cfg, s, s', p, move);
    StepShortens(cfg, p, pc, move, s.segs[i]);
    TotalShortens(cfg, s.pcs, p, r.value.0);
    ProcessStepKeeps(cfg, s, s', p, move);
  }

  /** They end nowhere short of the end: a stretch that cannot be carried on leaves every process idle. */
  lemma StuckMeansIdle(cfg: Config, run: seq<State>)
    requires WindingDown(cfg, run) && Inv(cfg, run[0])
    requires !CanCarryOn(cfg, run[|run| - 1])
    ensures AllIdle(run[|run| - 1])
  {
    hide Inv, CarriesOn, CanMove;
    OperationsEnd(cfg, run);
    var s := run[|run| - 1];
    forall p | 0 <= p < |s.pcs| ensures s.pcs[p].Idle? {
      if !s.pcs[p].Idle? {
        var q := NoDeadlock(cfg, s, p);
        var s' := MoveCarriesOn(cfg, s, q);
      }
    }
  }

  /** From every state the operations under way can all be brought to their end. */
  lemma {:induction false} RunsToIdle(cfg: Config, s: State) returns (run: seq<State>)
    requires Inv(cfg, s)
    ensures WindingDown(cfg, run) && run[0] == s && AllIdle(run[|run| - 1])
    decreases TotalLeft(cfg, s.pcs)
  {
    hide Inv, CarriesOn, CanMove;
    if AllIdle(s) {
      run := [s];
    } else {
      var p :| 0 <= p < |s.pcs| && !s.pcs[p].Idle?;
      var q := NoDeadlock(cfg, s, p);
      var s' := MoveCarriesOn(cfg, s, q);
      var rest := RunsToIdle(cfg, s');
      run := [s] + rest;
      forall n | 0 <= n < |run| - 1 ensures CarriesOn(cfg, run[n], run[n + 1]) {
        assert n > 0 ==> CarriesOn(cfg, rest[n - 1], rest[n - 1 + 1]);
      }
    }
  }

  /** Between operations a process holds no lock and owes no wave. */
  lemma IdleHoldsNothing(cfg: Config, s: State, p: Pid, i: nat)
    requires Inv(cfg, s) && p < |s.pcs| && i < |s.segs| && s.pcs[p].Idle?
    ensures s.segs[i].writer != Some(p) && p !in s.segs[i].readers
    ensures var h := s.segs[i].h;
            |h.lives| == |h.flight.waves| && forall w :: 0 <= w < |h.lives| && h.lives[w].owner == p ==>
                h.flight.waves[w].done
  {
    hide Sound;
    assert PcOk(cfg, p, s.pcs[p], i, s.segs[i]);
  }

  /** Nobody else begins waves: the process of every wave exists. */
  lemma BeginnersExist(cfg: Config, run: seq<State>, n: nat, i: nat, h: History, a: nat)
    requires Reached(cfg, run, n, i, h) && a < |h.log| && h.log[a].BeganWave?
    ensures h.log[a].pid < |run[n].pcs|
  {
    AlwaysOk(cfg, run, n);
    ReachedIsSound(cfg, run, n, i, h);
    BeganAt(h, a, h.log[a].wave, h.log[a].key);
    assert SegOk(cfg, run[n].segs[i]);
  }

  /** A wave has been closed exactly once when the process that began it is idle again. */
  lemma ClosedExactlyOnce(cfg: Config, run: seq<State>, n: nat, i: nat, h: History, a: nat, w: nat) returns (c: nat)
    requires Reached(cfg, run, n, i, h) && a < |h.log| && h.log[a].BeganWave? && h.log[a].wave == w
    requires h.log[a].pid < |run[n].pcs| ==> run[n].pcs[h.log[a].pid].Idle?
    ensures a < c < |h.log| && IsClose(h.log[c], w)
    ensures forall d :: 0 <= d < |h.log| && IsClose(h.log[d], w) ==> d == c
  {
    hide Inv, Execution, Sound, Current, EnteredBy, Barred, Overwritten, HasJoin;
    AlwaysOk(cfg, run, n);
    ReachedIsSound(cfg, run, n, i, h);
    BeganAt(h, a, w, h.log[a].key);
    BeginnersExist(cfg, run, n, i, h, a);
    IdleHoldsNothing(cfg, run[n], h.log[a].pid, i);
    c := h.lives[w].closed.value.at;
    forall d | 0 <= d < |h.log| && IsClose(h.log[d], w) ensures d == c {
      ClosedOnce(cfg, run, n, i, h, w, c, d);
    }
  }
}
