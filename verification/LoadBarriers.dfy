/** Barriers and writes in the log of a segment: each barrier is followed by what its mutation finds or leaves. */
module Brackets {
  import opened Types
  import opened Histories

  predicate IsBarrier(e: Event) {
    e.Barrier? || e.BarrierAll?
  }

  predicate IsAnswer(e: Event) {
    e.Wrote? || e.WroteAll? || e.FoundLive?
  }

  /** What happens only under a read lock. */
  predicate IsReaders(e: Event) {
    e.BeganWave? || e.JoinedWave? || e.Tested? || e.Published?
  }

  /** `e` completes what the barrier `b` has begun: a write, or what only GetOrSet may find, a live entry. */
  predicate AnswersTo(b: Event, e: Event) {
    match b
    case Barrier(k, cause) => (e.Wrote? && e.key == k) || (e.FoundLive? && e.key == k && cause == ByGetOrSet)
    case BarrierAll => e.WroteAll?
    case _ => false
  }

  /** The barrier that is still to be answered, if any. */
  function Open(log: seq<Event>): (o: Option<nat>)
    ensures o.Some? ==> o.value < |log| && IsBarrier(log[o.value])
  {
    if log == [] then None else
      var e := log[|log| - 1];
      if IsBarrier(e) then Some(|log| - 1) else if IsAnswer(e) then None else Open(log[..|log| - 1])
  }

  predicate MayFollow(log: seq<Event>, e: Event) {
    if IsAnswer(e) then Open(log).Some? && AnswersTo(log[Open(log).value], e)
    else if IsBarrier(e) || IsReaders(e) then Open(log).None?
    else true
  }

  /** Between a barrier and its answer nothing is registered, tested or published, and there is no other barrier. */
  predicate Bracketed(log: seq<Event>) {
    log == [] || (Bracketed(log[..|log| - 1]) && MayFollow(log[..|log| - 1], log[|log| - 1]))
  }

  lemma Follows(log: seq<Event>, e: Event)
    ensures Bracketed(log + [e]) <==> Bracketed(log) && MayFollow(log, e)
    ensures Open(log + [e]) == if IsBarrier(e) then Some(|log|) else if IsAnswer(e) then None else Open(log)
  {
    assert (log + [e])[..|log|] == log;
  }

  lemma {:induction false} BracketedBefore(log: seq<Event>, m: nat)
    requires Bracketed(log) && m < |log|
    ensures Bracketed(log[..m]) && MayFollow(log[..m], log[m])
  {
    if m < |log| - 1 {
      BracketedBefore(log[..|log| - 1], m);
      assert log[..|log| - 1][..m] == log[..m];
    }
  }

  /** `m` answers the barrier at `b`, and nothing of account happens in between. */
  ghost predicate Answered(log: seq<Event>, b: nat, m: nat) {
    && b < m < |log| && AnswersTo(log[b], log[m])
    && forall i :: b < i < m ==> !IsBarrier(log[i]) && !IsAnswer(log[i]) && !IsReaders(log[i])
  }

  /** Since an open barrier nothing of account has happened. */
  lemma {:induction false} OpenMeans(log: seq<Event>)
    requires Bracketed(log) && Open(log).Some?
    ensures forall i :: Open(log).value < i < |log| ==> !IsBarrier(log[i]) && !IsAnswer(log[i]) && !IsReaders(log[i])
  {
    var init, e := log[..|log| - 1], log[|log| - 1];
    if !IsBarrier(e) {
      OpenMeans(init);
      forall i | Open(log).value < i < |log| ensures !IsBarrier(log[i]) && !IsAnswer(log[i]) && !IsReaders(log[i]) {
        assert i < |log| - 1 ==> init[i] == log[i];
      }
    }
  }

  /** Every write, and every live entry found under the lock, answers a barrier of its own. */
  lemma AnswersHaveBarriers(log: seq<Event>, m: nat) returns (b: nat)
    requires Bracketed(log) && m < |log| && IsAnswer(log[m])
    ensures Answered(log, b, m)
  {
    BracketedBefore(log, m);
    OpenMeans(log[..m]);
    b := Open(log[..m]).value;
    forall i | b < i < m ensures !IsBarrier(log[i]) && !IsAnswer(log[i]) && !IsReaders(log[i]) {
      assert log[..m][i] == log[i];
    }
  }

  /** Every barrier that is not open has been answered. */
  lemma {:induction false} BarriersAreAnswered(log: seq<Event>, b: nat) returns (m: nat)
    requires Bracketed(log) && b < |log| && IsBarrier(log[b]) && Open(log) != Some(b)
    ensures Answered(log, b, m)
  {
    var n := |log| - 1;
    var init, e := log[..n], log[n];
    if Open(init) == Some(b) {
      m := n;
      OpenMeans(init);
      forall i | b < i < m ensures !IsBarrier(log[i]) && !IsAnswer(log[i]) && !IsReaders(log[i]) {
        assert init[i] == log[i];
      }
    } else {
      m := BarriersAreAnswered(init, b);
      forall i | b < i < m ensures !IsBarrier(log[i]) && !IsAnswer(log[i]) && !IsReaders(log[i]) {
        assert init[i] == log[i];
      }
    }
  }

  /** A barrier has one answer. */
  lemma OneAnswer(log: seq<Event>, b: nat, m: nat, m': nat)
    requires Answered(log, b, m) && Answered(log, b, m')
    ensures m == m'
  {
  }

  /** The barrier at `b` is a GetOrSet's that found a live entry before `t` and left it alone. */
  ghost predicate LeftAlone(log: seq<Event>, b: nat, k: Key, t: nat) {
    && b < |log| && log[b] == Barrier(k, ByGetOrSet)
    && exists m :: b < m < t && Answered(log, b, m) && log[m].FoundLive?
  }

  /**
   * Between the registration of a wave and its publication test, its key has not been written exactly if
   * every barrier for it was set by a GetOrSet that found a live entry.
   */
  lemma UnwrittenExactly(log: seq<Event>, a: nat, k: Key, t: nat)
    requires Bracketed(log) && a < t < |log| && log[a].BeganWave? && log[t].Tested?
    ensures !Overwritten(log, k, a, t) <==> forall b :: a < b < t && Affects(log[b], k) ==> LeftAlone(log, b, k, t)
  {
    BracketedBefore(log, t);
    if !Overwritten(log, k, a, t) {
      forall b | a < b < t && Affects(log[b], k) ensures LeftAlone(log, b, k, t) {
        assert log[..t][b] == log[b];
        var m := BarriersAreAnswered(log[..t], b);
        forall i | b < i <= m ensures log[..t][i] == log[i] {
        }
        assert Answered(log, b, m);
        assert !Writes(log[m], k);
      }
    }
    if i :| a < i < t && Writes(log[i], k) {
      var b := AnswersHaveBarriers(log, i);
      assert Affects(log[b], k) && a < b;
      if LeftAlone(log, b, k, t) {
        var m :| b < m < t && Answered(log, b, m) && log[m].FoundLive?;
        OneAnswer(log, b, m, i);
      }
    }
  }
}

/** Every log of the load protocol is bracketed. */
module LoadBarriers {
  import opened Types
  import opened Waves
  import opened Histories
  import opened Brackets
  import opened LockPlans
  import opened LoadProtocol
  import opened LoadInvariant
  import opened LoadSteps
  import opened LoadSafety
  import opened LoadTheorems

  /** The barrier of segment `i` that a mutation has set and not yet answered after `n` of its actions. */
  ghost function Owed(cfg: Config, m: Mutation, n: nat, i: nat): Option<Event> {
    if m.ClearAll? then
      if i < n <= cfg.segments + i then Some(BarrierAll) else None
    else if 0 < n <= |Script(cfg, m)| && Script(cfg, m)[n - 1].Forget? && Where(cfg, Script(cfg, m)[n - 1]) == i then
      Some(Barrier(Script(cfg, m)[n - 1].key, Script(cfg, m)[n - 1].cause))
    else None
  }

  ghost function OpenEvent(log: seq<Event>): Option<Event> {
    if Open(log).Some? then Some(log[Open(log).value]) else None
  }

  /** Under its lock a mutation owes exactly what is open. */
  ghost predicate Owes(cfg: Config, pc: PC, i: nat, log: seq<Event>) {
    HoldsWrite(cfg, pc, i) ==> OpenEvent(log) == if pc.Acting? then Owed(cfg, pc.m, pc.at, i) else None
  }

  ghost predicate Orderly(cfg: Config, s: State) {
    && Inv(cfg, s)
    && (forall i :: 0 <= i < |s.segs| ==>
          Bracketed(s.segs[i].h.log) && (s.segs[i].writer.None? ==> Open(s.segs[i].h.log).None?))
    && (forall p, i :: 0 <= p < |s.pcs| && 0 <= i < |s.segs| ==> Owes(cfg, s.pcs[p], i, s.segs[i].h.log))
  }

  /** What a step of a load adds to the log: nothing, or one event that may follow while no writer is there. */
  lemma LoadLogs(cfg: Config, p: Pid, pc: PC, i: nat, s: Seg)
    requires Ready(cfg, p, pc, i, s) && Bracketed(s.h.log) && (s.writer.None? ==> Open(s.h.log).None?)
    ensures var r := LoadStep(p, pc, s);
            r.Some? ==> Bracketed(r.value.1.h.log) && Open(r.value.1.h.log) == Open(s.h.log) &&
                        r.value.1.writer == s.writer && OpenEvent(r.value.1.h.log) == OpenEvent(s.h.log)
  {
    hide Bracketed, Open, Sound, EnteredBy, Concluded, Succeeding;
    var r := LoadStep(p, pc, s);
    if r.Some? && r.value.1.h.log != s.h.log {
      var e := r.value.1.h.log[|s.h.log|];
      assert r.value.1.h.log == s.h.log + [e];
      Follows(s.h.log, e);
    }
  }

  /** How an action changes what is owed: a barrier is owed from the forgetting to the write. */
  ghost predicate Settles(cfg: Config, m: Mutation, n: nat, next: nat)
    requires n < |Script(cfg, m)| && next == n + 1
  {
    var a, i := Script(cfg, m)[n], Where(cfg, Script(cfg, m)[n]);
    && (a.Forget? ==> Owed(cfg, m, n, i) == None && Owed(cfg, m, next, i) == Some(Barrier(a.key, a.cause)))
    && (a.ForgetEvery? ==> Owed(cfg, m, n, i) == None && Owed(cfg, m, next, i) == Some(BarrierAll))
    && (WritesKey(a) ==> Owed(cfg, m, n, i) == Some(Barrier(a.key, CauseOf(m))) && Owed(cfg, m, next, i) == None)
    && (a.PutIfAbsent? ==> CauseOf(m) == ByGetOrSet)
    && (a.RemoveEvery? ==> Owed(cfg, m, n, i) == Some(BarrierAll) && Owed(cfg, m, next, i) == None)
    && (forall j :: 0 <= j < cfg.segments && j != i ==> Owed(cfg, m, next, j) == Owed(cfg, m, n, j))
    && (next == |Script(cfg, m)| ==> forall j :: 0 <= j < cfg.segments ==> Owed(cfg, m, next, j) == None)
  }

  lemma DeleteSettles(cfg: Config, keys: seq<Key>, n: nat)
    requires Proper(cfg) && n < |Script(cfg, DeleteKeys(keys))|
    ensures Settles(cfg, DeleteKeys(keys), n, n + 1)
  {
    hide Script;
    ScriptSize(cfg, keys);
    DeleteForgetsFirst(cfg, keys, n);
    if n > 0 {
      DeleteForgetsFirst(cfg, keys, n - 1);
    }
  }

  lemma ScriptSize(cfg: Config, keys: seq<Key>)
    ensures |Script(cfg, DeleteKeys(keys))| == 2 * |keys| && |Script(cfg, ClearAll)| == 2 * cfg.segments
  {
  }

  lemma ClearSettles(cfg: Config, n: nat)
    requires Proper(cfg) && n < |Script(cfg, ClearAll)|
    ensures Settles(cfg, ClearAll, n, n + 1)
  {
    hide Script;
    ScriptSize(cfg, []);
    ClearForgetsFirst(cfg, n);
  }

  lemma ActionsSettle(cfg: Config, m: Mutation, n: nat)
    requires Proper(cfg) && n < |Script(cfg, m)|
    ensures Settles(cfg, m, n, n + 1)
  {
    match m
    case DeleteKeys(keys) => DeleteSettles(cfg, keys, n);
    case ClearAll => ClearSettles(cfg, n);
    case _ =>
  }

  /** What an action adds to the log. */
  lemma ActionLogs(cfg: Config, m: Mutation, n: nat, h: History)
    requires Proper(cfg) && n < |Script(cfg, m)|
    requires Bracketed(h.log) && OpenEvent(h.log) == Owed(cfg, m, n, Where(cfg, Script(cfg, m)[n]))
    ensures var h' := Did(h, Script(cfg, m)[n]);
            Bracketed(h'.log) && OpenEvent(h'.log) == Owed(cfg, m, n + 1, Where(cfg, Script(cfg, m)[n]))
  {
    hide Bracketed, Open, Script, Owed;
    ActionsSettle(cfg, m, n);
    var h' := Did(h, Script(cfg, m)[n]);
    Follows(h.log, h'.log[|h.log|]);
    assert h'.log == h.log + [h'.log[|h.log|]];
  }

  /** What has to be shown of a step of `p` on its target segment. */
  ghost predicate StaysOrderly(cfg: Config, p: Pid, pc': PC, i: nat, s: Seg, s': Seg) {
    && Bracketed(s'.h.log) && (s'.writer.None? ==> Open(s'.h.log).None?)
    && Owes(cfg, pc', i, s'.h.log)
    && (s.writer.Some? && s.writer != Some(p) ==> OpenEvent(s'.h.log) == OpenEvent(s.h.log))
  }

  ghost predicate OrderlyHere(cfg: Config, p: Pid, pc: PC, i: nat, s: Seg) {
    && Ready(cfg, p, pc, i, s) && i < cfg.segments
    && Bracketed(s.h.log) && (s.writer.None? ==> Open(s.h.log).None?) && Owes(cfg, pc, i, s.h.log)
  }

  lemma LoadOwes(cfg: Config, p: Pid, pc: PC, i: nat, s: Seg)
    requires OrderlyHere(cfg, p, pc, i, s)
    ensures var r := LoadStep(p, pc, s); r.Some? ==> StaysOrderly(cfg, p, r.value.0, i, s, r.value.1)
  {
    hide Bracketed, Open, Owed, PcOk, SegOk, Proper;
    LoadLogs(cfg, p, pc, i, s);
    Unheld(cfg, p, pc, s, i);
  }

  /** A load never comes to hold a write lock. */
  lemma Unheld(cfg: Config, p: Pid, pc: PC, s: Seg, i: nat)
    ensures LoadStep(p, pc, s).Some? ==> !HoldsWrite(cfg, LoadStep(p, pc, s).value.0, i)
  {
  }

  lemma LoaderOwes(cfg: Config, p: Pid, pc: PC, run: Run, i: nat, s: Seg)
    requires OrderlyHere(cfg, p, pc, i, s)
    ensures var r := Advance(cfg, p, pc, LoaderReturns(run), s); r.Some? ==>
              StaysOrderly(cfg, p, r.value.0, i, s, r.value.1)
  {
    hide Bracketed, Open, Owed, PcOk, SegOk, Proper;
    if pc.Running? {
      Follows(s.h.log, LoaderEnded(pc.wave, run));
    }
  }

  lemma GiveUpOwes(cfg: Config, p: Pid, pc: PC, i: nat, s: Seg)
    requires OrderlyHere(cfg, p, pc, i, s)
    ensures StaysOrderly(cfg, p, Idle, i, s, s)
  {
  }

  lemma LockOwes(cfg: Config, p: Pid, pc: PC, i: nat, s: Seg)
    requires OrderlyHere(cfg, p, pc, i, s) && (pc.Locking? || pc.Unlocking?)
    ensures var r := MutationStep(cfg, p, pc, s); r.Some? ==> StaysOrderly(cfg, p, r.value.0, i, s, r.value.1)
  {
    hide Bracketed, Open, Script, Plan, Sound, SegmentSet;
    PlanAscends(cfg, pc.m);
    OneMoreLock(Plan(cfg, pc.m), if pc.Locking? then pc.at else pc.at - 1);
  }

  lemma ActOwes(cfg: Config, p: Pid, pc: PC, i: nat, s: Seg)
    requires OrderlyHere(cfg, p, pc, i, s) && pc.Acting?
    ensures var r := MutationStep(cfg, p, pc, s); r.Some? ==> StaysOrderly(cfg, p, r.value.0, i, s, r.value.1)
  {
    hide Bracketed, Open, Script, Plan, Owed, Did, Sound, SegmentSet;
    PlanAscends(cfg, pc.m);
    OneMoreLock(Plan(cfg, pc.m), 0);
    ScriptCovered(cfg, pc.m, pc.at);
    ActionLogs(cfg, pc.m, pc.at, s.h);
    ActionsSettle(cfg, pc.m, pc.at);
  }

  lemma StepOwes(cfg: Config, p: Pid, pc: PC, move: Move, i: nat, s: Seg)
    requires OrderlyHere(cfg, p, pc, i, s)
    ensures var r := Advance(cfg, p, pc, move, s);
            r.Some? && !pc.Idle? ==> StaysOrderly(cfg, p, r.value.0, i, s, r.value.1)
  {
    hide OrderlyHere, StaysOrderly, MutationStep, LoadStep;
    match move
    case Proceed =>
      if pc.Acting? {
        ActOwes(cfg, p, pc, i, s);
      } else if pc.Locking? || pc.Unlocking? {
        LockOwes(cfg, p, pc, i, s);
      } else {
        LoadOwes(cfg, p, pc, i, s);
      }
    case LoaderReturns(run) => LoaderOwes(cfg, p, pc, run, i, s);
    case GiveUp => GiveUpOwes(cfg, p, pc, i, s);
    case _ =>
  }

  /** On any other segment the process owes what it did. */
  lemma OwesElsewhere(cfg: Config, p: Pid, pc: PC, move: Move, i: nat, s: Seg, j: nat, log: seq<Event>)
    requires Proper(cfg) && i == Target(cfg, pc) && PcFits(cfg, pc) && Owes(cfg, pc, j, log) && j < cfg.segments
    requires j != i || pc.Idle?
    ensures var r := Advance(cfg, p, pc, move, s); r.Some? ==> Owes(cfg, r.value.0, j, log)
  {
    hide Plan, Script, SegmentSet, Owed, Did, OpenEvent, LoadStep, Ascending;
    if pc.Locking? || pc.Acting? || pc.Unlocking? {
      PlanAscends(cfg, pc.m);
      if pc.Acting? {
        OneMoreLock(Plan(cfg, pc.m), 0);
        ActionsSettle(cfg, pc.m, pc.at);
      } else {
        OneMoreLock(Plan(cfg, pc.m), if pc.Locking? then pc.at else pc.at - 1);
      }
      if pc.Locking? && pc.at + 1 == |Plan(cfg, pc.m)| {
        NothingOwedYet(cfg, pc.m, j);
      }
    } else if move.BeginMutation? {
      Beginning(cfg, move.m);
    } else {
      Unheld(cfg, p, pc, s, j);
    }
  }

  lemma NothingOwedYet(cfg: Config, m: Mutation, j: nat)
    ensures Owed(cfg, m, 0, j) == None
  {
  }

  lemma ProcessStepOrderly(cfg: Config, s: State, s': State, p: Pid, move: Move)
    requires Orderly(cfg, s) && ProcessStep(cfg, s, s', p, move)
    ensures Orderly(cfg, s')
  {
    hide Inv, Bracketed, Open, Owes, Advance, Target, Ready, PcFits, Guarantee, Proper, OpenEvent;
    ProcessStepKeeps(cfg, s, s', p, move);
    Fits(cfg, s, p);
    StepReady(cfg, s, p);
    var pc := s.pcs[p];
    var i := Target(cfg, pc);
    var seg, seg' := s.segs[i], s'.segs[i];
    ReadyInvariant(cfg, p, pc, i, seg);
    StepOwes(cfg, p, pc, move, i, seg);
    IdleSteps(cfg, p, pc, move, i, seg);
    forall j | 0 <= j < |s.segs| && (j != i || pc.Idle?) ensures Owes(cfg, s'.pcs[p], j, s'.segs[j].h.log) {
      OwesElsewhere(cfg, p, pc, move, i, seg, j, s.segs[j].h.log);
    }
    forall q | 0 <= q < |s.pcs| && q != p ensures Owes(cfg, s'.pcs[q], i, seg'.h.log) {
      OthersOwe(cfg, s, p, q, i, seg'.h.log);
    }
  }

  lemma ReadyInvariant(cfg: Config, p: Pid, pc: PC, i: nat, s: Seg)
    requires Ready(cfg, p, pc, i, s)
    ensures SegOk(cfg, s)
  {
  }

  lemma OthersOwe(cfg: Config, s: State, p: Pid, q: Pid, i: nat, log: seq<Event>)
    requires Inv(cfg, s) && q < |s.pcs| && q != p && i < |s.segs| && Owes(cfg, s.pcs[q], i, s.segs[i].h.log)
    requires s.segs[i].writer.Some? && s.segs[i].writer != Some(p) ==> OpenEvent(log) == OpenEvent(s.segs[i].h.log)
    ensures Owes(cfg, s.pcs[q], i, log)
  {
    hide OpenEvent, Owed, Plan;
    assert PcOk(cfg, q, s.pcs[q], i, s.segs[i]);
  }

  lemma StepOrderly(cfg: Config, s: State, s': State)
    requires Orderly(cfg, s) && Step(cfg, s, s')
    ensures Orderly(cfg, s')
  {
    hide Inv, ProcessStep, Bracketed, Open, Owes;
    StepKeeps(cfg, s, s');
    if p: nat, move :| ProcessStep(cfg, s, s', p, move) {
      ProcessStepOrderly(cfg, s, s', p, move);
    }
  }

  /** In every reachable state every log is bracketed, and nothing is open but under a write lock. */
  lemma {:induction false} AlwaysOrderly(cfg: Config, run: seq<State>, n: nat)
    requires Execution(cfg, run) && n < |run|
    ensures Orderly(cfg, run[n])
  {
    hide Inv, Step, Bracketed, Open, Owes;
    if n == 0 {
      InitiallyOrderly(cfg, run[0]);
    } else {
      AlwaysOrderly(cfg, run, n - 1);
      StepOrderly(cfg, run[n - 1], run[n - 1 + 1]);
    }
  }

  lemma InitiallyOrderly(cfg: Config, s: State)
    requires Proper(cfg) && Initial(cfg, s)
    ensures Orderly(cfg, s)
  {
    hide Inv;
    InitialOk(cfg, s);
  }

  /**
   * What a barrier found by the publication test stands for. Documented is a write of the key; in the code it may
   * also be a GetOrSet that found a live entry under the lock and wrote nothing. The test finds a barrier without
   * any write since the registration exactly if every barrier was of that kind.
   */
  lemma BarredWithoutWrite(cfg: Config, run: seq<State>, n: nat, i: nat, h: History, a: nat, w: nat, k: Key, t: nat)
    requires Reached(cfg, run, n, i, h) && Began(h.log, a, w, k) && t < |h.log| && h.log[t] == Tested(w, true)
    ensures !Overwritten(h.log, k, a, t) <==>
              forall b :: a < b < t && Affects(h.log[b], k) ==> LeftAlone(h.log, b, k, t)
    ensures exists b :: a < b < t && Affects(h.log[b], k)
  {
    hide Bracketed, Inv, Owes, LeftAlone, Overwritten, Affects, Execution;
    AlwaysOrderly(cfg, run, n);
    PublicationSafety(cfg, run, n, i, h, a, w, k, t);
    UnwrittenExactly(h.log, a, k, t);
  }

  /**
   * When a wave ends in ErrLoadSuperseded though its loader did not say so, a barrier came before its test; and its key
   * has not been written since its registration exactly if all such barriers were GetOrSets that found a live entry.
   */
  lemma SupersededWithoutWrite(cfg: Config, run: seq<State>, n: nat, i: nat, h: History, a: nat, w: nat, k: Key, c: nat)
    returns (t: nat)
    requires Reached(cfg, run, n, i, h) && Began(h.log, a, w, k) && c < |h.log| && IsClose(h.log[c], w)
    requires h.log[c].run == Returns(Missing, Some(LoadSuperseded)) && !SaidSuperseded(h.log, a, w, c)
    ensures a < t < c && h.log[t] == Tested(w, true)
    ensures exists b :: a < b < t && Affects(h.log[b], k)
    ensures !Overwritten(h.log, k, a, t) <==>
              forall b :: a < b < t && Affects(h.log[b], k) ==> LeftAlone(h.log, b, k, t)
  {
    hide Inv, LeftAlone, Overwritten, Affects, Execution, Barred;
    SupersededExactly(cfg, run, n, i, h, a, w, k, c);
    var e, test :| a < e < test < c && EndedWell(h.log[e], w) && IsTest(h.log[test], w) && Barred(h.log, k, a, test);
    t := test;
    TestIsPositive(h.log, k, a, t);
    PublicationSafety(cfg, run, n, i, h, a, w, k, t);
    BarredWithoutWrite(cfg, run, n, i, h, a, w, k, t);
  }

  lemma TestIsPositive(log: seq<Event>, k: Key, a: nat, t: nat)
    requires t < |log| && Barred(log, k, a, t)
    ensures exists b :: a < b < t && Affects(log[b], k)
  {
  }
}
