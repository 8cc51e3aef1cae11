/** The promises of the load protocol, as statements about the event log of a segment in any execution. */
module LoadTheorems {
  import opened Types
  import opened Waves
  import opened Histories
  import opened LoadProtocol
  import opened LoadInvariant
  import opened LoadSafety
  import opened LoadSteps

  /** `h` is the history of segment `i` after `n` steps. */
  ghost predicate Reached(cfg: Config, run: seq<State>, n: nat, i: nat, h: History) {
    Execution(cfg, run) && n < |run| && i < |run[n].segs| && h == run[n].segs[i].h
  }

  lemma ReachedIsSound(cfg: Config, run: seq<State>, n: nat, i: nat, h: History)
    requires Reached(cfg, run, n, i, h)
    ensures Sound(h)
  {
    AlwaysOk(cfg, run, n);
    assert SegOk(cfg, run[n].segs[i]);
  }

  /** Wave `w` was registered for `k` at `a`. */
  predicate Began(log: seq<Event>, a: nat, w: nat, k: Key) {
    a < |log| && log[a].BeganWave? && log[a].wave == w && log[a].key == k
  }

  lemma BeganAt(h: History, a: nat, w: nat, k: Key)
    requires Sound(h) && Began(h.log, a, w, k)
    ensures w < |h.lives| && w < |h.flight.waves| && h.lives[w].start == a && h.flight.waves[w].key == k
    ensures Chronicled(h, w) && Judged(h, w)
  {
    assert Told(h, a);
    assert Chronicled(h, w);
  }

  /**
   * Publication safety: nothing is published, and no result is accepted, that a mutation of its key or a clear has
   * overtaken. The same test that decides this is positive only for such a mutation, never for one of another key.
   */
  lemma PublicationSafety(cfg: Config, run: seq<State>, n: nat, i: nat, h: History, a: nat, w: nat, k: Key, t: nat)
    requires Reached(cfg, run, n, i, h) && Began(h.log, a, w, k) && t < |h.log|
    ensures h.log[t].Published? && h.log[t].wave == w ==> a < t && forall b :: a < b < t ==> !Affects(h.log[b], k)
    ensures h.log[t].Tested? && h.log[t].wave == w ==>
              a < t && (h.log[t].forgotten <==> exists b :: a < b < t && Affects(h.log[b], k))
  {
    ReachedIsSound(cfg, run, n, i, h);
    BeganAt(h, a, w, k);
    assert Told(h, t);
  }

  /** A call is marked forgotten exactly if a barrier of its own key, or a clear, came while it was registered. */
  lemma ForgottenExactly(cfg: Config, run: seq<State>, n: nat, i: nat, h: History, a: nat, w: nat, k: Key)
    requires Reached(cfg, run, n, i, h) && Began(h.log, a, w, k)
    ensures w < |h.flight.waves| && (h.flight.waves[w].forgotten <==>
              exists b :: a < b < |h.log| && Affects(h.log[b], k) && forall c :: a < c < b ==> !IsClose(h.log[c], w))
  {
    ReachedIsSound(cfg, run, n, i, h);
    BeganAt(h, a, w, k);
    var l := h.lives[w];
    forall c | a < c < |h.log| && IsClose(h.log[c], w) ensures l.closed.Some? && c == l.closed.value.at {
      assert Told(h, c);
    }
    if l.closed.Some? {
      assert IsClose(h.log[l.closed.value.at], w);
    }
  }

  predicate IsClose(e: Event, w: nat) {
    e.ClosedWave? && e.wave == w
  }

  predicate IsSource(e: Event, w: nat) {
    (e.TookCached? || e.LoaderBegan?) && e.wave == w
  }

  /**
   * Freshness for joiners: what a caller gets from the wave it joined has been read or loaded after
   * every write to the key that precedes the join, even though the wave may have been registered long before.
   */
  lemma JoinersAreFresh(cfg: Config, run: seq<State>, n: nat, i: nat, h: History,
                        a: nat, w: nat, k: Key, j: nat, m: nat, r: nat)
    requires Reached(cfg, run, n, i, h) && Began(h.log, a, w, k)
    requires m < j < |h.log| && h.log[j].JoinedWave? && h.log[j].wave == w
    requires Writes(h.log[m], k) && r < |h.log| && IsSource(h.log[r], w)
    ensures m < a < r
  {
    ReachedIsSound(cfg, run, n, i, h);
    BeganAt(h, a, w, k);
    assert Told(h, j) && Told(h, r);
  }

  /**
   * No caller is handed anything stale: whatever it receives comes from a wave that it has itself entered,
   * and was read or loaded after every write to its key that precedes its entry.
   */
  lemma NothingStale(cfg: Config, run: seq<State>, n: nat, i: nat, h: History, r: nat) returns (j: nat)
    requires Reached(cfg, run, n, i, h) && r < |h.log| && h.log[r].Received?
    ensures j < r && Enters(h.log[j], h.log[r].wave, h.log[r].pid)
    ensures forall e, m, s ::
              (0 <= m < e < r && 0 <= s < |h.log| && Enters(h.log[e], h.log[r].wave, h.log[r].pid)
               && Writes(h.log[m], h.log[e].key) && IsSource(h.log[s], h.log[r].wave)) ==> m < s
  {
    hide Barred, Overwritten, HasJoin, Execution;
    ReachedIsSound(cfg, run, n, i, h);
    var w, p := h.log[r].wave, h.log[r].pid;
    assert Told(h, r);
    j :| 0 <= j < r && Enters(h.log[j], w, p);
    forall e, m, s | 0 <= m < e < r && Enters(h.log[e], w, p) && Writes(h.log[m], h.log[e].key)
                     && 0 <= s < |h.log| && IsSource(h.log[s], w) ensures m < s
    {
      assert Told(h, e) && Told(h, s) && Chronicled(h, w);
      if h.log[e].JoinedWave? {
        JoinersAreFresh(cfg, run, n, i, h, h.lives[w].start, w, h.log[e].key, e, m, s);
      }
    }
  }

  predicate Enters(e: Event, w: nat, p: Pid) {
    (e.BeganWave? || e.JoinedWave?) && e.wave == w && e.pid == p
  }

  /**
   * Every value ever read, by whatever operation, is that of the latest write to its key,
   * or has been loaded by a wave that was registered after the latest write.
   */
  lemma ReadsAreFresh(cfg: Config, run: seq<State>, n: nat, i: nat, h: History, k: Key, r: nat, m: nat)
    requires Reached(cfg, run, n, i, h) && m < r < |h.log| && Writes(h.log[m], k)
    requires || (h.log[r].ReadCached? && h.log[r].key == k)
             || (h.log[r].FoundLive? && h.log[r].key == k)
             || (h.log[r].TookCached? && exists a :: Began(h.log, a, h.log[r].wave, k))
    ensures match h.log[r].origin
            case ByMutation(at) =>
              m <= at < r && h.log[at].Wrote? && h.log[at].key == k && h.log[at].load.Present? && h.log[r].load.Present?
              && h.log[at].load.value == h.log[r].load.value
            case ByWave(w) =>
              exists a, e, t :: m < a < e < t < r && Began(h.log, a, w, k) && PublishedAt(h.log, e, t, w, h.log[r].load)
  {
    hide Barred, HasJoin, EnteredBy, Execution, Judged, InTurn;
    ReachedIsSound(cfg, run, n, i, h);
    assert Told(h, r);
    if h.log[r].TookCached? {
      var a :| Began(h.log, a, h.log[r].wave, k);
      BeganAt(h, a, h.log[r].wave, k);
    }
    match h.log[r].origin
    case ByMutation(at) =>
    case ByWave(w) =>
      assert Chronicled(h, w);
      var l := h.lives[w];
      assert Began(h.log, l.start, w, k) && PublishedAt(h.log, l.end.value.at, l.published.value, w, h.log[r].load);
  }

  /** The loader of `w` ended at `e` with the value of `load`, which was published at `t`. */
  predicate PublishedAt(log: seq<Event>, e: nat, t: nat, w: nat, load: Load) {
    && e < t < |log| && log[e].LoaderEnded? && log[e].wave == w && log[t].Published? && log[t].wave == w
    && load.Present? && log[t].load.Present? && log[t].load.value == load.value
    && log[e].run == Returns(log[t].load, None)
  }

  /** A key leads to a wave exactly while that is registered, not forgotten and not finished; there is one at most. */
  lemma WaveDiscipline(cfg: Config, run: seq<State>, n: nat, i: nat, h: History, v: nat, w: nat)
    requires Reached(cfg, run, n, i, h) && v < |h.flight.waves| && w < |h.flight.waves|
    ensures var f := h.flight;
            && (f.waves[w].key in f.live && f.live[f.waves[w].key] == w <==> !f.waves[w].forgotten && !f.waves[w].done)
            && (f.waves[v].key == f.waves[w].key && Registered(f.waves[v]) && Registered(f.waves[w]) ==> v == w)
  {
    ReachedIsSound(cfg, run, n, i, h);
    if f :| f == h.flight && f.waves[v].key == f.waves[w].key && Registered(f.waves[v]) && Registered(f.waves[w]) {
      OneLiveWave(f, v, w);
    }
  }

  /** Results for a key are published in the order in which their waves were registered. */
  lemma PublishedInTurn(cfg: Config, run: seq<State>, n: nat, i: nat, h: History,
                        a: nat, v: nat, b: nat, w: nat, k: Key, s: nat, t: nat)
    requires Reached(cfg, run, n, i, h) && Began(h.log, a, v, k) && Began(h.log, b, w, k) && v != w
    requires s < |h.log| && t < |h.log|
    requires h.log[s].Published? && h.log[s].wave == v && h.log[t].Published? && h.log[t].wave == w
    ensures a < b <==> s < t
    ensures a < b ==> s < b
  {
    ReachedIsSound(cfg, run, n, i, h);
    BeganAt(h, a, v, k);
    BeganAt(h, b, w, k);
    assert Told(h, s) && Told(h, t);
    assert if v < w then InTurn(h, v, w) else InTurn(h, w, v);
  }

  // ---------------------------------------------------------------- completion

  predicate IsWork(e: Event, w: nat) {
    e.LoaderEnded? || e.Tested? || e.Published? || IsSource(e, w)
  }

  /** A wave is closed at most once, after everything else its owner does, and then leaves its key to others. */
  lemma ClosedOnce(cfg: Config, run: seq<State>, n: nat, i: nat, h: History, w: nat, c: nat, d: nat)
    requires Reached(cfg, run, n, i, h) && c < |h.log| && d < |h.log| && IsClose(h.log[c], w)
    ensures IsClose(h.log[d], w) ==> c == d
    ensures IsWork(h.log[d], w) && h.log[d].wave == w ==> d < c
    ensures h.log[d].Received? && h.log[d].wave == w ==> c < d
    ensures w < |h.flight.waves| && h.flight.waves[w].done
    ensures forall k :: k in h.flight.live ==> h.flight.live[k] != w
  {
    ReachedIsSound(cfg, run, n, i, h);
    assert Told(h, c) && Told(h, d);
    assert Chronicled(h, w) && Judged(h, w);
  }

  /** What the work of a wave comes to, given the events before it was closed. */
  ghost predicate Settled(log: seq<Event>, a: nat, w: nat, k: Key, c: nat, run: Run) {
    || (exists r :: a < r < c < |log| && log[r].TookCached? && log[r].wave == w && run == Returns(log[r].load, None))
    || (exists e :: a < e < c < |log| && log[e].LoaderEnded? && log[e].wave == w &&
          if !Succeeded(log[e].run) then run == Forwarded(log[e].run)
          else exists t :: e < t < c && log[t].Tested? && log[t].wave == w &&
                 run == if Barred(log, k, a, t) then Returns(Missing, Some(LoadSuperseded)) else log[e].run)
  }

  /** For every way in which a loader can end, or need not run, its wave is closed with the right outcome. */
  lemma ClosedRightly(cfg: Config, run: seq<State>, n: nat, i: nat, h: History, a: nat, w: nat, k: Key, c: nat)
    requires Reached(cfg, run, n, i, h) && Began(h.log, a, w, k) && c < |h.log| && IsClose(h.log[c], w)
    ensures Settled(h.log, a, w, k, c, h.log[c].run)
  {
    hide Barred, Overwritten, HasJoin;
    ReachedIsSound(cfg, run, n, i, h);
    BeganAt(h, a, w, k);
    assert Told(h, c);
    var l := h.lives[w];
    match l.source.value
    case FromCache(r, load, _) => assert h.log[r].TookCached?;
    case FromLoader(_) =>
      var e := l.end.value.at;
      assert h.log[e].LoaderEnded?;
      if Succeeded(l.end.value.run) {
        assert h.log[l.test.value.at].Tested?;
      }
  }

  /** The loader succeeded, and a barrier came before the publication test. */
  ghost predicate Overtaken(log: seq<Event>, a: nat, w: nat, k: Key, c: nat) {
    c <= |log| && exists e, t :: a < e < t < c && EndedWell(log[e], w) && IsTest(log[t], w) && Barred(log, k, a, t)
  }

  /** The loader itself returned ErrLoadSuperseded, as one may that has it from another cache. */
  ghost predicate SaidSuperseded(log: seq<Event>, a: nat, w: nat, c: nat) {
    c <= |log| && exists e :: a < e < c && SaysSuperseded(log[e], w)
  }

  predicate SaysSuperseded(e: Event, w: nat) {
    e.LoaderEnded? && e.wave == w && e.run.Returns? && e.run.err == Some(LoadSuperseded)
  }

  /**
   * A wave is closed with ErrLoadSuperseded exactly if its loader succeeded and a barrier came before the publication
   * test, or its loader returned that very error. So the error tells of a barrier, and of nothing else, exactly
   * for loaders that do not return it; both causes never meet.
   */
  lemma SupersededExactly(cfg: Config, run: seq<State>, n: nat, i: nat, h: History, a: nat, w: nat, k: Key, c: nat)
    requires Reached(cfg, run, n, i, h) && Began(h.log, a, w, k) && c < |h.log| && IsClose(h.log[c], w)
    ensures h.log[c].run == Returns(Missing, Some(LoadSuperseded)) <==>
              Overtaken(h.log, a, w, k, c) || SaidSuperseded(h.log, a, w, c)
    ensures !(Overtaken(h.log, a, w, k, c) && SaidSuperseded(h.log, a, w, c))
    ensures !SaidSuperseded(h.log, a, w, c) <==>
              (h.log[c].run == Returns(Missing, Some(LoadSuperseded)) <==> Overtaken(h.log, a, w, k, c))
  {
    hide Barred, Overwritten, HasJoin, EnteredBy, Current;
    ReachedIsSound(cfg, run, n, i, h);
    BeganAt(h, a, w, k);
    assert Told(h, c);
    var l := h.lives[w];
    if l.source.value.FromLoader? {
      var e := l.end.value.at;
      assert h.log[e].LoaderEnded? && Told(h, e);
      assert SaysSuperseded(h.log[e], w) <==> Forwarded(l.end.value.run) == Returns(Missing, Some(LoadSuperseded));
      if l.test.Some? {
        assert EndedWell(h.log[e], w) && IsTest(h.log[l.test.value.at], w);
      }
    }
    forall e | a < e < c && (EndedWell(h.log[e], w) || SaysSuperseded(h.log[e], w))
      ensures l.end == Some(End(e, h.log[e].run))
    {
      assert Told(h, e);
    }
    forall t | a < t < c && IsTest(h.log[t], w) ensures l.test == Some(Test(t, h.log[t].forgotten)) {
      assert Told(h, t);
    }
  }

  predicate EndedWell(e: Event, w: nat) {
    e.LoaderEnded? && e.wave == w && Succeeded(e.run)
  }

  predicate IsTest(e: Event, w: nat) {
    e.Tested? && e.wave == w
  }

  predicate IsJoin(e: Event, w: nat) {
    e.JoinedWave? && e.wave == w
  }

  /** Nobody joins a wave after its close. */
  lemma JoinsBeforeClose(h: History, w: nat, c: nat)
    requires Sound(h) && c < |h.log| && IsClose(h.log[c], w)
    ensures HasJoin(h.log, w) <==> exists j :: 0 <= j < c && IsJoin(h.log[j], w)
  {
    hide Chronicled, Judged, InTurn, Current, Disciplined, Overwritten;
    assert Told(h, c);
    forall j | 0 <= j < |h.log| && IsJoin(h.log[j], w) ensures j < c {
      assert Told(h, j);
    }
    assert HasJoin(h.log, w) <==> exists j :: 0 <= j < c && IsJoin(h.log[j], w);
  }

  /** Everyone who waits for a wave gets what it was closed with, shared exactly if anybody had joined it by then. */
  lemma SameForAll(cfg: Config, run: seq<State>, n: nat, i: nat, h: History, w: nat, r: nat, c: nat)
    requires Reached(cfg, run, n, i, h) && r < |h.log| && c < |h.log|
    requires h.log[r].Received? && h.log[r].wave == w && IsClose(h.log[c], w)
    ensures c < r && h.log[r].awaited == Handed(h.log[c].run, exists j :: 0 <= j < c && IsJoin(h.log[j], w))
  {
    hide HasJoin, InTurn, Current, Disciplined, Overwritten, Barred, Reached, EnteredBy, Concluded;
    ReachedIsSound(cfg, run, n, i, h);
    JoinsBeforeClose(h, w, c);
    assert Told(h, r) && Told(h, c);
    assert Chronicled(h, w) && Judged(h, w);
  }

  /** Somebody who receives from a wave finds it closed. */
  lemma ReceivedAfterClose(cfg: Config, run: seq<State>, n: nat, i: nat, h: History, w: nat, r: nat) returns (c: nat)
    requires Reached(cfg, run, n, i, h) && r < |h.log| && h.log[r].Received? && h.log[r].wave == w
    ensures c < r && IsClose(h.log[c], w)
  {
    ReachedIsSound(cfg, run, n, i, h);
    assert Told(h, r);
    assert Chronicled(h, w);
    c := h.lives[w].closed.value.at;
  }

  /** What those who wait for a wave get when its loader has ended in `r`. */
  ghost predicate Conveys(r: Run, overtaken: bool, a: Awaited) {
    match r
    case Panics(what) => a == Propagated(what)
    case Exits => a == Terminated
    case Returns(_, Some(PanicError(what))) => a == Propagated(what)
    case Returns(_, Some(GoexitError)) => a == Terminated
    case Returns(_, Some(e)) => a.Delivered? && a.val == Missing && a.err == Some(e)
    case Returns(val, None) =>
      && a.Delivered?
      && if overtaken then a.val == Missing && a.err == Some(LoadSuperseded) else a.val == val && a.err == None
  }

  /**
   * From the loader to the caller: the value that the loader has returned is the value that every caller receives,
   * unless a barrier has overtaken it; an error, a panic or an exit comes through as what it is.
   */
  lemma CallersGetTheLoad(cfg: Config, run: seq<State>, n: nat, i: nat, h: History, a: nat, w: nat, k: Key, e: nat,
                          r: nat)
    requires Reached(cfg, run, n, i, h) && Began(h.log, a, w, k) && e < |h.log| && r < |h.log|
    requires h.log[e].LoaderEnded? && h.log[e].wave == w && h.log[r].Received? && h.log[r].wave == w
    ensures Conveys(h.log[e].run, Overtaken(h.log, a, w, k, r), h.log[r].awaited)
  {
    var c := ReceivedAfterClose(cfg, run, n, i, h, w, r);
    SameForAll(cfg, run, n, i, h, w, r, c);
    ClosedAsLoaded(cfg, run, n, i, h, a, w, k, e, c, r);
  }

  /** A wave that has taken the resident entry hands on that entry. */
  lemma CallersGetTheEntry(cfg: Config, run: seq<State>, n: nat, i: nat, h: History, w: nat, t: nat, r: nat)
    requires Reached(cfg, run, n, i, h) && t < |h.log| && r < |h.log|
    requires h.log[t].TookCached? && h.log[t].wave == w && h.log[r].Received? && h.log[r].wave == w
    ensures var a := h.log[r].awaited; a.Delivered? && a.val == h.log[t].load && a.err == None
  {
    hide Barred, HasJoin, EnteredBy, Overwritten;
    var c := ReceivedAfterClose(cfg, run, n, i, h, w, r);
    SameForAll(cfg, run, n, i, h, w, r, c);
    ReachedIsSound(cfg, run, n, i, h);
    assert Told(h, t) && Told(h, c) && Chronicled(h, w);
  }

  lemma ClosedAsLoaded(cfg: Config, run: seq<State>, n: nat, i: nat, h: History, a: nat, w: nat, k: Key, e: nat, c: nat,
                       r: nat)
    requires Reached(cfg, run, n, i, h) && Began(h.log, a, w, k) && e < |h.log| && c < r < |h.log|
    requires h.log[e].LoaderEnded? && h.log[e].wave == w && IsClose(h.log[c], w)
    ensures h.log[c].run ==
              if !Succeeded(h.log[e].run) then Forwarded(h.log[e].run)
              else if Overtaken(h.log, a, w, k, r) then Returns(Missing, Some(LoadSuperseded))
              else h.log[e].run
  {
    hide Barred, Overwritten, HasJoin, EnteredBy, Current;
    ReachedIsSound(cfg, run, n, i, h);
    BeganAt(h, a, w, k);
    assert Told(h, c) && Told(h, e);
    var l := h.lives[w];
    if l.test.Some? {
      var t := l.test.value.at;
      assert EndedWell(h.log[e], w) && IsTest(h.log[t], w);
    }
    forall t | a < t < r && IsTest(h.log[t], w) ensures l.test == Some(Test(t, h.log[t].forgotten)) {
      assert Told(h, t);
    }
  }

  // ---------------------------------------------------------------- from state to state

  /** A log is never rewritten, and a closed wave never changes again. */
  ghost predicate Extends(h: History, h': History) {
    && h.log <= h'.log
    && |h.flight.waves| <= |h'.flight.waves|
    && (forall w :: 0 <= w < |h.flight.waves| && h.flight.waves[w].done ==> h'.flight.waves[w] == h.flight.waves[w])
  }

  lemma ActionExtends(h: History, a: Action)
    requires Disciplined(h.flight)
    ensures Extends(h, Did(h, a))
  {
  }

  lemma LoadExtends(cfg: Config, p: Pid, pc: PC, i: nat, s: Seg)
    requires Ready(cfg, p, pc, i, s)
    ensures var r := LoadStep(p, pc, s); r.Some? ==> Extends(s.h, r.value.1.h)
  {
    Matches(s.h);
  }

  lemma StepExtends(cfg: Config, s: State, s': State, i: nat)
    requires Inv(cfg, s) && Step(cfg, s, s') && i < |s.segs|
    ensures |s'.segs| == |s.segs| && Extends(s.segs[i].h, s'.segs[i].h)
  {
    hide Inv, LoadStep, Sound, Did;
    if p: nat, move :| ProcessStep(cfg, s, s', p, move) {
      var pc := s.pcs[p];
      StepReady(cfg, s, p);
      var seg := s.segs[Target(cfg, pc)];
      Matches(seg.h);
      LoadExtends(cfg, p, pc, Target(cfg, pc), seg);
      if pc.Acting? {
        ActionExtends(seg.h, Script(cfg, pc.m)[pc.at]);
      }
    }
  }

  lemma StepReady(cfg: Config, s: State, p: Pid)
    requires Inv(cfg, s) && p < |s.pcs| && Target(cfg, s.pcs[p]) < |s.segs|
    ensures var i := Target(cfg, s.pcs[p]); Ready(cfg, p, s.pcs[p], i, s.segs[i])
  {
  }

  /** So whatever the log of a segment says in one state, it still says in every later state. */
  lemma {:induction false} LogsOnlyGrow(cfg: Config, run: seq<State>, m: nat, n: nat, i: nat)
    requires Execution(cfg, run) && m <= n < |run| && i < cfg.segments
    ensures i < |run[m].segs| && i < |run[n].segs| && Extends(run[m].segs[i].h, run[n].segs[i].h)
  {
    hide Step, Inv;
    AlwaysOk(cfg, run, m);
    SegmentCount(cfg, run[m]);
    if m < n {
      LogsOnlyGrow(cfg, run, m, n - 1, i);
      AlwaysOk(cfg, run, n - 1);
      StepExtends(cfg, run[n - 1], run[n - 1 + 1], i);
      assert run[n - 1].segs[i].h.log <= run[n].segs[i].h.log;
    }
  }

  lemma SegmentCount(cfg: Config, s: State)
    requires Inv(cfg, s)
    ensures |s.segs| == cfg.segments && |s.pcs| == cfg.processes
  {
  }
}
