/** Singleflight waves as values: what a group knows of the calls it has registered. */
module Waves {
  import opened Types

  /** A load result; `Missing` is also the zero value. */
  datatype Load = Missing | Present(value: Value, deadline: Nanos)

  datatype Failure = LoaderError(code: int) | LoadSuperseded | PanicError(what: int) | GoexitError

  /** How the work of a wave ends. */
  datatype Run = Returns(val: Load, err: Option<Failure>) | Panics(what: int) | Exits

  datatype Wave = Wave(key: Key, dups: nat, forgotten: bool, done: bool, val: Load, err: Option<Failure>)

  /** What a waiter gets from a completed wave. */
  datatype Awaited = Propagated(what: int) | Terminated | Delivered(val: Load, err: Option<Failure>, shared: bool)

  /** All waves ever registered, in registration order, and the wave that each key would join. */
  datatype Flight = Flight(waves: seq<Wave>, live: map<Key, nat>)

  function ValOf(run: Run): Load {
    if run.Returns? then run.val else Missing
  }

  function ErrOf(run: Run): Option<Failure> {
    match run
    case Returns(_, err) => err
    case Panics(what) => Some(PanicError(what))
    case Exits => Some(GoexitError)
  }

  function Outcome(w: Wave): Awaited {
    match w.err
    case Some(PanicError(what)) => Propagated(what)
    case Some(GoexitError) => Terminated
    case _ => Delivered(w.val, w.err, w.dups > 0)
  }

  /**
   * What a waiter gets when the work has come to `run`. A panic or an exit that the work returns as an error takes
   * effect again.
   */
  function Handed(run: Run, shared: bool): Awaited {
    match run
    case Panics(what) => Propagated(what)
    case Exits => Terminated
    case Returns(val, err) =>
      match err {
        case Some(PanicError(what)) => Propagated(what)
        case Some(GoexitError) => Terminated
        case _ => Delivered(val, err, shared)
      }
  }

  /** The wave that a caller for `k` gets. */
  function Handle(f: Flight, k: Key): nat {
    if k in f.live then f.live[k] else |f.waves|
  }

  function Started(f: Flight, k: Key): Flight {
    if k in f.live && f.live[k] < |f.waves| then
      var w := f.live[k];
      f.(waves := f.waves[w := f.waves[w].(dups := f.waves[w].dups + 1)])
    else
      Flight(f.waves + [Wave(k, 0, false, false, Missing, None)], f.live[k := |f.waves|])
  }

  function Forgot(f: Flight, k: Key): Flight {
    if k in f.live && f.live[k] < |f.waves| then
      var w := f.live[k];
      Flight(f.waves[w := f.waves[w].(forgotten := true)], f.live - {k})
    else
      f
  }

  function ForgotAll(f: Flight): Flight {
    Flight(seq(|f.waves|, w requires 0 <= w < |f.waves| =>
                 if f.waves[w].key in f.live && f.live[f.waves[w].key] == w then f.waves[w].(forgotten := true)
                 else f.waves[w]),
           map[])
  }

  function Finished(f: Flight, w: nat, val: Load, err: Option<Failure>): Flight
    requires w < |f.waves|
  {
    var k := f.waves[w].key;
    Flight(f.waves[w := f.waves[w].(done := true, val := val, err := err)],
           if k in f.live && f.live[k] == w then f.live - {k} else f.live)
  }

  predicate Registered(w: Wave) {
    !w.forgotten && !w.done
  }

  /**
   * A key leads to a wave exactly if the wave is registered for it, not forgotten and not finished. Until then it
   * has no outcome.
   */
  ghost predicate Disciplined(f: Flight) {
    && (forall k :: k in f.live ==> f.live[k] < |f.waves| && f.waves[f.live[k]].key == k)
    && (forall w :: 0 <= w < |f.waves| ==>
          (Registered(f.waves[w]) <==> f.waves[w].key in f.live && f.live[f.waves[w].key] == w))
    && (forall w :: 0 <= w < |f.waves| && !f.waves[w].done ==> f.waves[w].val == Missing && f.waves[w].err == None)
  }

  lemma StartDiscipline(f: Flight, k: Key)
    requires Disciplined(f)
    ensures Disciplined(Started(f, k))
  {
  }

  lemma ForgetDiscipline(f: Flight, k: Key)
    requires Disciplined(f)
    ensures Disciplined(Forgot(f, k))
  {
  }

  lemma ForgetAllDiscipline(f: Flight)
    requires Disciplined(f)
    ensures Disciplined(ForgotAll(f))
  {
  }

  lemma FinishDiscipline(f: Flight, w: nat, val: Load, err: Option<Failure>)
    requires Disciplined(f) && w < |f.waves|
    ensures Disciplined(Finished(f, w, val, err))
  {
  }

  /** No key has two waves that could still publish. */
  lemma OneLiveWave(f: Flight, v: nat, w: nat)
    requires Disciplined(f) && v < |f.waves| && w < |f.waves|
    requires Registered(f.waves[v]) && Registered(f.waves[w]) && f.waves[v].key == f.waves[w].key
    ensures v == w
  {
    assert f.live[f.waves[v].key] == v;
  }

  /** The end of a wave frees its key unless a newer wave has it by then, and leaves every other key as it was. */
  lemma FinishedFrees(f: Flight, w: nat, val: Load, err: Option<Failure>)
    requires Disciplined(f) && w < |f.waves| && !f.waves[w].done
    ensures var k, f' := f.waves[w].key, Finished(f, w, val, err);
            && (f.waves[w].forgotten ==> f'.live == f.live)
            && (!f.waves[w].forgotten ==> f'.live == f.live - {k})
            && (forall v :: 0 <= v < |f.waves| && v != w ==> f'.waves[v] == f.waves[v])
  {
  }

  /** A completed wave never changes again, so all its waiters see the same outcome. */
  lemma DoneIsFrozen(f: Flight, v: nat, k: Key, w: nat, val: Load, err: Option<Failure>)
    requires Disciplined(f) && v < |f.waves| && f.waves[v].done
    ensures Started(f, k).waves[v] == Forgot(f, k).waves[v] == ForgotAll(f).waves[v] == f.waves[v]
    ensures w < |f.waves| && !f.waves[w].done ==> Finished(f, w, val, err).waves[v] == f.waves[v]
  {
  }

  // ---------------------------------------------------------------- from registration to waiting

  datatype GroupOp =
    | Starts(key: Key)
    | Forgets(key: Key)
    | ForgetsAll
    | Finishes(wave: nat, val: Load, err: Option<Failure>)

  function Performed(f: Flight, ops: seq<GroupOp>): Flight {
    if ops == [] then f else
      var g := Performed(f, ops[..|ops| - 1]);
      match ops[|ops| - 1]
      case Starts(k) => Started(g, k)
      case Forgets(k) => Forgot(g, k)
      case ForgetsAll => ForgotAll(g)
      case Finishes(w, val, err) => if w < |g.waves| then Finished(g, w, val, err) else g
  }

  /** How many callers join wave `w` on the way. */
  function Joiners(f: Flight, w: nat, ops: seq<GroupOp>): nat {
    if ops == [] then 0 else
      var before, last := ops[..|ops| - 1], ops[|ops| - 1];
      var g := Performed(f, before);
      Joiners(f, w, before) + (if last.Starts? && last.key in g.live && g.live[last.key] == w then 1 else 0)
  }

  lemma {:induction false} DupsAreJoiners(f: Flight, w: nat, ops: seq<GroupOp>)
    requires w < |f.waves| && !f.waves[w].done && f.waves[w].dups == 0
    requires forall i :: 0 <= i < |ops| && ops[i].Finishes? ==> ops[i].wave != w
    ensures var g := Performed(f, ops);
            w < |g.waves| && !g.waves[w].done && g.waves[w].dups == Joiners(f, w, ops)
  {
    if ops != [] {
      DupsAreJoiners(f, w, ops[..|ops| - 1]);
    }
  }

  /**
   * From the registration of a wave to its completion, with anything happening to the group in between: a waiter
   * gets what the work came to, marked as shared exactly if another caller joined.
   */
  lemma WaitersGet(f: Flight, k: Key, ops: seq<GroupOp>, run: Run)
    requires k !in f.live && forall i :: 0 <= i < |ops| && ops[i].Finishes? ==> ops[i].wave != |f.waves|
    ensures var w, g := |f.waves|, Performed(Started(f, k), ops);
            && w < |g.waves|
            && Outcome(Finished(g, w, ValOf(run), ErrOf(run)).waves[w]) ==
                 Handed(run, Joiners(Started(f, k), w, ops) > 0)
  {
    DupsAreJoiners(Started(f, k), |f.waves|, ops);
  }
}

/** The singleflight group of one segment. */
module Singleflight {
  import opened Types
  import opened Waves

  class Call {
    // Written before `done` is set, read only after.
    var val: Load
    var err: Option<Failure>
    var done: bool

    var dups: nat
    var forgotten: bool

    // The position of this wave among all the waves of its group.
    ghost const wave: nat

    constructor (ghost wave: nat)
      ensures val == Missing && err == None && !done && dups == 0 && !forgotten && this.wave == wave
    {
      val, err, done, dups, forgotten := Missing, None, false, 0, false;
      this.wave := wave;
    }

    ghost predicate Shows(w: Wave)
      reads this
    {
      dups == w.dups && forgotten == w.forgotten && done == w.done && val == w.val && err == w.err
    }

    /** Waits for a completed wave; a wait that is cut short by its context sees nothing of the wave. */
    method Wait() returns (result: Awaited)
      requires done
      ensures forall w :: Shows(w) ==> result == Outcome(w)
      ensures forall run :: val == ValOf(run) && err == ErrOf(run) ==> result == Handed(run, dups > 0)
    {
      match err
      case Some(PanicError(what)) => result := Propagated(what);
      case Some(GoexitError) => result := Terminated;
      case _ => result := Delivered(val, err, dups > 0);
    }
  }

  ghost function CallSet(calls: seq<Call>): set<Call> {
    set i | 0 <= i < |calls| :: calls[i]
  }

  lemma OneMoreCall(calls: seq<Call>, c: Call)
    ensures CallSet(calls + [c]) == CallSet(calls) + {c}
  {
    assert (calls + [c])[|calls|] == c;
    assert forall i :: 0 <= i < |calls| ==> calls[i] == (calls + [c])[i];
  }

  /** The handle of each live key is that of the wave it leads to. */
  ghost predicate Leads(m: map<Key, Call>, live: map<Key, nat>, calls: seq<Call>) {
    && m.Keys == live.Keys
    && (forall k :: k in m ==> live[k] < |calls| && m[k] == calls[live[k]])
  }

  lemma LeadsToNew(m: map<Key, Call>, live: map<Key, nat>, calls: seq<Call>, key: Key, c: Call)
    requires Leads(m, live, calls)
    ensures Leads(m[key := c], live[key := |calls|], calls + [c])
  {
  }

  lemma LeadsNoMore(m: map<Key, Call>, live: map<Key, nat>, calls: seq<Call>, key: Key)
    requires Leads(m, live, calls)
    ensures Leads(m - {key}, live - {key}, calls)
  {
  }

  class Group {
    var m: map<Key, Call>

    // Every call ever registered, and what is known of them.
    ghost var calls: seq<Call>
    ghost var flight: Flight

    /** The handles are those of the waves, in order, and the map finds the live ones. */
    ghost predicate Keyed()
      reads this
    {
      && |calls| == |flight.waves|
      && (forall i :: 0 <= i < |calls| ==> calls[i].wave == i)
      && Leads(m, flight.live, calls)
    }

    ghost predicate Shown()
      reads this`calls, this`flight, CallSet(calls)
    {
      && |calls| == |flight.waves|
      && (forall i :: 0 <= i < |calls| ==> calls[i] in CallSet(calls) && calls[i].Shows(flight.waves[i]))
    }

    ghost predicate Valid()
      reads this, CallSet(calls)
    {
      Disciplined(flight) && Keyed() && Shown()
    }

    constructor ()
      ensures Valid() && calls == [] && flight == Flight([], map[])
    {
      m, calls, flight := map[], [], Flight([], map[]);
    }

    /** The handle that a key leads to. */
    lemma LiveCall(key: Key)
      requires Keyed()
      ensures key in m <==> key in flight.live
      ensures key in m ==>
                && flight.live[key] < |calls| && m[key] == calls[flight.live[key]]
                && m[key].wave == flight.live[key]
    {
    }

    method StartCall(key: Key) returns (handle: Call, owner: bool)
      requires Valid()
      modifies this, CallSet(calls)
      ensures Valid() && flight == Started(old(flight), key)
      ensures old(calls) <= calls && fresh(CallSet(calls) - old(CallSet(calls)))
      ensures Handle(old(flight), key) < |calls| && handle == calls[Handle(old(flight), key)]
      ensures owner == (key !in old(flight.live))
    {
      if key in m {
        handle := Join(key);
        return handle, false;
      }
      handle := Register(key);
      owner := true;
    }

    method Join(key: Key) returns (handle: Call)
      requires Valid() && key in m
      modifies this`flight, CallSet(calls)
      ensures Valid() && flight == Started(old(flight), key) && handle == calls[old(flight).live[key]]
    {
      hide Disciplined, CallSet;
      StartDiscipline(flight, key);
      handle := m[key];
      assert handle in CallSet(calls);
      handle.dups := handle.dups + 1;
      flight := Started(flight, key);
    }

    method Register(key: Key) returns (handle: Call)
      requires Valid() && key !in m
      modifies this
      ensures Valid() && flight == Started(old(flight), key)
      ensures fresh(handle) && calls == old(calls) + [handle]
      ensures CallSet(calls) == old(CallSet(calls)) + {handle}
    {
      hide Disciplined, CallSet, Leads;
      StartDiscipline(flight, key);
      LiveCall(key);
      handle := new Call(|calls|);
      LeadsToNew(m, flight.live, calls, key, handle);
      m := m[key := handle];
      OneMoreCall(calls, handle);
      calls := calls + [handle];
      flight := Started(flight, key);
    }

    method Forget(key: Key)
      requires Valid()
      modifies this`m, this`flight, CallSet(calls)
      ensures Valid() && flight == Forgot(old(flight), key)
    {
      hide Disciplined, CallSet, Leads;
      ForgetDiscipline(flight, key);
      LiveCall(key);
      if key in m {
        LeadsNoMore(m, flight.live, calls, key);
        assert m[key] in CallSet(calls);
        m[key].forgotten := true;
        m := m - {key};
      }
      flight := Forgot(flight, key);
    }

    /** The keys are visited in any order. */
    method ForgetAll()
      requires Valid()
      modifies this`m, this`flight, CallSet(calls)
      ensures Valid() && flight == ForgotAll(old(flight))
    {
      hide Disciplined, ForgotAll, Forgot, Shown;
      while m.Keys != {}
        invariant Valid() && ForgotAll(flight) == ForgotAll(old(flight))
        decreases |m.Keys|
      {
        var key :| key in m;
        ForgotOneOfAll(flight, key);
        Forget(key);
      }
      NoneLeft(flight);
    }

    lemma ForgotOneOfAll(f: Flight, k: Key)
      requires Disciplined(f) && k in f.live
      ensures ForgotAll(Forgot(f, k)) == ForgotAll(f)
      ensures Forgot(f, k).live.Keys == f.live.Keys - {k}
    {
    }

    lemma NoneLeft(f: Flight)
      requires f.live.Keys == {}
      ensures ForgotAll(f) == f
    {
      assert f.live == map[];
    }

    /** All but `current` show their waves, and that only lacks its outcome. */
    ghost predicate Closing(current: Call)
      reads this, CallSet(calls)
    {
      && Disciplined(flight) && Keyed()
      && current.wave < |calls| && current == calls[current.wave] && current in CallSet(calls)
      && !current.done && !flight.waves[current.wave].done
      && current.dups == flight.waves[current.wave].dups && current.forgotten == flight.waves[current.wave].forgotten
      && (forall i :: 0 <= i < |calls| && i != current.wave ==>
           calls[i] in CallSet(calls) && calls[i].Shows(flight.waves[i]))
    }

    method Finish(key: Key, current: Call)
      requires Closing(current) && flight.waves[current.wave].key == key
      modifies this`m, this`flight, current`done
      ensures Valid() && flight == Finished(old(flight), current.wave, current.val, current.err)
    {
      hide Disciplined, CallSet, Leads;
      FinishDiscipline(flight, current.wave, current.val, current.err);
      LiveCall(key);
      LeadsNoMore(m, flight.live, calls, key);
      // By now the key may lead to a newer wave.
      if key in m && m[key] == current {
        m := m - {key};
      }
      flight := Finished(flight, current.wave, current.val, current.err);
      current.done := true;
      assert current.Shows(flight.waves[current.wave]);
    }

    lemma NoOutcomeYet(w: nat)
      requires Disciplined(flight) && w < |flight.waves| && !flight.waves[w].done
      ensures flight.waves[w].val == Missing && flight.waves[w].err == None
    {
    }

    /** Completes a wave with the outcome of its work, whatever that is. */
    method DoCall(key: Key, current: Call, run: Run)
      requires Valid() && current.wave < |calls| && current == calls[current.wave]
      requires !current.done && flight.waves[current.wave].key == key
      modifies this`m, this`flight, current
      ensures Valid() && flight == Finished(old(flight), current.wave, ValOf(run), ErrOf(run))
    {
      hide Disciplined, Finished, CallSet;
      assert current.Shows(flight.waves[current.wave]);
      NoOutcomeYet(current.wave);
      var normalReturn, panicRecovered := false, false;
      match run {
        case Returns(val, err) =>
          current.val, current.err := val, err;
          normalReturn := true;
        case Panics(what) =>
          current.err := Some(PanicError(what));
        case Exits =>
      }
      // A goroutine that exits runs only its deferred calls from here on.
      if !run.Exits? && !normalReturn {
        panicRecovered := true;
      }
      if !normalReturn && !panicRecovered {
        current.err := Some(GoexitError);
      }
      Finish(key, current);
    }
  }
}
