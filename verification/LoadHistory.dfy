/** Whatever happens in a segment, its history stays sound. */
module SoundHistories {
  import opened Types
  import opened Waves
  import opened Histories

  lemma Appended(log: seq<Event>, e: Event, n: nat)
    requires n == |log|
    ensures forall k, a: nat, b: nat {:trigger Barred(log + [e], k, a, b)} ::
              Barred(log + [e], k, a, b) ==
              if b <= n then Barred(log, k, a, b) else Barred(log, k, a, n) || (a < n && Affects(e, k))
    ensures forall k, a: nat, b: nat {:trigger Overwritten(log + [e], k, a, b)} ::
              Overwritten(log + [e], k, a, b) ==
              if b <= n then Overwritten(log, k, a, b) else Overwritten(log, k, a, n) || (a < n && Writes(e, k))
    ensures forall w {:trigger HasJoin(log + [e], w)} ::
              HasJoin(log + [e], w) == (HasJoin(log, w) || (e.JoinedWave? && e.wave == w))
    ensures forall w, k, p, i: nat {:trigger EnteredBy(log + [e], w, k, p, i)} ::
              EnteredBy(log, w, k, p, i) ==> EnteredBy(log + [e], w, k, p, i)
  {
    var log' := log + [e];
    assert log'[n] == e;
    assert forall i :: 0 <= i < n ==> log'[i] == log[i];
  }

  lemma EnteredStays(log: seq<Event>, log': seq<Event>, w: nat, k: Key, p: Pid)
    requires log <= log' && EnteredBy(log, w, k, p, |log|)
    ensures EnteredBy(log', w, k, p, |log'|)
  {
  }

  /** One event has been added; lives have gone on, if at all, and completed waves are as they were. */
  ghost predicate Evolves(h: History, h': History, e: Event) {
    && |h.lives| == |h.flight.waves| <= |h'.lives| == |h'.flight.waves|
    && h'.log == h.log + [e]
    && (forall w :: 0 <= w < |h.lives| ==>
          && Continues(h.lives[w], h'.lives[w], |h.log|)
          && h'.flight.waves[w].key == h.flight.waves[w].key
          && (h.flight.waves[w].done ==> h'.flight.waves[w] == h.flight.waves[w]))
  }

  predicate Continues(l: Life, l': Life, now: nat) {
    && l'.owner == l.owner && l'.start == l.start
    && (l.source.Some? ==> l'.source == l.source)
    && (l.end.Some? ==> l'.end == l.end)
    && (l.test.Some? ==> l'.test == l.test)
    && (l.published.Some? ==> l'.published == l.published)
    && (l.closed.Some? ==> l'.closed == l.closed)
    && (l.closed.None? && l'.closed.Some? ==> l'.closed.value.at == now)
  }

  lemma CurrentKept(h: History, h': History, e: Event, k: Key, load: Load, origin: Origin, i: nat)
    requires Evolves(h, h', e) && Current(h, k, load, origin, i) && i <= |h.log|
    ensures Current(h', k, load, origin, i)
    ensures i == |h.log| && !Writes(e, k) ==> Current(h', k, load, origin, |h'.log|)
  {
    hide Barred, Overwritten, HasJoin, EnteredBy;
    Appended(h.log, e, |h.log|);
  }

  lemma EventsKept(h: History, h': History, e: Event)
    requires Sound(h) && Evolves(h, h', e) && Told(h', |h.log|)
    ensures forall i :: 0 <= i < |h'.log| ==> Told(h', i)
  {
    hide Barred, Overwritten, HasJoin, EnteredBy, Current, Chronicled, InTurn;
    Appended(h.log, e, |h.log|);
    forall i | 0 <= i < |h.log| ensures Told(h', i) {
      assert Told(h, i);
      match h.log[i]
      case TookCached(w, load, origin) => CurrentKept(h, h', e, h.flight.waves[w].key, load, origin, i);
      case ReadCached(k, load, origin) => CurrentKept(h, h', e, k, load, origin, i);
      case FoundLive(k, load, origin) => CurrentKept(h, h', e, k, load, origin, i);
      case Received(w, _, _) => assert Judged(h, w);
      case _ =>
    }
  }

  /** All events still agree with the lives, and all entries that have not been written are still current. */
  ghost predicate Intact(h: History, h': History, e: Event) {
    && |h'.lives| == |h'.flight.waves|
    && (forall i :: 0 <= i < |h'.log| ==> Told(h', i))
    && (forall k :: k in h.store && !Writes(e, k) ==> Current(h', k, h.store[k].load, h.store[k].origin, |h'.log|))
  }

  /** What need not be shown again for each kind of event. */
  lemma Evolved(h: History, h': History, e: Event)
    requires Sound(h) && Evolves(h, h', e) && Told(h', |h.log|)
    ensures Intact(h, h', e)
  {
    hide Barred, Overwritten, HasJoin, EnteredBy, Current, Told, InTurn, Judged, Chronicled, Concluded, Evolves;
    EventsKept(h, h', e);
    Lengths(h, h', e);
    forall k | k in h.store && !Writes(e, k) ensures Current(h', k, h.store[k].load, h.store[k].origin, |h'.log|) {
      CurrentKept(h, h', e, k, h.store[k].load, h.store[k].origin, |h.log|);
    }
  }

  lemma Lengths(h: History, h': History, e: Event)
    requires Evolves(h, h', e)
    ensures |h'.lives| == |h'.flight.waves|
  {
  }

  /** Waves stay in turn if none comes, none is published and none is registered again. */
  lemma TurnsKept(h: History, h': History)
    requires Sound(h) && |h'.lives| == |h'.flight.waves| == |h.lives|
    requires forall w :: 0 <= w < |h.lives| ==>
               && h'.lives[w].start == h.lives[w].start && h'.lives[w].published == h.lives[w].published
               && h'.flight.waves[w].key == h.flight.waves[w].key
               && (Registered(h'.flight.waves[w]) ==> Registered(h.flight.waves[w]))
    ensures forall v, w {:trigger InTurn(h', v, w)} :: 0 <= v < w < |h'.lives| ==> InTurn(h', v, w)
  {
    hide Chronicled, Judged, Told, Current, Disciplined, Registered;
    forall v, w | 0 <= v < w < |h'.lives| ensures InTurn(h', v, w) {
      assert InTurn(h, v, w);
    }
  }

  /** A wave that has not changed is as it was judged, after an event that is not about it. */
  lemma WaveKept(h: History, h': History, e: Event, v: nat)
    requires v < |h.lives| && v < |h.flight.waves| && v < |h'.lives| && v < |h'.flight.waves|
    requires Chronicled(h, v) && Judged(h, v)
    requires h'.log == h.log + [e] && h'.lives[v] == h.lives[v] && h'.flight.waves[v] == h.flight.waves[v]
    requires !Affects(e, h.flight.waves[v].key) && !Writes(e, h.flight.waves[v].key) && !(e.JoinedWave? && e.wave == v)
    ensures Chronicled(h', v) && Judged(h', v)
  {
    hide Barred, Overwritten, HasJoin, Concluded, Affects, Writes;
    Appended(h.log, e, |h.log|);
  }

  /** A barrier for one key. */
  lemma BarrierSound(h: History, k: Key, cause: Cause)
    requires Sound(h)
    ensures Sound(KeyBarred(h, k, cause))
  {
    hide Barred, Overwritten, HasJoin, EnteredBy, Current, Told, Concluded;
    var h', e := KeyBarred(h, k, cause), Barrier(k, cause);
    Appended(h.log, e, |h.log|);
    ForgetDiscipline(h.flight, k);
    Untold(h', e);
    assert Intact(h, h', e) by {
      Evolved(h, h', e);
    }
    forall w | 0 <= w < |h'.lives| ensures Chronicled(h', w) && Judged(h', w) {
      assert Judged(h, w) && Chronicled(h, w);
    }
    TurnsKept(h, h');
  }

  /** Barriers and writes tell nothing of a wave. */
  lemma Untold(h: History, e: Event)
    requires h.log != [] && h.log[|h.log| - 1] == e && |h.lives| == |h.flight.waves|
    requires e.Barrier? || e.BarrierAll? || e.Wrote? || e.WroteAll?
    ensures Told(h, |h.log| - 1)
  {
  }

  lemma BarrierAllSound(h: History)
    requires Sound(h)
    ensures Sound(AllBarred(h))
  {
    hide Barred, Overwritten, HasJoin, EnteredBy, Current, Told, Concluded;
    var h', e := AllBarred(h), BarrierAll;
    Appended(h.log, e, |h.log|);
    ForgetAllDiscipline(h.flight);
    Untold(h', e);
    assert Intact(h, h', e) by {
      Evolved(h, h', e);
    }
    forall w | 0 <= w < |h'.lives| ensures Chronicled(h', w) && Judged(h', w) {
      assert Judged(h, w) && Chronicled(h, w);
    }
    TurnsKept(h, h');
  }

  /** No wave is live for `k` when a mutation writes `k`. */
  lemma WriteSound(h: History, k: Key, load: Load)
    requires Sound(h) && k !in h.flight.live
    ensures Sound(Mutated(h, k, load))
  {
    hide Barred, Overwritten, HasJoin, EnteredBy, Told, Concluded;
    var h', e := Mutated(h, k, load), Wrote(k, load);
    Appended(h.log, e, |h.log|);
    NothingSince(h'.log, k, |h.log|);
    Untold(h', e);
    assert Intact(h, h', e) by {
      Evolved(h, h', e);
    }
    forall w | 0 <= w < |h'.lives| ensures Chronicled(h', w) && Judged(h', w) {
      assert Judged(h, w) && Chronicled(h, w);
    }
    TurnsKept(h, h');
  }

  lemma WriteAllSound(h: History)
    requires Sound(h) && h.flight.live == map[]
    ensures Sound(MutatedAll(h))
  {
    hide Barred, Overwritten, HasJoin, EnteredBy, Current, Told, Concluded;
    var h', e := MutatedAll(h), WroteAll;
    Appended(h.log, e, |h.log|);
    Untold(h', e);
    assert Intact(h, h', e) by {
      Evolved(h, h', e);
    }
    forall w | 0 <= w < |h'.lives| ensures Chronicled(h', w) && Judged(h', w) {
      assert Judged(h, w) && Chronicled(h, w);
    }
    TurnsKept(h, h');
  }

  /** A caller joins a live wave. */
  lemma JoinSound(h: History, k: Key, p: Pid)
    requires Sound(h) && k in h.flight.live
    ensures Sound(Entered(h, k, p))
  {
    hide Barred, Overwritten, HasJoin, EnteredBy, Current, Concluded;
    StartDiscipline(h.flight, k);
    var h', joined := Entered(h, k, p), h.flight.live[k];
    var e := JoinedWave(joined, k, p);
    Appended(h.log, e, |h.log|);
    assert Judged(h, joined) && Chronicled(h, joined);
    assert Intact(h, h', e) by {
      Evolved(h, h', e);
    }
    forall w | 0 <= w < |h'.lives| ensures Chronicled(h', w) && Judged(h', w) {
      if w != joined {
        WaveKept(h, h', e, w);
      }
    }
    TurnsKept(h, h');
  }

  /** A caller begins a wave of its own: there is no live one. */
  lemma BeginSound(h: History, k: Key, p: Pid)
    requires Sound(h) && k !in h.flight.live
    ensures Sound(Entered(h, k, p))
  {
    hide Barred, Overwritten, HasJoin, EnteredBy, Current, Concluded;
    StartDiscipline(h.flight, k);
    var h', n := Entered(h, k, p), |h.lives|;
    var e := BeganWave(n, k, p);
    Appended(h.log, e, |h.log|);
    NothingSince(h'.log, k, |h.log|);
    NoJoinYet(h, n);
    assert Intact(h, h', e) by {
      Evolved(h, h', e);
    }
    forall w | 0 <= w < |h'.lives| ensures Chronicled(h', w) && Judged(h', w) {
      if w < n {
        WaveKept(h, h', e, w);
      }
    }
    forall v, w | 0 <= v < w < |h'.lives| ensures InTurn(h', v, w) {
      assert if w < n then InTurn(h, v, w) else Chronicled(h, v);
    }
  }

  lemma EnterSound(h: History, k: Key, p: Pid)
    requires Sound(h)
    ensures Sound(Entered(h, k, p))
  {
    hide Sound;
    if k in h.flight.live {
      JoinSound(h, k, p);
    } else {
      BeginSound(h, k, p);
    }
  }

  lemma NothingSince(log: seq<Event>, k: Key, n: nat)
    requires |log| == n + 1
    ensures !Barred(log, k, n, n + 1) && !Overwritten(log, k, n, n + 1)
  {
  }

  /** Nobody has joined a wave that does not exist. */
  lemma NoJoinYet(h: History, w: nat)
    requires Sound(h) && w >= |h.lives|
    ensures !HasJoin(h.log, w)
  {
    forall i | 0 <= i < |h.log| && h.log[i].JoinedWave? ensures h.log[i].wave != w {
      assert Told(h, i);
    }
  }

  /** An event that neither affects nor writes any key, nor adds to the life of a wave. */
  lemma NotedSound(h: History, e: Event)
    requires Sound(h) && Told(Noted(h, e), |h.log|) && (e.ReadCached? || e.FoundLive? || e.Received?)
    ensures Sound(Noted(h, e))
  {
    hide Barred, Overwritten, HasJoin, EnteredBy, Current, Told, Concluded;
    var h' := Noted(h, e);
    Appended(h.log, e, |h.log|);
    assert Intact(h, h', e) by {
      Evolved(h, h', e);
    }
    forall w | 0 <= w < |h'.lives| ensures Chronicled(h', w) && Judged(h', w) {
      assert Judged(h, w) && Chronicled(h, w);
    }
    TurnsKept(h, h');
  }

  lemma ReadSound(h: History, k: Key, e: Event)
    requires Sound(h) && k in h.store
    requires e == ReadCached(k, h.store[k].load, h.store[k].origin) ||
              e == FoundLive(k, h.store[k].load, h.store[k].origin)
    ensures Sound(Noted(h, e))
  {
    hide Barred, Overwritten, HasJoin, EnteredBy;
    Appended(h.log, e, |h.log|);
    NotedSound(h, e);
  }

  lemma ReceiveSound(h: History, w: nat, p: Pid)
    requires Sound(h) && w < |h.lives| && h.flight.waves[w].done
    requires EnteredBy(h.log, w, h.flight.waves[w].key, p, |h.log|)
    ensures Sound(Noted(h, Received(w, p, Outcome(h.flight.waves[w]))))
  {
    hide Barred, Overwritten, HasJoin, EnteredBy;
    assert Judged(h, w) && Chronicled(h, w);
    Appended(h.log, Received(w, p, Outcome(h.flight.waves[w])), |h.log|);
    NotedSound(h, Received(w, p, Outcome(h.flight.waves[w])));
  }

  /** The life of `w` alone has gone on, and no key is affected. */
  ghost predicate Lived(h: History, h': History, w: nat, e: Event) {
    && w < |h.lives| == |h'.lives| && h' == Noted(h, e).(lives := h.lives[w := h'.lives[w]])
    && Continues(h.lives[w], h'.lives[w], |h.log|)
    && h'.lives[w].closed == h.lives[w].closed && h'.lives[w].published == h.lives[w].published
    && (e.TookCached? || e.LoaderBegan? || e.LoaderEnded? || e.Tested?)
  }

  lemma LivedWaves(h: History, h': History, w: nat, e: Event)
    requires Sound(h) && Lived(h, h', w, e) && Chronicled(h', w) && Judged(h', w)
    ensures forall v :: 0 <= v < |h'.lives| ==> Chronicled(h', v) && Judged(h', v)
    ensures forall u, v {:trigger InTurn(h', u, v)} :: 0 <= u < v < |h'.lives| ==> InTurn(h', u, v)
  {
    hide Told, Current, Disciplined, Chronicled, Judged, InTurn;
    forall v | 0 <= v < |h'.lives| ensures Chronicled(h', v) && Judged(h', v) {
      if v != w {
        WaveKept(h, h', e, v);
      }
    }
    TurnsKept(h, h');
  }

  lemma LivedSound(h: History, h': History, w: nat, e: Event)
    requires Sound(h) && Lived(h, h', w, e) && Chronicled(h', w) && Judged(h', w) && Told(h', |h.log|)
    ensures Sound(h')
  {
    hide Barred, Overwritten, HasJoin, EnteredBy, Told, Current, Chronicled, Judged, InTurn;
    LivedWaves(h, h', w, e);
    assert Intact(h, h', e) by {
      Evolved(h, h', e);
    }
  }

  lemma TakeSound(h: History, w: nat, k: Key)
    requires Sound(h) && w < |h.lives| && k in h.store && h.flight.waves[w].key == k && !h.flight.waves[w].done
    requires h.lives[w].source.None?
    ensures Sound(TookResident(h, w, k))
  {
    hide Barred, Overwritten, HasJoin, EnteredBy;
    var e := TookCached(w, h.store[k].load, h.store[k].origin);
    var h' := TookResident(h, w, k);
    Appended(h.log, e, |h.log|);
    assert Chronicled(h, w) && Judged(h, w);
    CurrentKept(h, h', e, k, h.store[k].load, h.store[k].origin, |h.log|);
    LivedSound(h, h', w, e);
  }

  lemma BeginLoaderSound(h: History, w: nat)
    requires Sound(h) && w < |h.lives| && !h.flight.waves[w].done && h.lives[w].source.None?
    ensures Sound(BeganLoader(h, w))
  {
    hide Barred, Overwritten, HasJoin, EnteredBy, Current;
    Appended(h.log, LoaderBegan(w), |h.log|);
    assert Chronicled(h, w) && Judged(h, w);
    LivedSound(h, BeganLoader(h, w), w, LoaderBegan(w));
  }

  lemma EndLoaderSound(h: History, w: nat, run: Run)
    requires Sound(h) && w < |h.lives| && !h.flight.waves[w].done
    requires h.lives[w].source.Some? && h.lives[w].source.value.FromLoader? && h.lives[w].end.None?
    ensures Sound(EndedLoader(h, w, run))
  {
    hide Barred, Overwritten, HasJoin, EnteredBy, Current;
    Appended(h.log, LoaderEnded(w, run), |h.log|);
    assert Chronicled(h, w) && Judged(h, w);
    LivedSound(h, EndedLoader(h, w, run), w, LoaderEnded(w, run));
  }

  lemma TestSound(h: History, w: nat)
    requires Sound(h) && w < |h.lives| && !h.flight.waves[w].done
    requires h.lives[w].end.Some? && Succeeded(h.lives[w].end.value.run) && h.lives[w].test.None?
    ensures Sound(TestedWave(h, w))
  {
    hide Barred, Overwritten, HasJoin, EnteredBy, Current;
    var e := Tested(w, h.flight.waves[w].forgotten);
    Appended(h.log, e, |h.log|);
    assert Chronicled(h, w) && Judged(h, w);
    LivedSound(h, TestedWave(h, w), w, e);
  }

  lemma PublishWave(h: History, w: nat, k: Key, load: Load)
    requires Sound(h) && w < |h.lives| && h.flight.waves[w].key == k && Registered(h.flight.waves[w])
    requires h.lives[w].test.Some? && !h.lives[w].test.value.forgotten && h.lives[w].published.None?
    requires h.lives[w].end.Some? && h.lives[w].end.value.run == Returns(load, None) && load.Present?
    ensures var h' := PublishedWave(h, w, k, load); Chronicled(h', w) && Judged(h', w)
  {
    hide Barred, Overwritten, HasJoin, EnteredBy, Told, Current, InTurn, Disciplined;
    Appended(h.log, Published(w, load), |h.log|);
    assert Chronicled(h, w) && Judged(h, w);
  }

  lemma PublishWaves(h: History, w: nat, k: Key, load: Load)
    requires Sound(h) && w < |h.lives| && h.flight.waves[w].key == k && Registered(h.flight.waves[w])
    requires h.lives[w].test.Some? && !h.lives[w].test.value.forgotten && h.lives[w].published.None?
    requires h.lives[w].end.Some? && h.lives[w].end.value.run == Returns(load, None) && load.Present?
    ensures var h' := PublishedWave(h, w, k, load);
            && (forall v :: 0 <= v < |h'.lives| ==> Chronicled(h', v) && Judged(h', v))
            && (forall u, v {:trigger InTurn(h', u, v)} :: 0 <= u < v < |h'.lives| ==> InTurn(h', u, v))
  {
    hide Told, Current, Disciplined, Chronicled, Judged;
    var h' := PublishedWave(h, w, k, load);
    PublishWave(h, w, k, load);
    forall v | 0 <= v < |h'.lives| ensures Chronicled(h', v) && Judged(h', v) {
      if v != w {
        WaveKept(h, h', Published(w, load), v);
      }
    }
    forall u, v | 0 <= u < v < |h'.lives| ensures InTurn(h', u, v) {
      assert InTurn(h, u, v);
    }
  }

  lemma PublishedEntry(h: History, w: nat, k: Key, load: Load)
    requires Sound(h) && w < |h.lives| && h.flight.waves[w].key == k && Registered(h.flight.waves[w])
    requires h.lives[w].end.Some? && h.lives[w].end.value.run == Returns(load, None) && load.Present?
    requires h.lives[w].published.None?
    ensures var h' := PublishedWave(h, w, k, load);
            Told(h', |h.log|) && Current(h', k, load, ByWave(w), |h'.log|) && Evolves(h, h', Published(w, load))
  {
    hide Barred, Overwritten, HasJoin, EnteredBy, InTurn;
    Appended(h.log, Published(w, load), |h.log|);
    assert Chronicled(h, w) && Judged(h, w);
  }

  /** The result of a wave that is still registered is stored. */
  lemma PublishSound(h: History, w: nat, k: Key, load: Load)
    requires Sound(h) && w < |h.lives| && h.flight.waves[w].key == k && Registered(h.flight.waves[w])
    requires h.lives[w].test.Some? && !h.lives[w].test.value.forgotten && h.lives[w].published.None?
    requires h.lives[w].end.Some? && h.lives[w].end.value.run == Returns(load, None) && load.Present?
    ensures Sound(PublishedWave(h, w, k, load))
  {
    hide Barred, Overwritten, HasJoin, EnteredBy, Told, Current, Chronicled, Judged, InTurn, Evolves;
    var h', e := PublishedWave(h, w, k, load), Published(w, load);
    PublishWaves(h, w, k, load);
    PublishedEntry(h, w, k, load);
    Evolved(h, h', e);
  }

  lemma CloseWave(h: History, w: nat, run: Run)
    requires Sound(h) && w < |h.lives| && !h.flight.waves[w].done && Concluded(h.lives[w], run)
    ensures var h' := Closed(h, w, run); Chronicled(h', w) && Judged(h', w)
  {
    hide Barred, Overwritten, HasJoin, EnteredBy, Told, Current, InTurn, Disciplined;
    Appended(h.log, ClosedWave(w, run), |h.log|);
    assert Chronicled(h, w) && Judged(h, w);
  }

  lemma CloseWaves(h: History, w: nat, run: Run)
    requires Sound(h) && w < |h.lives| && !h.flight.waves[w].done && Concluded(h.lives[w], run)
    ensures var h' := Closed(h, w, run);
            && (forall v :: 0 <= v < |h'.lives| ==> Chronicled(h', v) && Judged(h', v))
            && (forall u, v {:trigger InTurn(h', u, v)} :: 0 <= u < v < |h'.lives| ==> InTurn(h', u, v))
  {
    hide EnteredBy, Told, Current, InTurn, Disciplined, Chronicled, Judged, Concluded;
    var h' := Closed(h, w, run);
    CloseWave(h, w, run);
    forall v | 0 <= v < |h'.lives| ensures Chronicled(h', v) && Judged(h', v) {
      if v != w {
        WaveKept(h, h', ClosedWave(w, run), v);
      }
    }
    TurnsKept(h, h');
  }

  lemma ClosedEvent(h: History, w: nat, run: Run)
    requires Sound(h) && w < |h.lives| && !h.flight.waves[w].done
    ensures Told(Closed(h, w, run), |h.log|) && Evolves(h, Closed(h, w, run), ClosedWave(w, run))
  {
    hide Barred, Overwritten, HasJoin, EnteredBy, InTurn, Current;
    assert Chronicled(h, w) && Judged(h, w);
  }

  /** A wave is closed with what its work has come to. */
  lemma CloseSound(h: History, w: nat, run: Run)
    requires Sound(h) && w < |h.lives| && !h.flight.waves[w].done && Concluded(h.lives[w], run)
    ensures Sound(Closed(h, w, run))
  {
    hide Barred, Overwritten, HasJoin, EnteredBy, Current, Told, Chronicled, Judged, InTurn, Evolves;
    var h', e := Closed(h, w, run), ClosedWave(w, run);
    FinishDiscipline(h.flight, w, ValOf(run), ErrOf(run));
    CloseWaves(h, w, run);
    ClosedEvent(h, w, run);
    Evolved(h, h', e);
  }

  /** Only the store changes, and only to what is current. */
  lemma RestockedSound(h: History, store: map<Key, Stored>)
    requires Sound(h) && forall k :: k in store ==> Current(h, k, store[k].load, store[k].origin, |h.log|)
    ensures Sound(h.(store := store))
  {
    hide Barred, Overwritten, HasJoin, EnteredBy;
    var h' := h.(store := store);
    forall w | 0 <= w < |h.lives| ensures Chronicled(h', w) && Judged(h', w) {
      assert Chronicled(h, w) && Judged(h, w);
    }
    forall i | 0 <= i < |h.log| ensures Told(h', i) {
      assert Told(h, i);
    }
    forall v, w | 0 <= v < w < |h.lives| ensures InTurn(h', v, w) {
      assert InTurn(h, v, w);
    }
  }

  /** Eviction and expiration remove entries, a sliding read moves a deadline; neither is a mutation. */
  lemma UpkeepSound(h: History, k: Key, deadline: Nanos)
    requires Sound(h) && k in h.store
    ensures Sound(Evicted(h, k)) && Sound(Renewed(h, k, deadline))
  {
    hide Barred, Overwritten, HasJoin, EnteredBy, Told, Chronicled, Judged, InTurn;
    RestockedSound(h, h.store - {k});
    RestockedSound(h, h.store[k := h.store[k].(load := Present(h.store[k].load.value, deadline))]);
  }
}
