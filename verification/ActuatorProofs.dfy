/** The actuator's books: every counter equals what it summarises, and every instance
    ever tracked is either still tracked once or has departed once. */
module ActuatorProofs {
  import opened ActuatorModel
  import opened Tallies

  ghost predicate Counts(a: Actuator) {
    && a.total == Tally(a.workers, Over(One()))
    && a.pendingStops == Tally(a.workers, Over(IsStopping()))
    && a.pendingStarts == Tally(a.workers, Starts())
    && (forall j :: 0 <= j < |a.workers| ==> a.workers[j].pendingStarts >= 0)
  }

  /** How often instance `id` is tracked or has departed. */
  ghost function Population(a: Actuator, id: nat): int {
    Tally(a.workers, Over(HasId(id))) + Tally(a.departures, IsDeparture(id))
  }

  ghost predicate Inv(a: Actuator) {
    Counts(a) && forall id :: Population(a, id) <= 1
  }

  ghost predicate SamePopulation(a: Actuator, a': Actuator) {
    forall id :: Population(a', id) == Population(a, id)
  }

  /** The number of entries that match; zero and one are the only contributions. */
  lemma Facts(ws: seq<Tracked>, id: nat)
    ensures Tally(ws, One()) == |ws| && 0 <= Tally(ws, IsStopping()) <= |ws| && 0 <= Tally(ws, HasId(id)) <= |ws|
    ensures forall k :: 0 <= k < |ws| ==> IsStopping()(ws[k]) <= Tally(ws, IsStopping())
    ensures forall k :: 0 <= k < |ws| ==> HasId(id)(ws[k]) <= Tally(ws, HasId(id))
  {
  }

  lemma StopsBound(a: Actuator, w: nat)
    requires Counts(a) && w < |a.workers|
    ensures Tally(a.workers[w].instances, IsStopping()) <= a.pendingStops
  {
    forall j | 0 <= j < |a.workers| ensures Over(IsStopping())(a.workers[j]) >= 0 {
      SumRange(a.workers[j].instances, IsStopping());
    }
    TallyBound(a.workers, Over(IsStopping()));
    assert Over(IsStopping())(a.workers[w]) <= a.pendingStops;
  }

  /** Replacing one worker's record keeps the books, if the counters follow; and it changes the
      population as it changes that record and the departures. */
  lemma RecordOk(a: Actuator, a': Actuator, w: nat, ds: seq<Departure>)
    requires Counts(a) && w < |a.workers| && |a'.workers| == |a.workers| && a'.workers == a.workers[w := a'.workers[w]]
    requires a'.departures == a.departures + ds && a'.workers[w].pendingStarts >= 0
    requires a'.total - a.total == |a'.workers[w].instances| - |a.workers[w].instances|
    requires a'.pendingStarts - a.pendingStarts == a'.workers[w].pendingStarts - a.workers[w].pendingStarts
    requires a'.pendingStops - a.pendingStops == Tally(a'.workers[w].instances, IsStopping()) - Tally(a.workers[w].instances, IsStopping())
    ensures Counts(a')
    ensures forall id :: Population(a', id) == Population(a, id) + Tally(ds, IsDeparture(id))
                           + Tally(a'.workers[w].instances, HasId(id)) - Tally(a.workers[w].instances, HasId(id))
  {
    var v := a'.workers[w];
    TallyUpdate(a.workers, w, v, Over(One()));
    TallyUpdate(a.workers, w, v, Over(IsStopping()));
    TallyUpdate(a.workers, w, v, Starts());
    Facts(v.instances, 0);
    Facts(a.workers[w].instances, 0);
    forall id ensures Population(a', id) == Population(a, id) + Tally(ds, IsDeparture(id))
                        + Tally(v.instances, HasId(id)) - Tally(a.workers[w].instances, HasId(id))
    {
      TallyUpdate(a.workers, w, v, Over(HasId(id)));
      TallyConcat(a.departures, ds, IsDeparture(id));
    }
  }

  lemma ReplaceOk(a: Actuator, a': Actuator, w: nat, ws: seq<Tracked>, ds: seq<Departure>)
    requires Counts(a) && w < |a.workers|
    requires a' == a.(workers := a.workers[w := a.workers[w].(instances := ws)], total := a'.total,
                      pendingStops := a'.pendingStops, departures := a.departures + ds)
    requires a'.total == a.total - |a.workers[w].instances| + |ws|
    requires a'.pendingStops == a.pendingStops - Tally(a.workers[w].instances, IsStopping()) + Tally(ws, IsStopping())
    requires forall id :: Tally(ws, HasId(id)) + Tally(ds, IsDeparture(id)) == Tally(a.workers[w].instances, HasId(id))
    ensures Counts(a') && SamePopulation(a, a')
  {
    RecordOk(a, a', w, ds);
  }

  lemma NoInstances(a: Actuator)
    requires a.total == 0 && a.pendingStarts == 0 && a.pendingStops == 0 && a.departures == []
    requires forall w :: 0 <= w < |a.workers| ==> a.workers[w] == Worker([], 0)
    ensures Inv(a) && forall id :: Population(a, id) == 0
  {
    TallyZero(a.workers, Over(One()));
    TallyZero(a.workers, Over(IsStopping()));
    TallyZero(a.workers, Starts());
    forall id ensures Population(a, id) == 0 { TallyZero(a.workers, Over(HasId(id))); }
  }

  // -------------------------------------------------------------------- relist

  lemma {:induction false} Partition(ws: seq<Tracked>, p: Presence, m: Tracked -> int)
    ensures Tally(Kept(ws, p), m) + Tally(Evicted(ws, p), m) == Tally(ws, m)
    ensures |Kept(ws, p)| + |Evicted(ws, p)| == |ws|
  {
    if ws == [] {
    } else {
      var n := |ws| - 1;
      Partition(ws[..n], p, m);
      TallyAppend(Kept(ws[..n], p), ws[n], m);
      TallyAppend(Evicted(ws[..n], p), ws[n], m);
      assert Kept(ws[..n], p) + [] == Kept(ws[..n], p) && Evicted(ws[..n], p) + [] == Evicted(ws[..n], p);
    }
  }

  /** The guards on the counter never bite. */
  lemma {:induction false} StopsAfterExact(ws: seq<Tracked>, p: Presence, stops: int)
    requires stops >= Tally(ws, IsStopping())
    ensures StopsAfter(ws, p, stops) == stops - Tally(Evicted(ws, p), IsStopping())
    ensures StopsAfter(ws, p, stops) >= Tally(Kept(ws, p), IsStopping())
  {
    if ws == [] {
    } else {
      var n := |ws| - 1;
      SumRange(ws[..n], IsStopping());
      SumRange(Kept(ws[..n], p), IsStopping());
      assert IsStopping()(ws[n]) >= 0;
      StopsAfterExact(ws[..n], p, stops);
      Partition(ws, p, IsStopping());
      Partition(ws[..n], p, IsStopping());
      TallyAppend(Evicted(ws[..n], p), ws[n], IsStopping());
      assert Evicted(ws[..n], p) + [] == Evicted(ws[..n], p);
    }
  }

  lemma {:induction false} RecordedIds(w: nat, ws: seq<Tracked>, cause: Cause, id: nat)
    ensures Tally(Recorded(w, ws, cause), IsDeparture(id)) == Tally(ws, HasId(id)) && |Recorded(w, ws, cause)| == |ws|
    ensures forall d :: d in Recorded(w, ws, cause) ==> d.recorded && d.worker == w
  {
    if ws == [] {
    } else {
      var n := |ws| - 1;
      RecordedIds(w, ws[..n], cause, id);
      TallyAppend(Recorded(w, ws[..n], cause), Departure(w, ws[n].id, ws[n].address, cause, true), IsDeparture(id));
    }
  }

  lemma ReconcileOk(a: Actuator, w: int, p: Presence)
    requires Inv(a)
    ensures Inv(Reconcile(a, w, p)) && SamePopulation(a, Reconcile(a, w, p))
  {
    if 0 <= w < |a.workers| {
      var ws := a.workers[w].instances;
      StopsBound(a, w);
      StopsAfterExact(ws, p, a.pendingStops);
      Partition(ws, p, IsStopping());
      forall id ensures Tally(Kept(ws, p), HasId(id)) + Tally(Recorded(w, Evicted(ws, p), Relist), IsDeparture(id)) == Tally(ws, HasId(id)) {
        Partition(ws, p, HasId(id));
        RecordedIds(w, Evicted(ws, p), Relist, id);
      }
      ReplaceOk(a, Reconcile(a, w, p), w, Kept(ws, p), Recorded(w, Evicted(ws, p), Relist));
    }
  }

  // ------------------------------------------------------- single departures

  /** Cutting the entry at `k`, recorded or not, is one departure. */
  lemma CutOk(a: Actuator, a': Actuator, w: nat, k: nat, ws: seq<Tracked>, d: Departure)
    requires Inv(a) && w < |a.workers| && k < |a.workers[w].instances|
    requires var was := a.workers[w].instances;
             && |ws| == |was| - 1 && d.id == was[k].id
             && (forall m :: Tally(ws, m) == Tally(was, m) - m(was[k]))
             && a' == a.(workers := a.workers[w := a.workers[w].(instances := ws)], total := a.total - 1,
                         pendingStops := Remaining(a.pendingStops, was[k].stopping), departures := a.departures + [d])
    ensures Inv(a') && SamePopulation(a, a')
  {
    var was := a.workers[w].instances;
    StopsBound(a, w);
    Facts(was, d.id);
    assert IsStopping()(was[k]) <= Tally(was, IsStopping());
    forall id ensures Tally(ws, HasId(id)) + Tally([d], IsDeparture(id)) == Tally(was, HasId(id)) {}
    ReplaceOk(a, a', w, ws, [d]);
  }

  lemma HandleRemovedOk(a: Actuator, w: int, id: nat, revision: nat)
    requires Inv(a)
    ensures var a' := HandleRemoved(a, w, id, revision).0;
            Inv(a') && SamePopulation(a, a')
  {
    if 0 <= w < |a.workers| {
      var ws := a.workers[w].instances;
      var k := Find(ws, id);
      if k < |ws| && !Stale(ws[k], revision) {
        forall m ensures Tally(ws[..k] + ws[k + 1..], m) == Tally(ws, m) - m(ws[k]) {
          TallyGap(ws, k, m);
        }
        CutOk(a, HandleRemoved(a, w, id, revision).0, w, k, ws[..k] + ws[k + 1..], Departure(w, id, ws[k].address, Event, true));
      }
    }
  }

  /** Moving the last entry into the gap loses exactly the entry in the gap. */
  lemma SwapRemove(ws: seq<Tracked>, k: nat, m: Tracked -> int)
    requires k < |ws|
    ensures Tally(ws[k := ws[|ws| - 1]][..|ws| - 1], m) == Tally(ws, m) - m(ws[k])
  {
    TallyUpdate(ws, k, ws[|ws| - 1], m);
    assert Tally(ws[k := ws[|ws| - 1]], m) == Tally(ws[k := ws[|ws| - 1]][..|ws| - 1], m) + m(ws[|ws| - 1]);
  }

  lemma RemoveStoppedOk(a: Actuator, w: int, id: nat)
    requires Inv(a)
    ensures Inv(RemoveStopped(a, w, id)) && SamePopulation(a, RemoveStopped(a, w, id))
  {
    if 0 <= w < |a.workers| {
      var ws := a.workers[w].instances;
      var k := Find(ws, id);
      if k < |ws| {
        forall m ensures Tally(ws[k := ws[|ws| - 1]][..|ws| - 1], m) == Tally(ws, m) - m(ws[k]) {
          SwapRemove(ws, k, m);
        }
        CutOk(a, RemoveStopped(a, w, id), w, k, ws[k := ws[|ws| - 1]][..|ws| - 1], Departure(w, id, ws[k].address, Stop, ws[k].address != ""));
      }
    }
  }

  // --------------------------------------------------------- stop reservations

  /** Changing only the stopping flag of one entry. */
  lemma FlagOk(a: Actuator, a': Actuator, w: nat, k: nat, stopping: bool)
    requires Inv(a) && w < |a.workers| && k < |a.workers[w].instances| && a.workers[w].instances[k].stopping != stopping
    requires var ws := a.workers[w].instances;
             a' == a.(workers := a.workers[w := a.workers[w].(instances := ws[k := ws[k].(stopping := stopping)])],
                      pendingStops := a.pendingStops + if stopping then 1 else -1)
    ensures Inv(a') && SamePopulation(a, a')
  {
    var ws := a.workers[w].instances;
    var t := ws[k].(stopping := stopping);
    var ws' := ws[k := t];
    TallyUpdate(ws, k, t, IsStopping());
    forall id ensures Tally(ws', HasId(id)) + Tally([], IsDeparture(id)) == Tally(ws, HasId(id)) {
      TallyUpdate(ws, k, t, HasId(id));
    }
    assert a.departures + [] == a.departures;
    ReplaceOk(a, a', w, ws', []);
  }

  lemma CancelStopOk(a: Actuator, w: int, id: nat)
    requires Inv(a)
    ensures Inv(CancelStop(a, w, id)) && SamePopulation(a, CancelStop(a, w, id))
  {
    if 0 <= w < |a.workers| {
      var ws := a.workers[w].instances;
      var k := Find(ws, id);
      if k < |ws| && ws[k].stopping {
        StopsBound(a, w);
        Facts(ws, id);
        FlagOk(a, CancelStop(a, w, id), w, k, false);
      }
    }
  }

  /** Marking a list makes as many new stops as asked for, or as there are instances to stop. */
  lemma {:induction false} MarkSums(w: nat, ws: seq<Tracked>, count: int)
    requires count >= 0
    ensures var (ws', out) := Mark(w, ws, count);
            && |out| == Min(count, |ws| - Tally(ws, IsStopping()))
            && Tally(ws', IsStopping()) == Tally(ws, IsStopping()) + |out|
  {
    if ws == [] {
    } else {
      var n := |ws| - 1;
      MarkSums(w, ws[..n], count);
      Facts(ws[..n], 0);
      var ws' := Mark(w, ws, count).0;
      assert ws'[..n] == Mark(w, ws[..n], count).0;
    }
  }

  lemma {:induction false} MarkIds(w: nat, ws: seq<Tracked>, count: int, id: nat)
    ensures Tally(Mark(w, ws, count).0, HasId(id)) == Tally(ws, HasId(id))
  {
    if ws == [] {
    } else {
      var n := |ws| - 1;
      MarkIds(w, ws[..n], count, id);
      assert Mark(w, ws, count).0[..n] == Mark(w, ws[..n], count).0;
    }
  }

  /** The instances of one worker, and of all, that are not stopping. */
  function Idle(): Worker -> int { (v: Worker) => |v.instances| - Tally(v.instances, IsStopping()) }

  lemma {:induction false} MarkAllCount(workers: seq<Worker>, count: nat)
    ensures 0 <= Tally(workers, Idle()) && |MarkAll(workers, count).1| == Min(count, Tally(workers, Idle()))
  {
    if workers == [] {
    } else {
      var n := |workers| - 1;
      MarkAllCount(workers[..n], count);
      var out := MarkAll(workers[..n], count).1;
      MarkSums(n, workers[n].instances, count - |out|);
      Facts(workers[n].instances, 0);
      assert |MarkAll(workers, count).1| == |out| + |Mark(n, workers[n].instances, count - |out|).1|;
    }
  }

  lemma {:induction false} MarkAllSums(workers: seq<Worker>, count: nat)
    ensures Tally(workers, Idle()) == Tally(workers, Over(One())) - Tally(workers, Over(IsStopping()))
    ensures Tally(MarkAll(workers, count).0, Over(IsStopping()))
              == Tally(workers, Over(IsStopping())) + |MarkAll(workers, count).1|
  {
    if workers == [] {
    } else {
      var n := |workers| - 1;
      MarkAllSums(workers[..n], count);
      MarkAllCount(workers[..n], count);
      var (done, out) := MarkAll(workers[..n], count);
      MarkSums(n, workers[n].instances, count - |out|);
      Facts(workers[n].instances, 0);
      assert MarkAll(workers, count).0[..n] == done;
    }
  }

  lemma {:induction false} MarkAllKeeps(workers: seq<Worker>, count: nat)
    ensures var workers' := MarkAll(workers, count).0;
            && Tally(workers', Over(One())) == Tally(workers, Over(One()))
            && Tally(workers', Starts()) == Tally(workers, Starts())
            && (forall j :: 0 <= j < |workers| ==> workers'[j].pendingStarts == workers[j].pendingStarts)
  {
    if workers == [] {
    } else {
      var n := |workers| - 1;
      MarkAllKeeps(workers[..n], count);
      var workers' := MarkAll(workers, count).0;
      assert workers'[..n] == MarkAll(workers[..n], count).0;
      Facts(workers[n].instances, 0);
      Facts(workers'[n].instances, 0);
    }
  }

  lemma {:induction false} MarkAllIds(workers: seq<Worker>, count: nat, id: nat)
    ensures Tally(MarkAll(workers, count).0, Over(HasId(id))) == Tally(workers, Over(HasId(id)))
  {
    if workers == [] {
    } else {
      var n := |workers| - 1;
      MarkAllIds(workers[..n], count, id);
      MarkIds(n, workers[n].instances, count - |MarkAll(workers[..n], count).1|, id);
      assert MarkAll(workers, count).0[..n] == MarkAll(workers[..n], count).0;
    }
  }

  /** Stop reservations mark exactly as many instances as asked for or available. */
  lemma StopVictimsOk(a: Actuator, count: int)
    requires Inv(a)
    ensures var (a', out) := StopVictims(a, count);
            && Inv(a') && SamePopulation(a, a') && a'.departures == a.departures && a'.target == a.target
            && |out| == (if count <= 0 then 0 else Min(count, a.total - a.pendingStops))
            && Future(a') == Future(a) - |out|
  {
    if count > 0 {
      MarkAllCount(a.workers, count);
      MarkAllSums(a.workers, count);
      MarkAllKeeps(a.workers, count);
      var a' := StopVictims(a, count).0;
      forall id ensures Population(a', id) == Population(a, id) { MarkAllIds(a.workers, count, id); }
    }
  }

  // ------------------------------------------------------------------- starts

  lemma ReserveStartOk(a: Actuator, w: int, limits: Limits, enforceTarget: bool, coldStart: bool, maxInstances: int)
    requires Inv(a)
    ensures var r := ReserveStart(a, w, limits, enforceTarget, coldStart, maxInstances);
            r.Reserved? ==> Inv(r.a) && SamePopulation(a, r.a)
  {
    var r := ReserveStart(a, w, limits, enforceTarget, coldStart, maxInstances);
    if r.Reserved? {
      assert a.departures + [] == a.departures;
      RecordOk(a, r.a, w, []);
    }
  }

  /** The end of a start keeps the counters exact and adds its instance to the population. */
  lemma EndStartCounts(a: Actuator, w: nat, started: seq<Tracked>)
    requires Counts(a) && w < |a.workers| && a.workers[w].pendingStarts > 0 && |started| <= 1
    requires forall t :: t in started ==> !t.stopping
    ensures Counts(EndStart(a, w, started))
    ensures forall id :: Population(EndStart(a, w, started), id) == Population(a, id) + Tally(started, HasId(id))
  {
    var a' := EndStart(a, w, started);
    var ws := a.workers[w].instances;
    TallyConcat(ws, started, IsStopping());
    Facts(started, 0);
    if started != [] { assert started[0] in started && started == [started[0]]; }
    assert a.departures + [] == a.departures;
    RecordOk(a, a', w, []);
    forall id ensures Population(a', id) == Population(a, id) + Tally(started, HasId(id)) {
      TallyConcat(ws, started, HasId(id));
    }
  }

  lemma TallySingle(t: Tracked, id: nat)
    ensures Tally([t], HasId(id)) == if t.id == id then 1 else 0
  {
    TallyAppend([], t, HasId(id));
    assert [] + [t] == [t];
  }

  lemma PopulationNatural(a: Actuator, id: nat)
    ensures Population(a, id) >= 0
  {
    forall j | 0 <= j < |a.workers| ensures Over(HasId(id))(a.workers[j]) >= 0 { Facts(a.workers[j].instances, id); }
    TallyBound(a.workers, Over(HasId(id)));
    TallyBound(a.departures, IsDeparture(id));
  }

  /** One more occurrence of `t` keeps every population at most one exactly if there was none. */
  lemma OneMore(a: Actuator, a': Actuator, t: Tracked)
    requires forall id :: Population(a, id) <= 1
    requires forall id :: Population(a', id) == Population(a, id) + Tally([t], HasId(id))
    ensures (forall id :: Population(a', id) <= 1) <==> Population(a, t.id) == 0
  {
    forall id ensures Population(a', id) == Population(a, id) + if t.id == id then 1 else 0 { TallySingle(t, id); }
    PopulationNatural(a, t.id);
    assert Population(a', t.id) == Population(a, t.id) + 1;
  }

  /** It keeps the invariant exactly if that instance was never tracked before. */
  lemma EndStartOk(a: Actuator, w: nat, started: seq<Tracked>)
    requires Inv(a) && w < |a.workers| && a.workers[w].pendingStarts > 0 && |started| <= 1
    requires forall t :: t in started ==> !t.stopping
    ensures Counts(EndStart(a, w, started))
    ensures Inv(EndStart(a, w, started)) <==> forall t :: t in started ==> Population(a, t.id) == 0
    ensures forall id :: Population(EndStart(a, w, started), id) == Population(a, id) + Tally(started, HasId(id))
  {
    EndStartCounts(a, w, started);
    if started == [] {
      assert forall id :: Tally(started, HasId(id)) == 0;
    } else {
      assert started == [started[0]] && started[0] in started;
      OneMore(a, EndStart(a, w, started), started[0]);
    }
  }
}
