/** Every pending stop has its goroutine: a tracked instance is marked as stopping exactly while one
    stop goroutine runs for it (`pkg/leaf/autoscaling/actuator.go`), whatever relists and events
    take away meanwhile. */
module StopOwnership {
  import opened ActuatorModel
  import opened ActuatorProofs
  import opened EvictionModel
  import opened EvictionProofs
  import opened Tallies

  function StoppingId(id: nat): Tracked -> int { (t: Tracked) => if t.id == id && t.stopping then 1 else 0 }
  function VictimIs(id: nat): Victim -> int { (v: Victim) => if v.id == id then 1 else 0 }
  function RunningFor(id: nat): StopCall -> int { (c: StopCall) => if c.victim.id == id && c.Running() then 1 else 0 }

  ghost function Tracks(workers: seq<Worker>, id: nat): int { Tally(workers, Over(HasId(id))) }
  ghost function Stopping(workers: seq<Worker>, id: nat): int { Tally(workers, Over(StoppingId(id))) }

  ghost predicate OwnedId(workers: seq<Worker>, stops: seq<StopCall>, id: nat) {
    Tracks(workers, id) == 1 ==> Stopping(workers, id) == Tally(stops, RunningFor(id))
  }

  /** The instance of a stop is tracked nowhere but on its worker. */
  ghost predicate Placed(workers: seq<Worker>, v: Victim) {
    && v.worker < |workers|
    && forall w :: 0 <= w < |workers| && w != v.worker ==> Tally(workers[w].instances, HasId(v.id)) == 0
  }

  ghost predicate Owned(workers: seq<Worker>, stops: seq<StopCall>) {
    && (forall id :: OwnedId(workers, stops, id))
    && (forall k :: 0 <= k < |stops| ==> Placed(workers, stops[k].victim))
  }

  // ------------------------------------------------------------------ counting

  /** Stopping entries are entries; both counts are natural. */
  lemma {:induction false} StoppingBound(ws: seq<Tracked>, id: nat)
    ensures 0 <= Tally(ws, StoppingId(id)) <= Tally(ws, HasId(id))
  {
    if ws == [] {
    } else {
      StoppingBound(ws[..|ws| - 1], id);
    }
  }

  lemma TracksBound(a: Actuator, id: nat)
    requires Inv(a)
    ensures 0 <= Tracks(a.workers, id) <= 1
    ensures forall w :: 0 <= w < |a.workers| ==> 0 <= Tally(a.workers[w].instances, HasId(id)) <= Tracks(a.workers, id)
  {
    assert Population(a, id) <= 1;
    forall j | 0 <= j < |a.workers| ensures Over(HasId(id))(a.workers[j]) >= 0 { Facts(a.workers[j].instances, id); }
    TallyBound(a.workers, Over(HasId(id)));
    TallyBound(a.departures, IsDeparture(id));
    forall w | 0 <= w < |a.workers| ensures 0 <= Tally(a.workers[w].instances, HasId(id)) <= Tracks(a.workers, id) {
      assert Over(HasId(id))(a.workers[w]) <= Tracks(a.workers, id);
    }
  }

  /** Replacing one list changes both sums by what changes in the list. */
  lemma ReplaceCounts(workers: seq<Worker>, w: nat, v: Worker, id: nat)
    requires w < |workers|
    ensures Tracks(workers[w := v], id) == Tracks(workers, id) - Tally(workers[w].instances, HasId(id)) + Tally(v.instances, HasId(id))
    ensures Stopping(workers[w := v], id)
              == Stopping(workers, id) - Tally(workers[w].instances, StoppingId(id)) + Tally(v.instances, StoppingId(id))
  {
    TallyUpdate(workers, w, v, Over(HasId(id)));
    TallyUpdate(workers, w, v, Over(StoppingId(id)));
  }

  /** A list that only loses entries, and what it keeps of an id keeps its flag. */
  ghost predicate Shrinks(ws: seq<Tracked>, ws': seq<Tracked>, id: nat) {
    && 0 <= Tally(ws', HasId(id)) <= Tally(ws, HasId(id))
    && (Tally(ws', HasId(id)) == Tally(ws, HasId(id)) ==> Tally(ws', StoppingId(id)) == Tally(ws, StoppingId(id)))
  }

  lemma ShrinkOwned(a: Actuator, w: nat, v: Worker, stops: seq<StopCall>)
    requires Inv(a) && Owned(a.workers, stops) && w < |a.workers|
    requires forall id :: Shrinks(a.workers[w].instances, v.instances, id)
    ensures Owned(a.workers[w := v], stops)
  {
    var workers' := a.workers[w := v];
    forall id ensures OwnedId(workers', stops, id) {
      assert Shrinks(a.workers[w].instances, v.instances, id) && OwnedId(a.workers, stops, id);
      ReplaceCounts(a.workers, w, v, id);
      TracksBound(a, id);
    }
    forall k | 0 <= k < |stops| ensures Placed(workers', stops[k].victim) {
      assert Placed(a.workers, stops[k].victim) && Shrinks(a.workers[w].instances, v.instances, stops[k].victim.id);
    }
  }

  lemma RelistShrinks(ws: seq<Tracked>, p: Presence, id: nat)
    ensures Shrinks(ws, Kept(ws, p), id)
  {
    Partition(ws, p, HasId(id));
    Partition(ws, p, StoppingId(id));
    StoppingBound(Kept(ws, p), id);
    StoppingBound(Evicted(ws, p), id);
  }

  /** The list without entry `k`: with the gap closed, or with the last entry moved into it. */
  function Closed(ws: seq<Tracked>, k: nat): seq<Tracked>
    requires k < |ws|
  {
    ws[..k] + ws[k + 1..]
  }

  function Swapped(ws: seq<Tracked>, k: nat): seq<Tracked>
    requires k < |ws|
  {
    ws[k := ws[|ws| - 1]][..|ws| - 1]
  }

  /** A list one entry shorter, in every count. */
  lemma LessShrinks(ws: seq<Tracked>, ws': seq<Tracked>, t: Tracked, id: nat)
    requires Tally(ws', HasId(id)) == Tally(ws, HasId(id)) - HasId(id)(t)
    requires Tally(ws', StoppingId(id)) == Tally(ws, StoppingId(id)) - StoppingId(id)(t)
    ensures Shrinks(ws, ws', id)
  {
    StoppingBound(ws', id);
  }

  lemma CutShrinks(ws: seq<Tracked>, k: nat, id: nat)
    requires k < |ws|
    ensures Shrinks(ws, Closed(ws, k), id) && Shrinks(ws, Swapped(ws, k), id)
    ensures Tally(Swapped(ws, k), HasId(id)) == Tally(ws, HasId(id)) - HasId(id)(ws[k])
  {
    TallyGap(ws, k, HasId(id));
    TallyGap(ws, k, StoppingId(id));
    LessShrinks(ws, Closed(ws, k), ws[k], id);
    SwapRemove(ws, k, HasId(id));
    SwapRemove(ws, k, StoppingId(id));
    LessShrinks(ws, Swapped(ws, k), ws[k], id);
  }

  // ------------------------------------------------------------------ messages

  lemma HandleOwned(a: Actuator, m: Message, stops: seq<StopCall>)
    requires Inv(a) && Owned(a.workers, stops)
    ensures Owned(Handle(a, m).workers, stops)
  {
    if m.worker < |a.workers| {
      var ws := a.workers[m.worker].instances;
      if m.Snapshot? {
        forall id ensures Shrinks(ws, Kept(ws, m.presence), id) { RelistShrinks(ws, m.presence, id); }
        ShrinkOwned(a, m.worker, a.workers[m.worker].(instances := Kept(ws, m.presence)), stops);
      } else if m.Removal? {
        var k := Find(ws, m.id);
        if k < |ws| && !Stale(ws[k], m.revision) {
          forall id ensures Shrinks(ws, Closed(ws, k), id) { CutShrinks(ws, k, id); }
          ShrinkOwned(a, m.worker, a.workers[m.worker].(instances := Closed(ws, k)), stops);
        }
      }
    }
  }

  // ----------------------------------------------------------------- decisions

  lemma {:induction false} MarkStopping(w: nat, ws: seq<Tracked>, count: int, id: nat)
    ensures var (ws', out) := Mark(w, ws, count);
            Tally(ws', StoppingId(id)) == Tally(ws, StoppingId(id)) + Tally(out, VictimIs(id))
  {
    if ws == [] {
    } else {
      var n := |ws| - 1;
      MarkStopping(w, ws[..n], count, id);
      var (ws', out) := Mark(w, ws[..n], count);
      TallyAppend(out, Victim(w, ws[n].id, ws[n].address), VictimIs(id));
      assert Mark(w, ws, count).0[..n] == ws';
    }
  }

  lemma {:induction false} MarkAllStopping(workers: seq<Worker>, count: int, id: nat)
    ensures var (workers', out) := MarkAll(workers, count);
            Stopping(workers', id) == Stopping(workers, id) + Tally(out, VictimIs(id))
  {
    if workers == [] {
    } else {
      var n := |workers| - 1;
      MarkAllStopping(workers[..n], count, id);
      var (done, out) := MarkAll(workers[..n], count);
      var more := Mark(n, workers[n].instances, count - |out|).1;
      MarkStopping(n, workers[n].instances, count - |out|, id);
      TallyConcat(out, more, VictimIs(id));
      var last := workers[n].(instances := Mark(n, workers[n].instances, count - |out|).0);
      assert MarkAll(workers, count) == (done + [last], out + more);
      TallyAppend(done, last, Over(StoppingId(id)));
    }
  }

  lemma {:induction false} CallsRun(victims: seq<Victim>, id: nat)
    ensures Tally(Calls(victims), RunningFor(id)) == Tally(victims, VictimIs(id))
  {
    if victims == [] {
    } else {
      var n := |victims| - 1;
      CallsRun(victims[..n], id);
      assert Calls(victims)[..n] == Calls(victims[..n]);
    }
  }

  lemma {:induction false} SameIds(ws: seq<Tracked>, ws': seq<Tracked>, id: nat)
    requires SameEntries(ws, ws')
    ensures Tally(ws', HasId(id)) == Tally(ws, HasId(id))
  {
    if ws == [] {
    } else {
      SameIds(ws[..|ws| - 1], ws'[..|ws| - 1], id);
    }
  }

  /** A tracked instance is tracked nowhere else. */
  lemma TrackedPlaced(a: Actuator, v: Victim)
    requires Inv(a) && IsTracked(a.workers, v)
    ensures Placed(a.workers, v)
  {
    var ws := a.workers[v.worker].instances;
    var t :| t in ws && t.id == v.id;
    var k :| 0 <= k < |ws| && ws[k] == t;
    Facts(ws, v.id);
    assert HasId(v.id)(ws[k]) == 1;
    TracksBound(a, v.id);
    var rest := a.workers[v.worker := Worker([], 0)];
    ReplaceCounts(a.workers, v.worker, Worker([], 0), v.id);
    forall j | 0 <= j < |rest| ensures Over(HasId(v.id))(rest[j]) >= 0 { Facts(rest[j].instances, v.id); }
    TallyBound(rest, Over(HasId(v.id)));
    forall w | 0 <= w < |a.workers| && w != v.worker ensures Tally(a.workers[w].instances, HasId(v.id)) == 0 {
      assert Over(HasId(v.id))(rest[w]) <= Tally(rest, Over(HasId(v.id)));
    }
  }

  lemma PlacedSame(workers: seq<Worker>, workers': seq<Worker>, v: Victim)
    requires Placed(workers, v) && |workers'| == |workers|
    requires forall j :: 0 <= j < |workers| ==> SameEntries(workers[j].instances, workers'[j].instances)
    ensures Placed(workers', v)
  {
    forall w | 0 <= w < |workers'| && w != v.worker ensures Tally(workers'[w].instances, HasId(v.id)) == 0 {
      SameIds(workers[w].instances, workers'[w].instances, v.id);
    }
  }

  lemma StopOwned(a: Actuator, count: int, stops: seq<StopCall>)
    requires Inv(a) && Owned(a.workers, stops)
    ensures Owned(StopVictims(a, count).0.workers, stops + Calls(StopVictims(a, count).1))
  {
    var (a', out) := StopVictims(a, count);
    if count <= 0 {
      assert stops + Calls(out) == stops;
    } else {
      MarkAllTracks(a.workers, count);
      MarkAllEntries(a.workers, count);
      forall id ensures OwnedId(a'.workers, stops + Calls(out), id) {
        assert OwnedId(a.workers, stops, id);
        MarkAllIds(a.workers, count, id);
        MarkAllStopping(a.workers, count, id);
        CallsRun(out, id);
        TallyConcat(stops, Calls(out), RunningFor(id));
      }
      forall k | 0 <= k < |stops + Calls(out)| ensures Placed(a'.workers, (stops + Calls(out))[k].victim) {
        var v := (stops + Calls(out))[k].victim;
        if k >= |stops| {
          assert v in out;
          TrackedPlaced(a, v);
        }
        PlacedSame(a.workers, a'.workers, v);
      }
    }
  }

  lemma ChooseOwned(a: Actuator, d: Decision, stops: seq<StopCall>)
    requires Inv(a) && Owned(a.workers, stops)
    ensures Owned(Decide(a, d).0.workers, stops + Calls(Decide(a, d).1))
  {
    match d
    case SetTarget(_) => assert stops + Calls([]) == stops;
    case StopSome(count) => StopOwned(a, count, stops);
    case StopExcess(count) => StopOwned(a, Min(count, Future(a) - a.target), stops);
  }

  // --------------------------------------------------------------------- stops

  lemma {:induction false} StoppingWithin(workers: seq<Worker>, id: nat)
    ensures 0 <= Stopping(workers, id) <= Tracks(workers, id)
  {
    if workers == [] {
    } else {
      StoppingWithin(workers[..|workers| - 1], id);
      StoppingBound(workers[|workers| - 1].instances, id);
    }
  }

  /** The only entry of an id decides whether the id is stopping. */
  lemma SoleEntry(a: Actuator, w: nat, n: nat)
    requires Inv(a) && w < |a.workers| && n < |a.workers[w].instances|
    ensures var t := a.workers[w].instances[n];
            Tracks(a.workers, t.id) == 1 && Stopping(a.workers, t.id) == if t.stopping then 1 else 0
  {
    var ws := a.workers[w].instances;
    var id := ws[n].id;
    Facts(ws, id);
    assert HasId(id)(ws[n]) == 1;
    TracksBound(a, id);
    var rest := a.workers[w := a.workers[w].(instances := Closed(ws, n))];
    TallyGap(ws, n, HasId(id));
    TallyGap(ws, n, StoppingId(id));
    ReplaceCounts(a.workers, w, rest[w], id);
    StoppingWithin(rest, id);
  }

  lemma {:induction false} NotFound(ws: seq<Tracked>, id: nat)
    requires forall j :: 0 <= j < |ws| ==> ws[j].id != id
    ensures Tally(ws, HasId(id)) == 0
  {
    if ws == [] {
    } else {
      NotFound(ws[..|ws| - 1], id);
    }
  }

  lemma PlacedNowhere(workers: seq<Worker>, v: Victim)
    requires Placed(workers, v) && Find(workers[v.worker].instances, v.id) == |workers[v.worker].instances|
    ensures Tracks(workers, v.id) == 0
  {
    NotFound(workers[v.worker].instances, v.id);
    TallyZero(workers, Over(HasId(v.id)));
  }

  /** The end of a stop whose instance is not tracked any more. */
  lemma EndOwned(workers: seq<Worker>, stops: seq<StopCall>, k: nat, phase: StopPhase)
    requires Owned(workers, stops) && k < |stops| && Tracks(workers, stops[k].victim.id) == 0
    ensures Owned(workers, stops[k := stops[k].(phase := phase)])
  {
    var stops' := stops[k := stops[k].(phase := phase)];
    forall id ensures OwnedId(workers, stops', id) {
      assert OwnedId(workers, stops, id);
      TallyUpdate(stops, k, stops'[k], RunningFor(id));
    }
    forall j | 0 <= j < |stops'| ensures Placed(workers, stops'[j].victim) { assert Placed(workers, stops[j].victim); }
  }

  /** A step inside a stop. */
  lemma GoOnOwned(workers: seq<Worker>, stops: seq<StopCall>, k: nat, phase: StopPhase)
    requires Owned(workers, stops) && k < |stops| && stops[k].Running() && stops[k].(phase := phase).Running()
    ensures Owned(workers, stops[k := stops[k].(phase := phase)])
  {
    var stops' := stops[k := stops[k].(phase := phase)];
    forall id ensures OwnedId(workers, stops', id) {
      assert OwnedId(workers, stops, id);
      TallyUpdate(stops, k, stops'[k], RunningFor(id));
    }
    forall j | 0 <= j < |stops'| ensures Placed(workers, stops'[j].victim) { assert Placed(workers, stops[j].victim); }
  }

  lemma RemoveOwned(a: Actuator, stops: seq<StopCall>, k: nat)
    requires Inv(a) && Owned(a.workers, stops) && k < |stops|
    ensures var v := stops[k].victim;
            Owned(RemoveStopped(a, v.worker, v.id).workers, stops[k := stops[k].(phase := StopPhase.Removed)])
  {
    var v := stops[k].victim;
    var ws := a.workers[v.worker].instances;
    var n := Find(ws, v.id);
    assert Placed(a.workers, v);
    if n == |ws| {
      PlacedNowhere(a.workers, v);
    } else {
      var x := a.workers[v.worker].(instances := Swapped(ws, n));
      forall id ensures Shrinks(ws, x.instances, id) { CutShrinks(ws, n, id); }
      ShrinkOwned(a, v.worker, x, stops);
      SoleEntry(a, v.worker, n);
      CutShrinks(ws, n, v.id);
      ReplaceCounts(a.workers, v.worker, x, v.id);
    }
    EndOwned(RemoveStopped(a, v.worker, v.id).workers, stops, k, StopPhase.Removed);
  }

  /** Taking back the stop of a tracked instance finds its flag up and lowers it. */
  lemma CancelOwned(a: Actuator, stops: seq<StopCall>, k: nat)
    requires Inv(a) && Owned(a.workers, stops) && k < |stops| && stops[k].Running()
    ensures Placed(a.workers, stops[k].victim)
    ensures var v := stops[k].victim;
            var ws := a.workers[v.worker].instances;
            && (Find(ws, v.id) < |ws| ==> ws[Find(ws, v.id)].stopping)
            && Owned(CancelStop(a, v.worker, v.id).workers, stops[k := stops[k].(phase := TakenBack)])
  {
    var v := stops[k].victim;
    var ws := a.workers[v.worker].instances;
    var n := Find(ws, v.id);
    assert Placed(a.workers, v);
    if n == |ws| {
      PlacedNowhere(a.workers, v);
      EndOwned(a.workers, stops, k, TakenBack);
    } else {
      SoleEntry(a, v.worker, n);
      TallyBound(stops, RunningFor(v.id));
      assert OwnedId(a.workers, stops, v.id) && RunningFor(v.id)(stops[k]) == 1;
      LowerOwned(a, stops, k, n);
    }
  }

  lemma LowerOwned(a: Actuator, stops: seq<StopCall>, k: nat, n: nat)
    requires Inv(a) && Owned(a.workers, stops) && k < |stops| && stops[k].Running() && stops[k].victim.worker < |a.workers|
    requires var ws := a.workers[stops[k].victim.worker].instances;
             n < |ws| && ws[n].id == stops[k].victim.id && ws[n].stopping
    ensures var w := stops[k].victim.worker;
            var ws := a.workers[w].instances;
            Owned(a.workers[w := a.workers[w].(instances := ws[n := ws[n].(stopping := false)])],
                  stops[k := stops[k].(phase := TakenBack)])
  {
    var w := stops[k].victim.worker;
    var ws := a.workers[w].instances;
    var t := ws[n].(stopping := false);
    var x := a.workers[w].(instances := ws[n := t]);
    var stops' := stops[k := stops[k].(phase := TakenBack)];
    var workers' := a.workers[w := x];
    forall id ensures OwnedId(workers', stops', id) {
      assert OwnedId(a.workers, stops, id);
      TallyUpdate(ws, n, t, HasId(id));
      TallyUpdate(ws, n, t, StoppingId(id));
      ReplaceCounts(a.workers, w, x, id);
      TallyUpdate(stops, k, stops'[k], RunningFor(id));
    }
    forall j | 0 <= j < |stops'| ensures Placed(workers', stops'[j].victim) {
      assert Placed(a.workers, stops[j].victim);
      PlacedSame(a.workers, workers', stops[j].victim);
    }
  }

  // -------------------------------------------------------------------- starts

  /** No stop has the id of an instance that was never tracked. */
  lemma FreshId(s: System, id: nat)
    requires SystemInv(s) && Population(s.leaf, id) == 0
    ensures Tracks(s.leaf.workers, id) == 0 && Tally(s.stops, RunningFor(id)) == 0
    ensures forall k :: 0 <= k < |s.stops| ==> s.stops[k].victim.id != id
  {
    TracksBound(s.leaf, id);
    TallyBound(s.leaf.departures, IsDeparture(id));
    forall k | 0 <= k < |s.stops| ensures s.stops[k].victim.id != id {
      assert CallOk(s.nodes, s.leaf, s.admitted, s.stops[k]);
    }
    TallyZero(s.stops, RunningFor(id));
  }

  lemma AppendOwned(s: System, w: nat, t: Tracked, x: Worker)
    requires SystemInv(s) && Owned(s.leaf.workers, s.stops) && w < |s.leaf.workers| && !t.stopping && Population(s.leaf, t.id) == 0
    requires x.instances == s.leaf.workers[w].instances + [t]
    ensures Owned(s.leaf.workers[w := x], s.stops)
  {
    var workers, ws := s.leaf.workers, s.leaf.workers[w].instances;
    var workers' := workers[w := x];
    FreshId(s, t.id);
    forall id ensures OwnedId(workers', s.stops, id) {
      assert OwnedId(workers, s.stops, id);
      TallyAppend(ws, t, HasId(id));
      TallyAppend(ws, t, StoppingId(id));
      ReplaceCounts(workers, w, x, id);
      StoppingWithin(workers, id);
    }
    forall k | 0 <= k < |s.stops| ensures Placed(workers', s.stops[k].victim) {
      assert Placed(workers, s.stops[k].victim);
      TallyAppend(ws, t, HasId(s.stops[k].victim.id));
    }
  }

  /** Only the counter of pending starts changes. */
  lemma SameOwned(a: Actuator, w: nat, x: Worker, stops: seq<StopCall>)
    requires Inv(a) && Owned(a.workers, stops) && w < |a.workers| && x.instances == a.workers[w].instances
    ensures Owned(a.workers[w := x], stops)
  {
    forall id ensures Shrinks(a.workers[w].instances, x.instances, id) { StoppingBound(x.instances, id); }
    ShrinkOwned(a, w, x, stops);
  }

  // ---------------------------------------------------------------------- runs

  lemma StartStepOwned(s: System, op: Op)
    requires SystemInv(s) && Enabled(s, op) && Owned(s.leaf.workers, s.stops) && (op.StartJob? || op.FinishJob? || op.FailJob?)
    ensures Owned(Apply(s, op).leaf.workers, s.stops) && Apply(s, op).stops == s.stops
  {
    match op
    case StartJob(w, _, _, _, _, _) => SameOwned(s.leaf, w, Apply(s, op).leaf.workers[w], s.stops);
    case FinishJob(k, m, _) =>
      AppendOwned(s, s.jobs[k].worker, Tracked(m.id, m.address, false, m.revision), Apply(s, op).leaf.workers[s.jobs[k].worker]);
    case FailJob(k) =>
      var w := s.jobs[k].worker;
      assert s.leaf.workers[w].instances + [] == s.leaf.workers[w].instances;
      SameOwned(s.leaf, w, Apply(s, op).leaf.workers[w], s.stops);
  }

  lemma StopStepOwned(s: System, op: Op)
    requires SystemInv(s) && Enabled(s, op) && Owned(s.leaf.workers, s.stops) && OfStop(op)
    ensures Owned(Apply(s, op).leaf.workers, Apply(s, op).stops)
  {
    match op
    case DrainReturns(k) => GoOnOwned(s.leaf.workers, s.stops, k, Drained);
    case ConfirmStop(k) => GoOnOwned(s.leaf.workers, s.stops, k, Confirmed);
    case FinishStop(k) => RemoveOwned(s.leaf, s.stops, k);
    case FailStop(k) => CancelOwned(s.leaf, s.stops, k);
  }

  lemma StepOwned(s: System, op: Op)
    requires SystemInv(s) && Enabled(s, op) && Owned(s.leaf.workers, s.stops)
    ensures Owned(Apply(s, op).leaf.workers, Apply(s, op).stops)
  {
    if op.Choose? {
      ChooseOwned(s.leaf, op.d, s.stops);
    } else if op.Receive? {
      HandleOwned(s.leaf, op.m, s.stops);
    } else if OfStop(op) {
      StopStepOwned(s, op);
    } else if op.StartJob? || op.FinishJob? || op.FailJob? {
      StartStepOwned(s, op);
    }
  }

  lemma InitialOwned(s: System)
    requires Initial(s)
    ensures Owned(s.leaf.workers, s.stops)
  {
    forall id ensures OwnedId(s.leaf.workers, s.stops, id) { TallyZero(s.leaf.workers, Over(HasId(id))); }
  }

  lemma {:induction false} RunOwned(ss: seq<System>, ops: seq<Op>, i: nat)
    requires IsRun(ss, ops) && i < |ss|
    ensures Owned(ss[i].leaf.workers, ss[i].stops)
  {
    if i == 0 {
      InitialOwned(ss[0]);
    } else {
      RunOwned(ss, ops, i - 1);
      RunInv(ss, ops, i - 1);
      assert Stepped(ss, ops, i - 1);
      StepOwned(ss[i - 1], ops[i - 1]);
    }
  }

  /** A tracked instance is stopping exactly while a stop goroutine runs for it, and then there is
      just one. */
  lemma StopsAreOwned(ss: seq<System>, ops: seq<Op>, i: nat, w: nat, n: nat)
    requires IsRun(ss, ops) && i < |ss| && w < |ss[i].leaf.workers| && n < |ss[i].leaf.workers[w].instances|
    ensures var t := ss[i].leaf.workers[w].instances[n];
            Tally(ss[i].stops, RunningFor(t.id)) == if t.stopping then 1 else 0
  {
    var s := ss[i];
    RunOwned(ss, ops, i);
    RunInv(ss, ops, i);
    SoleEntry(s.leaf, w, n);
    assert OwnedId(s.leaf.workers, s.stops, s.leaf.workers[w].instances[n].id);
  }

  /** So with no stop goroutine running no stop is pending. */
  lemma NoStopIsLeftOver(ss: seq<System>, ops: seq<Op>, i: nat)
    requires IsRun(ss, ops) && i < |ss| && forall k :: 0 <= k < |ss[i].stops| ==> !ss[i].stops[k].Running()
    ensures ss[i].leaf.pendingStops == 0
  {
    var s := ss[i];
    RunInv(ss, ops, i);
    forall w | 0 <= w < |s.leaf.workers| ensures Over(IsStopping())(s.leaf.workers[w]) == 0 {
      var ws := s.leaf.workers[w].instances;
      forall n | 0 <= n < |ws| ensures IsStopping()(ws[n]) == 0 {
        StopsAreOwned(ss, ops, i, w, n);
        TallyZero(s.stops, RunningFor(ws[n].id));
      }
      TallyZero(ws, IsStopping());
    }
    TallyZero(s.leaf.workers, Over(IsStopping()));
  }
}
