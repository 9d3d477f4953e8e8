/** The actuator of `pkg/leaf/autoscaling/actuator.go` as a class: every method is the critical
    section of one source method, proved against the step of the model. */
module Autoscaling {
  import opened ActuatorEffects
  import opened ActuatorModel
  import opened ActuatorProofs
  import Strict = StrictBatches

  class SandboxActuator {
    var workers: seq<Worker>
    var totalInstances: int
    var pendingStarts: int
    var pendingStops: int
    var targetInstances: int
    ghost var departures: seq<Departure>

    var strictScale: int
    var strictKnown: bool
    var strictActive: bool
    ghost var batches: seq<Strict.Batch>
    ghost var guarded: nat

    ghost function State(): Actuator
      reads this
    {
      Actuator(workers, totalInstances, pendingStarts, pendingStops, targetInstances, departures)
    }

    ghost function StrictState(): Strict.Strict
      reads this
    {
      Strict.Strict(strictScale, strictKnown, strictActive, batches, guarded)
    }

    ghost predicate Valid()
      reads this
    {
      Inv(State()) && Strict.Inv(StrictState())
    }

    constructor (n: nat)
      ensures Valid() && |workers| == n && departures == [] && targetInstances == 0
      ensures forall w :: 0 <= w < n ==> workers[w] == Worker([], 0)
    {
      workers := seq(n, _ => Worker([], 0));
      totalInstances, pendingStarts, pendingStops, targetInstances, departures := 0, 0, 0, 0, [];
      strictScale, strictKnown, strictActive, batches, guarded := 0, false, false, [], 0;
      new;
      NoInstances(State());
    }

    method SetTarget(desired: nat)
      requires Valid()
      modifies `targetInstances
      ensures Valid() && State() == old(State()).(target := desired)
    {
      targetInstances := desired;
      assert forall id :: Population(State(), id) == Population(old(State()), id);
    }

    /** The pass of ReconcileWorkerState over one worker's list, which it compacts. */
    method Compact(w: nat, presence: Presence) returns (removed: seq<Tracked>)
      requires w < |workers|
      modifies `workers, `totalInstances, `pendingStops
      ensures removed == Evicted(old(workers)[w].instances, presence)
      ensures workers == old(workers)[w := old(workers)[w].(instances := Kept(old(workers)[w].instances, presence))]
      ensures totalInstances == old(totalInstances) - |removed|
      ensures pendingStops == StopsAfter(old(workers)[w].instances, presence, old(pendingStops))
    {
      removed := [];
      var ws := workers[w].instances;
      var kept: seq<Tracked> := [];
      var i := 0;
      while i < |ws|
        invariant i <= |ws| && workers == old(workers)
        invariant kept == Kept(ws[..i], presence) && removed == Evicted(ws[..i], presence)
        invariant pendingStops == StopsAfter(ws[..i], presence, old(pendingStops))
        invariant totalInstances == old(totalInstances) - |removed|
      {
        var instance := ws[i];
        assert ws[..i + 1][..i] == ws[..i];
        if instance.id in presence.ids || instance.revision == 0 || presence.revision == 0 || presence.revision < instance.revision {
          kept := kept + [instance];
        } else {
          removed := removed + [instance];
          if instance.stopping && pendingStops > 0 { pendingStops := pendingStops - 1; }
          totalInstances := totalInstances - 1;
        }
        i := i + 1;
      }
      assert ws[..|ws|] == ws;
      workers := workers[w := workers[w].(instances := kept)];
    }

    /** ReconcileWorkerState and evictTracked. */
    method ReconcileWorkerState(w: int, presence: Presence)
      requires Valid()
      modifies `workers, `totalInstances, `pendingStops, `departures
      ensures Valid() && State() == Reconcile(old(State()), w, presence)
    {
      ReconcileOk(State(), w, presence);
      if 0 <= w < |workers| {
        var removed := Compact(w, presence);
        EvictTracked(w, removed, Relist);
      }
      assert State() == Reconcile(old(State()), w, presence) && StrictState() == old(StrictState());
    }

    /** evictTracked: one RecordStop for every instance that was removed. */
    method EvictTracked(w: nat, removed: seq<Tracked>, ghost cause: Cause)
      modifies `departures
      ensures departures == old(departures) + Recorded(w, removed, cause)
    {
      var i := 0;
      assert removed[..0] == [];
      while i < |removed|
        invariant i <= |removed| && departures == old(departures) + Recorded(w, removed[..i], cause)
      {
        assert removed[..i + 1][..i] == removed[..i];
        departures := departures + [Departure(w, removed[i].id, removed[i].address, cause, true)];
        i := i + 1;
      }
      assert removed[..|removed|] == removed;
    }

    /** HandleSandboxRemoved up to the unlock. */
    method HandleRemovedLocked(w: int, id: nat, revision: nat) returns (removed: seq<Tracked>)
      modifies `workers, `totalInstances, `pendingStops
      ensures |removed| <= 1 && (removed != []) == HandleRemoved(old(State()), w, id, revision).1 && (removed != [] ==> w >= 0)
      ensures var s := HandleRemoved(old(State()), w, id, revision).0;
              State() == s.(departures := old(departures))
              && s.departures == old(departures) + if removed == [] then [] else [Departure(w, removed[0].id, removed[0].address, Event, true)]
    {
      if w < 0 || w >= |workers| { return []; }
      var i := FindInstance(w, id);
      var ws := workers[w].instances;
      if i == |ws| { return []; }
      if ws[i].revision != 0 && revision != 0 && revision < ws[i].revision { return []; }
      workers := workers[w := workers[w].(instances := ws[..i] + ws[i + 1..])];
      totalInstances := totalInstances - 1;
      if ws[i].stopping && pendingStops > 0 { pendingStops := pendingStops - 1; }
      removed := [ws[i]];
    }

    /** HandleSandboxRemoved and evictTracked. */
    method HandleSandboxRemoved(w: int, id: nat, revision: nat) returns (known: bool)
      requires Valid()
      modifies `workers, `totalInstances, `pendingStops, `departures
      ensures Valid() && (State(), known) == HandleRemoved(old(State()), w, id, revision)
      ensures known <==> (&& 0 <= w < |old(workers)|
                          && exists t :: t in old(workers)[w].instances && t.id == id && (t.revision == 0 || revision == 0 || t.revision <= revision))
    {
      HandleRemovedOk(State(), w, id, revision);
      if 0 <= w < |workers| { HandleRemovedEffect(State(), w, id, revision); }
      var removed := HandleRemovedLocked(w, id, revision);
      known := |removed| > 0;
      if known {
        EvictTracked(w, removed, Event);
        assert removed[..0] == [];
      }
      assert State() == HandleRemoved(old(State()), w, id, revision).0 && StrictState() == old(StrictState());
    }

    /** The search loop shared by HandleSandboxRemoved, cancelStop and removeInstance. */
    method FindInstance(w: nat, id: nat) returns (i: nat)
      requires w < |workers|
      ensures i == Find(workers[w].instances, id)
    {
      var ws := workers[w].instances;
      i := 0;
      while i < |ws|
        invariant i <= |ws| && forall j :: 0 <= j < i ==> ws[j].id != id
      {
        if ws[i].id == id { break; }
        i := i + 1;
      }
    }

    /** removeInstance, after a stop: the last entry fills the gap. */
    method RemoveInstance(w: int, id: nat)
      requires Valid()
      modifies `workers, `totalInstances, `pendingStops, `departures
      ensures Valid() && State() == RemoveStopped(old(State()), w, id)
    {
      RemoveStoppedOk(State(), w, id);
      if w < 0 || w >= |workers| { return; }
      var i := FindInstance(w, id);
      var ws := workers[w].instances;
      if i == |ws| { return; }
      if ws[i].stopping && pendingStops > 0 { pendingStops := pendingStops - 1; }
      var last := |ws| - 1;
      workers := workers[w := workers[w].(instances := ws[i := ws[last]][..last])];
      totalInstances := totalInstances - 1;
      departures := departures + [Departure(w, id, ws[i].address, Stop, ws[i].address != "")];
    }

    method CancelStopping(w: int, id: nat)
      requires Valid()
      modifies `workers, `pendingStops
      ensures Valid() && State() == CancelStop(old(State()), w, id)
    {
      CancelStopOk(State(), w, id);
      if w < 0 || w >= |workers| { return; }
      var i := FindInstance(w, id);
      var ws := workers[w].instances;
      if i < |ws| && ws[i].stopping {
        workers := workers[w := workers[w].(instances := ws[i := ws[i].(stopping := false)])];
        if pendingStops > 0 { pendingStops := pendingStops - 1; }
      }
    }

    /** The inner loop of instancesForStopLocked, over one worker. */
    method MarkWorker(w: nat, ws: seq<Tracked>, count: nat) returns (marked: seq<Tracked>, out: seq<Victim>)
      ensures (marked, out) == Mark(w, ws, count)
    {
      marked, out := [], [];
      var i := 0;
      assert ws[..0] == [];
      while i < |ws|
        invariant i <= |ws| && (marked, out) == Mark(w, ws[..i], count)
      {
        assert ws[..i + 1][..i] == ws[..i];
        if ws[i].stopping || |out| >= count {
          marked := marked + [ws[i]];
        } else {
          marked := marked + [ws[i].(stopping := true)];
          out := out + [Victim(w, ws[i].id, ws[i].address)];
        }
        i := i + 1;
      }
      assert ws[..|ws|] == ws;
    }

    /** instancesForStopLocked. */
    method InstancesForStopLocked(count: nat) returns (out: seq<Victim>)
      requires count > 0
      modifies `workers, `pendingStops
      ensures (State(), out) == StopVictims(old(State()), count)
    {
      out := [];
      var done: seq<Worker> := [];
      var idx := 0;
      assert workers[..0] == [];
      while idx < |workers|
        invariant idx <= |workers| && workers == old(workers) && pendingStops == old(pendingStops)
        invariant (done, out) == MarkAll(workers[..idx], count) && |out| <= count
      {
        assert workers[..idx + 1][..idx] == workers[..idx];
        var marked, more := MarkWorker(idx, workers[idx].instances, count - |out|);
        MarkSums(idx, workers[idx].instances, count - |out|);
        done := done + [workers[idx].(instances := marked)];
        out := out + more;
        idx := idx + 1;
      }
      assert workers[..|workers|] == workers;
      workers := done;
      pendingStops := pendingStops + |out|;
    }

    method InstancesForStop(count: int) returns (out: seq<Victim>)
      requires Valid()
      modifies `workers, `pendingStops
      ensures Valid() && (State(), out) == StopVictims(old(State()), count)
    {
      StopVictimsOk(State(), count);
      if count <= 0 { return []; }
      out := InstancesForStopLocked(count);
    }

    method InstancesForStopWithinTarget(count: int) returns (out: seq<Victim>)
      requires Valid()
      modifies `workers, `pendingStops
      ensures Valid() && (State(), out) == StopWithinTarget(old(State()), count)
    {
      var excess := totalInstances + pendingStarts - pendingStops - targetInstances;
      StopVictimsOk(State(), Min(count, excess));
      if count <= 0 { return []; }
      if excess <= 0 { return []; }
      out := InstancesForStopLocked(if count > excess then excess else count);
    }

    method ReserveLocalStart(w: int, limits: Limits, enforceTarget: bool, coldStart: bool, maxInstances: int)
      returns (error: seq<StartError>)
      requires Valid()
      modifies `workers, `pendingStarts
      ensures Valid()
      ensures var r := ReserveStart(old(State()), w, limits, enforceTarget, coldStart, maxInstances);
              if r.Reserved? then error == [] && State() == r.a else error == [r.error] && State() == old(State())
      ensures var future := old(totalInstances) + old(pendingStarts) - old(pendingStops);
              error == if w < 0 || w >= |old(workers)| then [UnknownWorker]
                       else if limits.Local? && (old(workers)[w].pendingStarts >= limits.startsPerWorker || old(pendingStarts) >= limits.starts)
                       then [SlotsExhausted]
                       else if limits.Local? && limits.instancesPerWorker > 0
                               && |old(workers)[w].instances| + old(workers)[w].pendingStarts >= limits.instancesPerWorker
                       then [WorkerAtCapacity]
                       else if (enforceTarget && future >= targetInstances) || (coldStart && future >= 1) then [NotNeeded]
                       else if maxInstances > 0 && future >= maxInstances then [AtMaxInstances]
                       else []
    {
      ReserveStartOk(State(), w, limits, enforceTarget, coldStart, maxInstances);
      if w < 0 || w >= |workers| { return [UnknownWorker]; }
      var ws := workers[w];
      if limits.Local? {
        if ws.pendingStarts >= limits.startsPerWorker || pendingStarts >= limits.starts { return [SlotsExhausted]; }
        if limits.instancesPerWorker > 0 && |ws.instances| + ws.pendingStarts >= limits.instancesPerWorker { return [WorkerAtCapacity]; }
      }
      var future := totalInstances + pendingStarts - pendingStops;
      if enforceTarget && future >= targetInstances { return [NotNeeded]; }
      if coldStart && future >= 1 { return [NotNeeded]; }
      if maxInstances > 0 && future >= maxInstances { return [AtMaxInstances]; }
      pendingStarts := pendingStarts + 1;
      workers := workers[w := ws.(pendingStarts := ws.pendingStarts + 1)];
      error := [];
    }

    /** The two ends of runStart: the instance is tracked, or the start is given up. An id the actuator
        has tracked before is appended all the same, and then it is tracked or has left twice. */
    method EndRunStart(w: nat, started: seq<Tracked>)
      requires Valid() && w < |workers| && workers[w].pendingStarts > 0 && |started| <= 1
      requires forall t :: t in started ==> !t.stopping
      modifies `workers, `pendingStarts, `totalInstances
      ensures State() == EndStart(old(State()), w, started) && StrictState() == old(StrictState()) && Counts(State())
      ensures pendingStarts == old(pendingStarts) - 1 && totalInstances == old(totalInstances) + |started|
      ensures workers == old(workers)[w := Worker(old(workers)[w].instances + started, old(workers)[w].pendingStarts - 1)]
      ensures Valid() <==> forall t :: t in started ==> Population(old(State()), t.id) == 0
    {
      EndStartOk(State(), w, started);
      pendingStarts := pendingStarts - 1;
      workers := workers[w := Worker(workers[w].instances + started, workers[w].pendingStarts - 1)];
      if started != [] { totalInstances := totalInstances + 1; }
    }

    // ---------------------------------------------------------- strict batches

    /** ApplyScale under strict admission, one look at the handoff. */
    method TryBeginBatch(desired: nat) returns (begun: bool, starts: nat)
      requires Valid()
      modifies `strictScale, `strictKnown, `strictActive, `batches
      ensures Valid() && begun == !old(strictActive)
      ensures StrictState() == if begun then Strict.Apply(old(StrictState()), Strict.Begin(desired)) else old(StrictState())
      ensures begun ==> starts == batches[|batches| - 1].running == if desired > old(strictScale) then desired - old(strictScale) else 0
      ensures begun ==> strictScale == desired && strictKnown && strictActive
    {
      if strictActive { return false, 0; }
      Strict.StepInv(StrictState(), Strict.Begin(desired));
      var previous := strictScale;
      strictScale, strictKnown, strictActive := desired, true, true;
      starts := if desired <= previous then 0 else desired - previous;
      batches := batches + [Strict.Batch(previous, desired, starts, 0, 0, false)];
      begun := true;
    }

    /** strictBatchFailed. */
    method StrictBatchFailed(ghost b: nat)
      requires Valid() && Strict.Enabled(StrictState(), Strict.Fail(b))
      modifies `strictScale, `batches
      ensures Valid() && StrictState() == Strict.Apply(old(StrictState()), Strict.Fail(b))
      ensures strictScale == old(strictScale) - 1 >= 0 && batches[b].failed == old(batches)[b].failed + 1
    {
      Strict.StepInv(StrictState(), Strict.Fail(b));
      ghost var x := batches[b];
      batches := batches[b := x.(running := x.running - 1, failed := x.failed + 1)];
      if strictScale > 0 { strictScale := strictScale - 1; }
    }

    /** The end of runStrictBatchAndRelease. */
    method ReleaseBatch(ghost b: nat)
      requires Valid() && Strict.Enabled(StrictState(), Strict.Release(b))
      modifies `strictActive, `batches
      ensures Valid() && StrictState() == Strict.Apply(old(StrictState()), Strict.Release(b))
      ensures !strictActive && strictScale == old(strictScale) && batches[b].released
    {
      Strict.StepInv(StrictState(), Strict.Release(b));
      batches := batches[b := batches[b].(released := true)];
      strictActive := false;
    }
  }
}
