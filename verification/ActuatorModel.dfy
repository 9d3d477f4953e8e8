/** Value-level model of the sandbox actuator of `pkg/leaf/autoscaling/actuator.go`:
    the instances it tracks per worker, its counters, and the ways an instance leaves. */
module ActuatorModel {
  import opened Tallies

  datatype Tracked = Tracked(id: nat, address: string, stopping: bool, revision: nat)

  datatype Worker = Worker(instances: seq<Tracked>, pendingStarts: int)

  /** How an instance leaves: missing from a relist, named by a removal event, or stopped by the leaf. */
  datatype Cause = Relist | Event | Stop

  /** One instance leaving the tracked set; `recorded` if RecordStop was called for it. */
  datatype Departure = Departure(worker: nat, id: nat, address: string, cause: Cause, recorded: bool)

  datatype Actuator = Actuator(
    workers: seq<Worker>,
    total: int,
    pendingStarts: int,
    pendingStops: int,
    target: int,
    departures: seq<Departure>)

  /** An instance chosen to be stopped. */
  datatype Victim = Victim(worker: nat, id: nat, address: string)

  /** The set of instances a worker reported, at the worker's revision. */
  datatype Presence = Presence(revision: nat, ids: set<nat>)

  /** Instances plus starts minus stops: what the current decisions lead to. */
  function Future(a: Actuator): int { a.total + a.pendingStarts - a.pendingStops }

  // ------------------------------------------------------------------ counting

  function One(): Tracked -> int { (t: Tracked) => 1 }
  function IsStopping(): Tracked -> int { (t: Tracked) => if t.stopping then 1 else 0 }
  function HasId(id: nat): Tracked -> int { (t: Tracked) => if t.id == id then 1 else 0 }
  function Over(m: Tracked -> int): Worker -> int { (w: Worker) => Tally(w.instances, m) }
  function Starts(): Worker -> int { (w: Worker) => w.pendingStarts }

  function IsDeparture(id: nat): Departure -> int { (d: Departure) => if d.id == id then 1 else 0 }

  lemma {:induction false} SumRange(ws: seq<Tracked>, m: Tracked -> int)
    requires forall t :: 0 <= m(t) <= 1
    ensures 0 <= Tally(ws, m) <= |ws| && (m == One() ==> Tally(ws, m) == |ws|)
    ensures forall k :: 0 <= k < |ws| ==> m(ws[k]) <= Tally(ws, m)
  {
    if ws == [] {
    } else {
      SumRange(ws[..|ws| - 1], m);
    }
  }

  // ---------------------------------------------------------------- operations

  function Remaining(stops: int, stopping: bool): int {
    if stopping && stops > 0 then stops - 1 else stops
  }

  /** Whether a relist keeps an instance: present, or not provably older than the snapshot. */
  predicate Keeps(t: Tracked, p: Presence) {
    t.id in p.ids || t.revision == 0 || p.revision == 0 || p.revision < t.revision
  }

  function Kept(ws: seq<Tracked>, p: Presence): seq<Tracked> {
    if ws == [] then []
    else Kept(ws[..|ws| - 1], p) + if Keeps(ws[|ws| - 1], p) then [ws[|ws| - 1]] else []
  }

  function Evicted(ws: seq<Tracked>, p: Presence): seq<Tracked> {
    if ws == [] then []
    else Evicted(ws[..|ws| - 1], p) + if Keeps(ws[|ws| - 1], p) then [] else [ws[|ws| - 1]]
  }

  /** The counter after the guarded decrements of the relist loop. */
  function StopsAfter(ws: seq<Tracked>, p: Presence, stops: int): int {
    if ws == [] then stops
    else
      var rest := StopsAfter(ws[..|ws| - 1], p, stops);
      if Keeps(ws[|ws| - 1], p) then rest else Remaining(rest, ws[|ws| - 1].stopping)
  }

  /** evictTracked: one RecordStop for each instance. */
  function Recorded(w: nat, ws: seq<Tracked>, cause: Cause): seq<Departure> {
    if ws == [] then []
    else Recorded(w, ws[..|ws| - 1], cause) + [Departure(w, ws[|ws| - 1].id, ws[|ws| - 1].address, cause, true)]
  }

  /** ReconcileWorkerState followed by evictTracked. */
  function Reconcile(a: Actuator, w: int, p: Presence): Actuator {
    if !(0 <= w < |a.workers|) then a
    else
      var ws := a.workers[w].instances;
      a.(workers := a.workers[w := a.workers[w].(instances := Kept(ws, p))],
         total := a.total - |Evicted(ws, p)|,
         pendingStops := StopsAfter(ws, p, a.pendingStops),
         departures := a.departures + Recorded(w, Evicted(ws, p), Relist))
  }

  /** The first position of instance `id`, or the length. */
  function Find(ws: seq<Tracked>, id: nat): (k: nat)
    ensures k <= |ws| && (k < |ws| ==> ws[k].id == id) && forall j :: 0 <= j < k ==> ws[j].id != id
  {
    if ws == [] then 0
    else if ws[0].id == id then 0
    else 1 + Find(ws[1..], id)
  }

  /** Whether a removal event is too old to concern the tracked instance. */
  predicate Stale(t: Tracked, revision: nat) {
    t.revision != 0 && revision != 0 && revision < t.revision
  }

  /** HandleSandboxRemoved followed by evictTracked. */
  function HandleRemoved(a: Actuator, w: int, id: nat, revision: nat): (Actuator, bool) {
    if !(0 <= w < |a.workers|) then (a, false)
    else
      var ws := a.workers[w].instances;
      var k := Find(ws, id);
      if k == |ws| || Stale(ws[k], revision) then (a, false)
      else
        (a.(workers := a.workers[w := a.workers[w].(instances := ws[..k] + ws[k + 1..])],
            total := a.total - 1,
            pendingStops := Remaining(a.pendingStops, ws[k].stopping),
            departures := a.departures + [Departure(w, id, ws[k].address, Event, true)]), true)
  }

  /** removeInstance: the last entry takes the place of the removed one. */
  function RemoveStopped(a: Actuator, w: int, id: nat): Actuator {
    if !(0 <= w < |a.workers|) then a
    else
      var ws := a.workers[w].instances;
      var k := Find(ws, id);
      if k == |ws| then a
      else
        var n := |ws| - 1;
        a.(workers := a.workers[w := a.workers[w].(instances := ws[k := ws[n]][..n])],
           total := a.total - 1,
           pendingStops := Remaining(a.pendingStops, ws[k].stopping),
           departures := a.departures + [Departure(w, id, ws[k].address, Stop, ws[k].address != "")])
  }

  function CancelStop(a: Actuator, w: int, id: nat): Actuator {
    if !(0 <= w < |a.workers|) then a
    else
      var ws := a.workers[w].instances;
      var k := Find(ws, id);
      if k == |ws| || !ws[k].stopping then a
      else
        a.(workers := a.workers[w := a.workers[w].(instances := ws[k := ws[k].(stopping := false)])],
           pendingStops := Remaining(a.pendingStops, true))
  }

  /** Marks entries of one list for stopping, from the front, until `count` are marked. */
  function Mark(w: nat, ws: seq<Tracked>, count: int): (r: (seq<Tracked>, seq<Victim>))
    ensures |r.0| == |ws|
  {
    if ws == [] then ([], [])
    else
      var n := |ws| - 1;
      var (marked, out) := Mark(w, ws[..n], count);
      if ws[n].stopping || |out| >= count then (marked + [ws[n]], out)
      else (marked + [ws[n].(stopping := true)], out + [Victim(w, ws[n].id, ws[n].address)])
  }

  /** The same over all workers in order. */
  function MarkAll(workers: seq<Worker>, count: int): (r: (seq<Worker>, seq<Victim>))
    ensures |r.0| == |workers| && forall j :: 0 <= j < |workers| ==> |r.0[j].instances| == |workers[j].instances|
  {
    if workers == [] then ([], [])
    else
      var n := |workers| - 1;
      var (done, out) := MarkAll(workers[..n], count);
      var (ws, more) := Mark(n, workers[n].instances, count - |out|);
      (done + [workers[n].(instances := ws)], out + more)
  }

  /** instancesForStop. */
  function StopVictims(a: Actuator, count: int): (Actuator, seq<Victim>) {
    if count <= 0 then (a, [])
    else
      var (workers, out) := MarkAll(a.workers, count);
      (a.(workers := workers, pendingStops := a.pendingStops + |out|), out)
  }

  function Min(x: int, y: int): int { if x < y then x else y }

  /** instancesForStopWithinTarget: no more than the excess over the target. */
  function StopWithinTarget(a: Actuator, count: int): (Actuator, seq<Victim>) {
    StopVictims(a, Min(count, Future(a) - a.target))
  }

  /** Who bounds the starts: the placement coordinator, or this actuator's own limits. */
  datatype Limits = Coordinated | Local(startsPerWorker: int, starts: int, instancesPerWorker: int)

  datatype StartError = UnknownWorker | SlotsExhausted | WorkerAtCapacity | NotNeeded | AtMaxInstances

  datatype StartResult = Reserved(a: Actuator) | Refused(error: StartError)

  /** reserveLocalStart. */
  function ReserveStart(a: Actuator, w: int, limits: Limits, enforceTarget: bool, coldStart: bool, maxInstances: int): StartResult {
    if !(0 <= w < |a.workers|) then Refused(UnknownWorker)
    else if limits.Local? && (a.workers[w].pendingStarts >= limits.startsPerWorker || a.pendingStarts >= limits.starts)
    then Refused(SlotsExhausted)
    else if limits.Local? && limits.instancesPerWorker > 0
            && |a.workers[w].instances| + a.workers[w].pendingStarts >= limits.instancesPerWorker
    then Refused(WorkerAtCapacity)
    else if enforceTarget && Future(a) >= a.target then Refused(NotNeeded)
    else if coldStart && Future(a) >= 1 then Refused(NotNeeded)
    else if maxInstances > 0 && Future(a) >= maxInstances then Refused(AtMaxInstances)
    else Reserved(a.(pendingStarts := a.pendingStarts + 1,
                     workers := a.workers[w := a.workers[w].(pendingStarts := a.workers[w].pendingStarts + 1)]))
  }

  /** runStart's end: the reservation is given back, and on success the instance is tracked. */
  function EndStart(a: Actuator, w: nat, started: seq<Tracked>): Actuator
    requires w < |a.workers| && |started| <= 1
  {
    a.(pendingStarts := a.pendingStarts - 1,
       workers := a.workers[w := Worker(a.workers[w].instances + started, a.workers[w].pendingStarts - 1)],
       total := a.total + |started|)
  }
}
