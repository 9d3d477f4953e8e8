/** What the protocol guarantees over whole runs. */
module EvictionTheorems {
  import opened ActuatorModel
  import opened Tallies
  import opened ActuatorProofs
  import opened ActuatorEffects
  import opened EvictionModel
  import opened EvictionProofs

  /** Relists and removal events evict only sandboxes that have left their worker's map for
      good, however old the message: they are not in the map then, nor ever after. */
  lemma NeverEvictsLive(ss: seq<System>, ops: seq<Op>, i: nat, j: nat, n: nat)
    requires IsRun(ss, ops) && i < |ops| && i < j < |ss| && ops[i].Receive?
    requires |ss[i].leaf.departures| <= n < |ss[i + 1].leaf.departures|
    ensures var d := ss[i + 1].leaf.departures[n];
            d.worker < |ss[j].nodes| && d.id !in ss[j].nodes[d.worker].instances
  {
    RunInv(ss, ops, i);
    assert Stepped(ss, ops, i);
    HandleOk(ss[i].nodes, ss[i].admitted, ss[i].net, ss[i].leaf, ops[i].m);
    var d := ss[i + 1].leaf.departures[n];
    assert d in ss[i + 1].leaf.departures[|ss[i].leaf.departures|..];
    RunGrows(ss, ops, i, j);
    RunInv(ss, ops, j);
    assert Grows(ss[i].nodes[d.worker], ss[j].nodes[d.worker]) && NodeOk(ss[j].nodes[d.worker]);
  }

  /** Whatever has left the leaf is gone: out of its worker's map, or, if it left through a
      stop, at least its process has ended. */
  lemma DepartedIsGone(ss: seq<System>, ops: seq<Op>, i: nat, d: Departure)
    requires IsRun(ss, ops) && i < |ss| && d in ss[i].leaf.departures
    ensures d.worker < |ss[i].nodes|
    ensures d.id !in ss[i].nodes[d.worker].instances || (d.cause == Stop && d.id in ss[i].nodes[d.worker].exited)
  {
    RunInv(ss, ops, i);
    assert DepartureOk(ss[i].nodes, d) && NodeOk(ss[i].nodes[d.worker]);
  }

  /** After a relist at the worker's current revision the leaf tracks only live sandboxes there. */
  lemma RelistConverges(ss: seq<System>, ops: seq<Op>, i: nat)
    requires IsRun(ss, ops) && i < |ops| && ops[i].Receive? && ops[i].m.Snapshot?
    requires ops[i].m.worker < |ss[i].nodes| && ops[i].m.presence.revision == ss[i].nodes[ops[i].m.worker].revision
    ensures ops[i].m.worker < |ss[i + 1].leaf.workers| && ops[i].m.worker < |ss[i + 1].nodes|
    ensures forall t :: t in ss[i + 1].leaf.workers[ops[i].m.worker].instances
              ==> t.id in ss[i + 1].nodes[ops[i].m.worker].instances
  {
    var s, m := ss[i], ops[i].m;
    RunInv(ss, ops, i);
    assert Stepped(ss, ops, i);
    assert MessageOk(s.nodes, m);
    var ws := s.leaf.workers[m.worker].instances;
    forall t | t in Kept(ws, m.presence) ensures t.id in s.nodes[m.worker].instances {
      assert ListOk(s.nodes[m.worker], s.admitted, ws);
      RelistIsComplete(s.nodes[m.worker], s.admitted, ws, m.presence, t);
    }
  }

  /** A removal event always takes effect: after it the leaf does not track the instance there, and if it
      did before, just this departure is added. */
  lemma RemovalEvicts(ss: seq<System>, ops: seq<Op>, i: nat)
    requires IsRun(ss, ops) && i < |ops| && ops[i].Receive? && ops[i].m.Removal?
    ensures var m, a, a' := ops[i].m, ss[i].leaf, ss[i + 1].leaf;
            && m.worker < |a.workers| == |a'.workers|
            && (forall t :: t in a'.workers[m.worker].instances <==> t in a.workers[m.worker].instances && t.id != m.id)
            && (if exists t :: t in a.workers[m.worker].instances && t.id == m.id
                then exists t :: t in a.workers[m.worker].instances && t.id == m.id &&
                       a'.departures == a.departures + [Departure(m.worker, m.id, t.address, Event, true)]
                else a'.departures == a.departures)
  {
    var s, m := ss[i], ops[i].m;
    RunInv(ss, ops, i);
    assert Stepped(ss, ops, i);
    assert MessageOk(s.nodes, m) && NodeOk(s.nodes[m.worker]);
    HandleRemovedEffect(s.leaf, m.worker, m.id, m.revision);
    forall t | t in s.leaf.workers[m.worker].instances && t.id == m.id ensures t.revision <= m.revision {
      assert ListOk(s.nodes[m.worker], s.admitted, s.leaf.workers[m.worker].instances);
    }
  }

  /** A start that ends well is tracked as the worker reported it, and the pool admits it exactly if it is open
      and the instance has an id and an address. */
  lemma StartedIsTracked(ss: seq<System>, ops: seq<Op>, i: nat)
    requires IsRun(ss, ops) && i < |ops| && ops[i].FinishJob?
    ensures var m, a, a' := ops[i].m, ss[i].leaf, ss[i + 1].leaf;
            && m.Created? && m.worker < |a.workers| == |a'.workers|
            && a'.workers[m.worker].instances == a.workers[m.worker].instances + [Tracked(m.id, m.address, false, m.revision)]
            && (m.id in ss[i + 1].pool <==> ops[i].open && m.id != 0 && m.address != "")
  {
    RunInv(ss, ops, i);
    assert Stepped(ss, ops, i);
    assert Population(ss[i].leaf, ss[i].jobs[ops[i].k].id) == 0;
  }

  /** A confirmed stop takes its instance out of the leaf and out of the pool. */
  lemma StoppedIsGone(ss: seq<System>, ops: seq<Op>, i: nat)
    requires IsRun(ss, ops) && i < |ops| && ops[i].FinishStop?
    ensures ops[i].k < |ss[i].stops|
    ensures var v := ss[i].stops[ops[i].k].victim;
            && v.worker < |ss[i + 1].leaf.workers| == |ss[i].leaf.workers|
            && (forall t :: t in ss[i + 1].leaf.workers[v.worker].instances ==> t.id != v.id)
            && ((exists t :: t in ss[i].leaf.workers[v.worker].instances && t.id == v.id) ==> v.id !in ss[i + 1].pool)
  {
    assert Stepped(ss, ops, i);
    var s, v := ss[i], ss[i].stops[ops[i].k].victim;
    RunInv(ss, ops, i);
    assert CallOk(s.nodes, s.leaf, s.admitted, s.stops[ops[i].k]);
    RemoveStoppedEffect(s.leaf, v.worker, v.id);
    if t :| t in s.leaf.workers[v.worker].instances && t.id == v.id {
      var ds := ss[i + 1].leaf.departures;
      assert ds[|ds| - 1].id == v.id;
    }
  }

  /** In every reachable state the three counters are the counts they summarise. */
  lemma CountersAreExact(ss: seq<System>, ops: seq<Op>, i: nat)
    requires IsRun(ss, ops) && i < |ss|
    ensures var a := ss[i].leaf;
            && a.total == Tally(a.workers, Over(One()))
            && a.pendingStops == Tally(a.workers, Over(IsStopping()))
            && a.pendingStarts == Tally(a.workers, Starts())
            && forall w :: 0 <= w < |a.workers| ==> a.workers[w].pendingStarts == Tally(ss[i].jobs, Waiting(w))
  {
    RunInv(ss, ops, i);
  }

  /** Calls of RecordStop for instance `id`. */
  function IsRecorded(id: nat): Departure -> int { (d: Departure) => if d.id == id && d.recorded then 1 else 0 }

  lemma {:induction false} RecordedEach(ds: seq<Departure>, id: nat)
    requires forall d :: d in ds ==> d.recorded
    ensures Tally(ds, IsRecorded(id)) == Tally(ds, IsDeparture(id))
  {
    if ds == [] {
    } else {
      RecordedEach(ds[..|ds| - 1], id);
      assert ds[|ds| - 1] in ds;
    }
  }

  /** Once tracked, an instance is tracked in one place or has left once, for ever; and RecordStop
      was called for it as often as it has left: once or not at all. */
  lemma LeavesOnce(ss: seq<System>, ops: seq<Op>, i: nat, j: nat, id: nat)
    requires IsRun(ss, ops) && i <= j < |ss|
    ensures Tally(ss[j].leaf.workers, Over(HasId(id))) + Tally(ss[j].leaf.departures, IsDeparture(id)) <= 1
    ensures Population(ss[i].leaf, id) == 1 ==> Population(ss[j].leaf, id) == 1
    ensures Tally(ss[j].leaf.departures, IsRecorded(id)) == Tally(ss[j].leaf.departures, IsDeparture(id))
  {
    PopulationPersists(ss, ops, i, j, id);
    RunInv(ss, ops, j);
    assert Population(ss[j].leaf, id) <= 1;
    assert forall d :: d in ss[j].leaf.departures ==> DepartureOk(ss[j].nodes, d);
    RecordedEach(ss[j].leaf.departures, id);
  }

  /** A stop of an instance without an address never gets past Drain: it can only be taken back, and
      the instance leaves by a relist or an event, if at all. So the early return of removeInstance for
      an empty address is taken only if the instance has left already. */
  lemma StopNeedsAddress(ss: seq<System>, ops: seq<Op>, i: nat)
    requires IsRun(ss, ops) && i < |ss|
    ensures forall k :: 0 <= k < |ss[i].stops| && ss[i].stops[k].victim.address == "" ==>
              ss[i].stops[k].phase == Draining || ss[i].stops[k].phase == TakenBack
    ensures forall d :: d in ss[i].leaf.departures && d.address == "" ==> d.cause != Stop
    ensures forall k, w :: 0 <= k < |ss[i].stops| && ss[i].stops[k].phase == Confirmed && 0 <= w < |ss[i].leaf.workers| ==>
              forall t :: t in ss[i].leaf.workers[w].instances && t.id == ss[i].stops[k].victim.id ==> t.address != ""
  {
    var s := ss[i];
    RunInv(ss, ops, i);
    forall k | 0 <= k < |s.stops| ensures CallOk(s.nodes, s.leaf, s.admitted, s.stops[k]) {}
    forall d | d in s.leaf.departures ensures DepartureOk(s.nodes, d) {}
    forall w | 0 <= w < |s.leaf.workers| ensures ListOk(s.nodes[w], s.admitted, s.leaf.workers[w].instances) {}
  }

  lemma {:induction false} PopulationPersists(ss: seq<System>, ops: seq<Op>, i: nat, j: nat, id: nat)
    requires IsRun(ss, ops) && i <= j < |ss|
    ensures Population(ss[i].leaf, id) <= Population(ss[j].leaf, id)
    decreases j
  {
    if i == j {
    } else {
      PopulationPersists(ss, ops, i, j - 1, id);
      PopulationStep(ss, ops, j - 1, id);
    }
  }

  lemma PopulationStep(ss: seq<System>, ops: seq<Op>, i: nat, id: nat)
    requires IsRun(ss, ops) && i < |ops|
    ensures Population(ss[i].leaf, id) <= Population(ss[i + 1].leaf, id)
  {
    RunInv(ss, ops, i);
    assert Stepped(ss, ops, i);
    PopulationGrows(ss[i], ops[i], id);
  }

  lemma StartPopulation(s: System, op: Op, id: nat)
    requires SystemInv(s) && Enabled(s, op) && (op.StartJob? || op.FinishJob? || op.FailJob?)
    ensures Population(s.leaf, id) <= Population(Apply(s, op).leaf, id)
  {
    match op
    case StartJob(w, _, limits, enforceTarget, coldStart, maxInstances) =>
      ReserveStartOk(s.leaf, w, limits, enforceTarget, coldStart, maxInstances);
    case FinishJob(k, m, _) => EndPopulation(s, k, [Tracked(m.id, m.address, false, m.revision)], id);
    case FailJob(k) => EndPopulation(s, k, [], id);
  }

  lemma PopulationGrows(s: System, op: Op, id: nat)
    requires SystemInv(s) && Enabled(s, op)
    ensures Population(s.leaf, id) <= Population(Apply(s, op).leaf, id)
  {
    if op.Choose? {
      DecideOk(s.nodes, s.admitted, s.leaf, op.d);
    } else if op.Receive? {
      HandleOk(s.nodes, s.admitted, s.net, s.leaf, op.m);
    } else if OfStop(op) {
      StopStepInv(s, op);
    } else if op.StartJob? || op.FinishJob? || op.FailJob? {
      StartPopulation(s, op, id);
    }
  }

  lemma EndPopulation(s: System, k: nat, started: seq<Tracked>, id: nat)
    requires SystemInv(s) && k < |s.jobs| && s.jobs[k].waiting && s.jobs[k].worker < |s.leaf.workers| && |started| <= 1
    requires forall t :: t in started ==> !t.stopping && t.id == s.jobs[k].id
    ensures Population(s.leaf, id) <= Population(EndJob(s, k, started).leaf, id)
  {
    EndStarts(s.jobs, k, s.leaf, []);
    EndStartOk(s.leaf, s.jobs[k].worker, started);
    Facts(started, id);
  }

  // -------------------------------------------------------- target discipline

  /** A start reservation raises the future size by one: under an enforced target not above the
      target, and never above a positive max_instances. */
  lemma StartDiscipline(a: Actuator, w: int, limits: Limits, enforceTarget: bool, coldStart: bool, maxInstances: int)
    ensures var r := ReserveStart(a, w, limits, enforceTarget, coldStart, maxInstances);
            && (r.Reserved? ==>
                  && Future(r.a) == Future(a) + 1
                  && (enforceTarget ==> Future(r.a) <= a.target)
                  && (coldStart ==> Future(r.a) <= 1)
                  && (maxInstances > 0 ==> Future(r.a) <= maxInstances))
            && (r.Refused? && r.error == NotNeeded ==> (enforceTarget && Future(a) >= a.target) || (coldStart && Future(a) >= 1))
  {
  }

  /** A stop within the target lowers the future size by exactly the smallest of what was asked
      for, the excess and the instances not yet stopping; so never below the target. */
  lemma StopDiscipline(a: Actuator, count: int)
    requires Inv(a)
    ensures var (a', out) := StopWithinTarget(a, count);
            && Inv(a') && Future(a') == Future(a) - |out|
            && |out| == (if count <= 0 || Future(a) <= a.target then 0
                         else Min(Min(count, Future(a) - a.target), a.total - a.pendingStops))
            && (Future(a) >= a.target ==> Future(a') >= a.target)
  {
    StopVictimsOk(a, Min(count, Future(a) - a.target));
  }

  /** The entries of one list, and of all workers, whose stopping flag went up. */
  ghost function Raised(w: nat, ws: seq<Tracked>, ws': seq<Tracked>): seq<Victim>
    requires |ws'| == |ws|
  {
    if ws == [] then []
    else
      var n := |ws| - 1;
      Raised(w, ws[..n], ws'[..n]) + if ws'[n].stopping && !ws[n].stopping then [Victim(w, ws[n].id, ws[n].address)] else []
  }

  ghost function RaisedAll(workers: seq<Worker>, workers': seq<Worker>): seq<Victim>
    requires |workers'| == |workers| && forall j :: 0 <= j < |workers| ==> |workers'[j].instances| == |workers[j].instances|
  {
    if workers == [] then []
    else
      var n := |workers| - 1;
      RaisedAll(workers[..n], workers'[..n]) + Raised(n, workers[n].instances, workers'[n].instances)
  }

  lemma {:induction false} MarkRaises(w: nat, ws: seq<Tracked>, count: int)
    ensures var (ws', out) := Mark(w, ws, count);
            out == Raised(w, ws, ws') && forall k :: 0 <= k < |ws| && ws[k].stopping ==> ws'[k].stopping
  {
    if ws == [] {
    } else {
      var n := |ws| - 1;
      MarkRaises(w, ws[..n], count);
      assert Mark(w, ws, count).0[..n] == Mark(w, ws[..n], count).0;
    }
  }

  lemma {:induction false} MarkAllRaises(workers: seq<Worker>, count: int)
    ensures MarkAll(workers, count).1 == RaisedAll(workers, MarkAll(workers, count).0)
  {
    if workers == [] {
    } else {
      var n := |workers| - 1;
      var done := MarkAll(workers[..n], count).0;
      MarkAllRaises(workers[..n], count);
      MarkRaises(n, workers[n].instances, count - |MarkAll(workers[..n], count).1|);
      assert MarkAll(workers, count).0[..n] == done;
    }
  }

  /** The victims are exactly the instances the call flagged, in order; nothing else changes
      but the counter, and only an exhausted supply leaves the call short of `count`. */
  lemma VictimsAreExact(a: Actuator, count: int)
    requires Inv(a)
    ensures var (a', out) := StopVictims(a, count);
            && a' == a.(workers := a'.workers, pendingStops := a.pendingStops + |out|)
            && |a'.workers| == |a.workers|
            && (forall j :: 0 <= j < |a.workers| ==> SameEntries(a.workers[j].instances, a'.workers[j].instances))
            && out == RaisedAll(a.workers, a'.workers)
            && |out| == (if count <= 0 then 0 else Min(count, a.total - a.pendingStops))
  {
    StopVictimsOk(a, count);
    if count > 0 {
      MarkAllEntries(a.workers, count);
      MarkAllRaises(a.workers, count);
    } else {
      NothingRaised(a.workers);
    }
  }

  lemma {:induction false} NothingRaised(workers: seq<Worker>)
    ensures RaisedAll(workers, workers) == []
  {
    if workers == [] {
    } else {
      NothingRaised(workers[..|workers| - 1]);
      NoneRaised(|workers| - 1, workers[|workers| - 1].instances);
    }
  }

  lemma {:induction false} NoneRaised(w: nat, ws: seq<Tracked>)
    ensures Raised(w, ws, ws) == []
  {
    if ws == [] {
    } else {
      NoneRaised(w, ws[..|ws| - 1]);
    }
  }

  /** Cancelling a stop raises the future size, by one, exactly if the instance was stopping. */
  lemma CancelStopRaises(a: Actuator, w: nat, k: nat)
    requires Inv(a) && w < |a.workers| && k < |a.workers[w].instances|
    ensures var t := a.workers[w].instances[k];
            Future(CancelStop(a, w, t.id)) == Future(a) + if t.stopping then 1 else 0
  {
    var ws := a.workers[w].instances;
    var t := ws[k];
    Facts(ws, t.id);
    StopsBound(a, w);
    FoundWhereTracked(a, w, k);
  }

  lemma FoundWhereTracked(a: Actuator, w: nat, k: nat)
    requires Inv(a) && w < |a.workers| && k < |a.workers[w].instances|
    ensures Find(a.workers[w].instances, a.workers[w].instances[k].id) == k
  {
    var ws := a.workers[w].instances;
    var id := ws[k].id;
    var f := Find(ws, id);
    if f < k {
      assert ws[..k][f].id == id;
      Facts(ws[..k], id);
      assert Tally(ws[..k], HasId(id)) >= HasId(id)(ws[..k][f]) == 1;
      assert Population(a, id) <= 1;
      forall j | 0 <= j < |a.workers| ensures Over(HasId(id))(a.workers[j]) >= 0 { Facts(a.workers[j].instances, id); }
      TallyBound(a.workers, Over(HasId(id)));
      assert Over(HasId(id))(a.workers[w]) <= Tally(a.workers, Over(HasId(id)));
      TallyBound(a.departures, IsDeparture(id));
      assert ws == ws[..k] + [ws[k]] + ws[k + 1..];
      TallyConcat(ws[..k] + [ws[k]], ws[k + 1..], HasId(id));
      TallyAppend(ws[..k], ws[k], HasId(id));
      Facts(ws[k + 1..], id);
      assert false;
    }
  }
}
