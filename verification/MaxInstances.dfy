/** When max_instances bounds what the actuator's decisions lead to. Every start is refused at
    its own max_instances (`pkg/leaf/autoscaling/actuator.go`), but the future size
    also rises when a stop is cancelled, and no limit is asked then. */
module MaxInstances {
  import opened ActuatorModel
  import opened ActuatorProofs
  import opened EvictionModel
  import opened EvictionProofs
  import opened EvictionTheorems
  import opened StopOwnership

  /** The operation takes back the stop of an instance that is being stopped. */
  predicate CancelsStop(s: System, op: Op) {
    && op.FailStop? && op.k < |s.stops| && s.stops[op.k].victim.worker < |s.leaf.workers|
    && var ws := s.leaf.workers[s.stops[op.k].victim.worker].instances;
       var n := Find(ws, s.stops[op.k].victim.id);
       n < |ws| && ws[n].stopping
  }

  // ----------------------------------------------------------------- one step

  /** The relist loop takes back at most one stop for each instance it evicts. */
  lemma {:induction false} StopsAfterDrop(ws: seq<Tracked>, p: Presence, stops: int)
    ensures stops - |Evicted(ws, p)| <= StopsAfter(ws, p, stops)
  {
    if ws == [] {
    } else {
      StopsAfterDrop(ws[..|ws| - 1], p, stops);
    }
  }

  lemma HandleLowers(a: Actuator, m: Message)
    ensures Future(Handle(a, m)) <= Future(a)
  {
    if m.Snapshot? && m.worker < |a.workers| { StopsAfterDrop(a.workers[m.worker].instances, m.presence, a.pendingStops); }
  }

  lemma DecideLowers(a: Actuator, d: Decision)
    requires Inv(a)
    ensures Future(Decide(a, d).0) <= Future(a)
  {
    match d
    case SetTarget(_) =>
    case StopSome(count) => StopVictimsOk(a, count);
    case StopExcess(count) => StopVictimsOk(a, Min(count, Future(a) - a.target));
  }

  lemma FailRaises(s: System, k: nat)
    requires SystemInv(s) && k < |s.stops|
    ensures var v := s.stops[k].victim;
            Future(CancelStop(s.leaf, v.worker, v.id)) == Future(s.leaf) + if CancelsStop(s, FailStop(k)) then 1 else 0
  {
    var v := s.stops[k].victim;
    if CancelsStop(s, FailStop(k)) { CancelStopRaises(s.leaf, v.worker, Find(s.leaf.workers[v.worker].instances, v.id)); }
  }

  lemma StartRaises(s: System, op: Op)
    requires Enabled(s, op) && (op.StartJob? || op.FinishJob? || op.FailJob?)
    ensures var f, f' := Future(s.leaf), Future(Apply(s, op).leaf);
            && (if op.StartJob? then f' == f + 1 else f' <= f)
            && (op.StartJob? && op.maxInstances > 0 ==> f' <= op.maxInstances)
  {
  }

  /** A step raises the future size, by one, exactly if it begins a start or cancels a stop; and a
      start leaves it within its own positive max_instances. */
  lemma StepRaises(s: System, op: Op)
    requires SystemInv(s) && Enabled(s, op)
    ensures var f, f' := Future(s.leaf), Future(Apply(s, op).leaf);
            && (if op.StartJob? || CancelsStop(s, op) then f' == f + 1 else f' <= f)
            && (op.StartJob? && op.maxInstances > 0 ==> f' <= op.maxInstances)
  {
    if op.Choose? {
      DecideLowers(s.leaf, op.d);
    } else if op.Receive? {
      HandleLowers(s.leaf, op.m);
    } else if op.FailStop? {
      FailRaises(s, op.k);
    } else if op.StartJob? || op.FinishJob? || op.FailJob? {
      StartRaises(s, op);
    }
  }

  // --------------------------------------------------------------------- runs

  /** Every start among the first `n` operations asked for a positive max_instances of at most `max`. */
  ghost predicate Capped(ops: seq<Op>, n: nat, max: int)
    requires n <= |ops|
  {
    forall i :: 0 <= i < n && ops[i].StartJob? ==> 0 < ops[i].maxInstances <= max
  }

  /** Step `i` cancels a stop although the future size has reached `max`. */
  ghost predicate Overrides(ss: seq<System>, ops: seq<Op>, max: int, i: nat)
    requires i < |ops| && |ss| == |ops| + 1
  {
    CancelsStop(ss[i], ops[i]) && Future(ss[i].leaf) >= max
  }

  /** How many of the first `n` steps do. */
  ghost function OverrideCount(ss: seq<System>, ops: seq<Op>, max: int, n: nat): nat
    requires n <= |ops| && |ss| == |ops| + 1
  {
    if n == 0 then 0 else OverrideCount(ss, ops, max, n - 1) + if Overrides(ss, ops, max, n - 1) then 1 else 0
  }

  /** With capped starts a step raises the future size to above `max` exactly if it cancels a stop
      at `max` or above; it crosses `max` exactly if it does so at `max`. */
  lemma CrossesMax(ss: seq<System>, ops: seq<Op>, max: int, i: nat)
    requires IsRun(ss, ops) && i < |ops| && Capped(ops, i + 1, max)
    ensures var f, f' := Future(ss[i].leaf), Future(ss[i + 1].leaf);
            && (f < f' && max < f' <==> Overrides(ss, ops, max, i))
            && (f <= max < f' <==> CancelsStop(ss[i], ops[i]) && f == max)
            && f' <= f + 1
  {
    RunInv(ss, ops, i);
    assert Stepped(ss, ops, i);
    StepRaises(ss[i], ops[i]);
  }

  /** The future size exceeds max_instances by at most the number of stops cancelled at or above it. */
  lemma {:induction false} FutureWithinOverrides(ss: seq<System>, ops: seq<Op>, max: int, i: nat)
    requires IsRun(ss, ops) && i < |ss| && Capped(ops, i, max) && max >= 0
    ensures Future(ss[i].leaf) <= max + OverrideCount(ss, ops, max, i)
  {
    if i == 0 {
    } else {
      FutureWithinOverrides(ss, ops, max, i - 1);
      CrossesMax(ss, ops, max, i - 1);
    }
  }

  /** max_instances bounds the future size throughout a run if and only if no stop is cancelled while
      the future size is at it. */
  lemma {:induction false} MaxHoldsUnlessCancelled(ss: seq<System>, ops: seq<Op>, max: int, i: nat)
    requires IsRun(ss, ops) && i < |ss| && Capped(ops, i, max) && max >= 0
    ensures (forall j :: 0 <= j <= i ==> Future(ss[j].leaf) <= max) <==>
            (forall j :: 0 <= j < i && CancelsStop(ss[j], ops[j]) ==> Future(ss[j].leaf) != max)
  {
    if i == 0 {
    } else {
      MaxHoldsUnlessCancelled(ss, ops, max, i - 1);
      CrossesMax(ss, ops, max, i - 1);
    }
  }

  /** A stop that fails is cancelled exactly if its instance has not left meanwhile. */
  lemma FailedStopCancels(ss: seq<System>, ops: seq<Op>, i: nat)
    requires IsRun(ss, ops) && i < |ops| && ops[i].FailStop?
    ensures ops[i].k < |ss[i].stops|
    ensures CancelsStop(ss[i], ops[i]) <==> Tracks(ss[i].leaf.workers, ss[i].stops[ops[i].k].victim.id) == 1
  {
    assert Stepped(ss, ops, i);
    var s, v := ss[i], ss[i].stops[ops[i].k].victim;
    RunInv(ss, ops, i);
    RunOwned(ss, ops, i);
    CancelOwned(s.leaf, s.stops, ops[i].k);
    var ws := s.leaf.workers[v.worker].instances;
    if Find(ws, v.id) < |ws| {
      SoleEntry(s.leaf, v.worker, Find(ws, v.id));
    } else {
      PlacedNowhere(s.leaf.workers, v);
    }
  }
}
