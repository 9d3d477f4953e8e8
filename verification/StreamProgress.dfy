/** No stream gets stuck: from every reachable state the stream being read can bring the index up to date. */
module StreamProgress {
  import opened CapacityStream
  import opened Options
  import opened StreamRuns

  /** The operations lead from `s` to `s'`, each enabled in its turn. */
  ghost predicate Leads(s: System, ops: seq<Op>, s': System)
    decreases |ops|
  {
    if ops == [] then s == s' else Enabled(s, ops[0]) && Leads(Apply(s, ops[0]), ops[1..], s')
  }

  lemma LeadsOn(s: System, op: Op, ops: seq<Op>, s': System)
    requires Enabled(s, op) && Leads(Apply(s, op), ops, s')
    ensures Leads(s, [op] + ops, s')
  {
    assert ([op] + ops)[1..] == ops;
  }

  // -------------------------------------------------------------------- frames

  /** There is a difference of any two views, over any of their functions. */
  lemma {:induction false} DiffExists(sent: View, current: View, ids: set<nat>) returns (entries: seq<Capacity>)
    requires Keyed(current)
    ensures IsDiffOver(sent, current, ids, entries)
    decreases |ids|
  {
    if ids == {} {
      entries := [];
    } else {
      var id :| id in ids;
      entries := DiffExists(sent, current, ids - {id});
      DiffStep(sent, current, ids - {id}, entries, id);
      assert ids - {id} + {id} == ids;
      if Differs(sent, current, id) { entries := entries + [Change(current, id)]; }
    }
  }

  lemma FrameExists(x: Session, view: View) returns (entries: seq<Capacity>)
    requires Keyed(view)
    ensures if x.started then IsDiff(x.sent, view, entries) else Lists(view, entries)
  {
    var sent := if x.started then x.sent else map[];
    entries := DiffExists(sent, view, sent.Keys + view.Keys);
    if !x.started {
      forall id | id in view ensures view[id] in entries { assert Differs(sent, view, id); }
    }
  }

  // ------------------------------------------------------------------ catch up

  /** What the leaf and the connection do by themselves, with nothing changing at the source. */
  predicate Serves(op: Op, k: nat) { op == Heartbeat || op == Wake(k) || (op.Emit? && op.k == k) || op == Deliver }

  /** The frames in flight can be delivered; then the index is what was last sent. */
  lemma {:induction false} DrainUp(s: System, k: nat) returns (ops: seq<Op>, s': System)
    requires Inv(s) && s.ingress.session == Some(k)
    ensures Leads(s, ops, s') && (forall i :: 0 <= i < |ops| ==> Serves(ops[i], k))
    ensures Inv(s') && s'.ingress.session == Some(k) && s'.sessions[k] == s.sessions[k].(queue := [])
    ensures s'.source == s.source && (s.sessions[k].started ==> s'.ingress.index == Shown(s.sessions[k].sent))
    decreases |s.sessions[k].queue|
  {
    if s.sessions[k].queue == [] {
      ops, s' := [], s;
    } else {
      StepInv(s, Deliver);
      ops, s' := DrainUp(Apply(s, Deliver), k);
      LeadsOn(s, Deliver, ops, s');
      ops := [Deliver] + ops;
    }
  }

  /** A stream that may emit can send the source's view and have it delivered. */
  lemma EmitUp(s: System, k: nat, healthyWorkers: nat) returns (ops: seq<Op>, s': System)
    requires Inv(s) && s.ingress.session == Some(k) && (s.sessions[k].started ==> s.sessions[k].awake)
    ensures Leads(s, ops, s') && (forall i :: 0 <= i < |ops| ==> Serves(ops[i], k))
    ensures s'.source == s.source && s'.ingress.index == Shown(s.source)
  {
    var entries := FrameExists(s.sessions[k], s.source);
    var emit := Emit(k, healthyWorkers, s.source, entries);
    StepInv(s, emit);
    ops, s' := DrainUp(Apply(s, emit), k);
    LeadsOn(s, emit, ops, s');
    ops := [emit] + ops;
  }

  lemma WakeUp(s: System, k: nat, healthyWorkers: nat) returns (ops: seq<Op>, s': System)
    requires Inv(s) && s.ingress.session == Some(k) && s.sessions[k].started && !s.sessions[k].awake
    ensures Leads(s, ops, s') && (forall i :: 0 <= i < |ops| ==> Serves(ops[i], k))
    ensures s'.source == s.source && s'.ingress.index == Shown(s.source)
  {
    var s1 := Apply(s, Heartbeat);
    StepInv(s, Heartbeat);
    StepInv(s1, Wake(k));
    ops, s' := EmitUp(Apply(s1, Wake(k)), k, healthyWorkers);
    LeadsOn(s1, Wake(k), ops, s');
    LeadsOn(s, Heartbeat, [Wake(k)] + ops, s');
    ops := [Heartbeat] + ([Wake(k)] + ops);
  }

  /** In every state of every run with a stream being read, a heartbeat, its wakeup, an emit and the deliveries
      can follow after which the index is the source's view. So a heartbeat repairs a stale index. */
  lemma HeartbeatRepairs(ss: seq<System>, ops: seq<Op>, i: nat, healthyWorkers: nat) returns (more: seq<Op>, s': System)
    requires IsRun(ss, ops) && i < |ss| && ss[i].ingress.session.Some?
    ensures Leads(ss[i], more, s') && (forall j :: 0 <= j < |more| ==> Serves(more[j], ss[i].ingress.session.value))
    ensures s'.source == ss[i].source && s'.ingress.index == Shown(ss[i].source)
  {
    RunInv(ss, ops, i);
    var s, k := ss[i], ss[i].ingress.session.value;
    if s.sessions[k].started && !s.sessions[k].awake {
      more, s' := WakeUp(s, k, healthyWorkers);
    } else {
      more, s' := EmitUp(s, k, healthyWorkers);
    }
  }

  /** And without one an ingress can connect and gets there. */
  lemma ConnectCatchesUp(ss: seq<System>, ops: seq<Op>, i: nat, healthyWorkers: nat) returns (more: seq<Op>, s': System)
    requires IsRun(ss, ops) && i < |ss| && ss[i].ingress.session.None?
    ensures Leads(ss[i], [Connect] + more, s') && (forall j :: 0 <= j < |more| ==> Serves(more[j], |ss[i].sessions|))
    ensures s'.source == ss[i].source && s'.ingress.index == Shown(ss[i].source)
  {
    RunInv(ss, ops, i);
    StepInv(ss[i], Connect);
    more, s' := EmitUp(Apply(ss[i], Connect), |ss[i].sessions|, healthyWorkers);
    LeadsOn(ss[i], Connect, more, s');
  }
}
