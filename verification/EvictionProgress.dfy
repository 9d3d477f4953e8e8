/** Nothing in the protocol gets stuck: relists, starts and stops can run to their ends. */
module EvictionProgress {
  import opened ActuatorModel
  import opened ActuatorEffects
  import opened ActuatorProofs
  import opened EvictionModel
  import opened EvictionProofs
  import opened EvictionTheorems

  /** A run goes on with one more operation. */
  lemma Extend(ss: seq<System>, ops: seq<Op>, op: Op)
    requires IsRun(ss, ops) && Enabled(ss[|ops|], op)
    ensures IsRun(ss + [Apply(ss[|ops|], op)], ops + [op])
  {
    var ss', ops' := ss + [Apply(ss[|ops|], op)], ops + [op];
    forall i | 0 <= i < |ops'| ensures Stepped(ss', ops', i) {
      if i < |ops| { assert Stepped(ss, ops, i); }
    }
  }

  /** After any run a worker can be relisted, and then every instance tracked there is in its map. */
  lemma RelistCanFollow(ss: seq<System>, ops: seq<Op>, w: nat) returns (ss': seq<System>, ops': seq<Op>)
    requires IsRun(ss, ops) && w < |ss[|ops|].nodes|
    ensures var n := ss[|ops|].nodes[w];
            IsRun(ss', ops') && ss <= ss' && ops' == ops + [TakeSnapshot(w), Receive(Snapshot(w, Presence(n.revision, n.instances.Keys)))]
    ensures var s' := ss'[|ops'|];
            && w < |s'.nodes| && s'.nodes == ss[|ops|].nodes && w < |s'.leaf.workers|
            && forall t :: t in s'.leaf.workers[w].instances ==> t.id in s'.nodes[w].instances
  {
    var s := ss[|ops|];
    var m := Snapshot(w, Presence(s.nodes[w].revision, s.nodes[w].instances.Keys));
    var s1 := Apply(s, TakeSnapshot(w));
    Extend(ss, ops, TakeSnapshot(w));
    Extend(ss + [s1], ops + [TakeSnapshot(w)], Receive(m));
    ss', ops' := ss + [s1] + [Apply(s1, Receive(m))], ops + [TakeSnapshot(w)] + [Receive(m)];
    assert ops' == ops + [TakeSnapshot(w), Receive(m)];
    RelistConverges(ss', ops', |ops| + 1);
  }

  /** What a worker has created a job asked for. */
  lemma {:induction false} CreatedForJob(ss: seq<System>, ops: seq<Op>, i: nat, w: nat, id: nat)
    requires IsRun(ss, ops) && i < |ss| && w < |ss[i].nodes| && id in ss[i].nodes[w].created
    ensures exists k :: 0 <= k < |ss[i].jobs| && ss[i].jobs[k].id == id
  {
    if i == 0 {
    } else {
      var s, op := ss[i - 1], ops[i - 1];
      assert Stepped(ss, ops, i - 1);
      if op.CreateSandbox? && s.jobs[op.k].id == id {
      } else {
        CreatedForJob(ss, ops, i - 1, w, id);
        var k :| 0 <= k < |s.jobs| && s.jobs[k].id == id;
        assert ss[i].jobs[k].id == id;
      }
    }
  }

  lemma {:induction false} SameNodes(ss: seq<System>, ops: seq<Op>, i: nat)
    requires IsRun(ss, ops) && i < |ss|
    ensures |ss[i].nodes| == |ss[0].nodes|
  {
    if i == 0 {
    } else {
      assert Stepped(ss, ops, i - 1);
      SameNodes(ss, ops, i - 1);
    }
  }

  lemma SameWorkers(ss: seq<System>, ops: seq<Op>, i: nat)
    requires IsRun(ss, ops) && i < |ss|
    ensures |ss[i].leaf.workers| == |ss[0].nodes|
  {
    RunInv(ss, ops, i);
    SameNodes(ss, ops, i);
  }

  lemma StepJobs(s: System, op: Op, k: nat)
    requires Enabled(s, op) && k < |Apply(s, op).jobs|
    ensures if k < |s.jobs| then Apply(s, op).jobs[k].worker == s.jobs[k].worker else Apply(s, op).jobs[k].worker < |s.leaf.workers|
  {
  }

  /** A start's worker is one of the leaf's. */
  lemma {:induction false} JobHasWorker(ss: seq<System>, ops: seq<Op>, i: nat, k: nat)
    requires IsRun(ss, ops) && i < |ss| && k < |ss[i].jobs|
    ensures ss[i].jobs[k].worker < |ss[i].leaf.workers| == |ss[0].nodes|
  {
    SameWorkers(ss, ops, i);
    if i == 0 {
    } else {
      assert Stepped(ss, ops, i - 1);
      StepJobs(ss[i - 1], ops[i - 1], k);
      if k < |ss[i - 1].jobs| { JobHasWorker(ss, ops, i - 1, k); } else { SameWorkers(ss, ops, i - 1); }
    }
  }

  // -------------------------------------------------------------------- starts

  /** The operations lead from `s` to `s'`, each enabled in its turn. */
  ghost predicate Leads(s: System, ops: seq<Op>, s': System)
    decreases |ops|
  {
    if ops == [] then s == s' else Enabled(s, ops[0]) && Leads(Apply(s, ops[0]), ops[1..], s')
  }

  lemma LeadsOn(s: System, op: Op, ops: seq<Op>, s': System)
    requires Enabled(s, op) && Leads(Apply(s, op), ops, s')
    ensures Leads(s, [op] + ops, s')
  {
    assert ([op] + ops)[1..] == ops;
  }

  /** The last two steps of a start: the worker creates the sandbox, and its answer reaches the leaf. */
  lemma JobCanFinish(s: System, k: nat, address: string) returns (ops: seq<Op>, s': System)
    requires k < |s.jobs| && s.jobs[k].waiting && s.jobs[k].worker < |s.leaf.workers| == |s.nodes|
    requires s.jobs[k].id !in s.nodes[s.jobs[k].worker].created
    ensures var w, id := s.jobs[k].worker, s.jobs[k].id;
            var r := s.nodes[w].revision + 1;
            && Leads(s, ops, s') && ops == [CreateSandbox(k, address), FinishJob(k, Created(w, id, r, address), true)]
            && s'.leaf == EndStart(s.leaf, w, [Tracked(id, address, false, r)])
            && (id in s'.pool <==> id in s.pool || (id != 0 && address != ""))
            && w < |s'.nodes| && s'.nodes[w].instances == s.nodes[w].instances[id := r]
  {
    var w, id := s.jobs[k].worker, s.jobs[k].id;
    var create, finish := CreateSandbox(k, address), FinishJob(k, Created(w, id, s.nodes[w].revision + 1, address), true);
    var s1 := Apply(s, create);
    s' := Apply(s1, finish);
    assert Leads(s', [], s');
    LeadsOn(s1, finish, [], s');
    LeadsOn(s, create, [finish], s');
    ops := [create] + [finish];
  }

  /** After any run a start that is admitted, with an id not used before, can be carried out: the worker creates
      the sandbox, and the leaf tracks it, running, under the revision of its creation. */
  lemma StartCanFinish(ss: seq<System>, ops: seq<Op>, w: nat, id: nat, limits: Limits, maxInstances: int, address: string)
    returns (more: seq<Op>, s': System)
    requires IsRun(ss, ops) && w < |ss[|ops|].leaf.workers| && ReserveStart(ss[|ops|].leaf, w, limits, false, false, maxInstances).Reserved?
    requires forall k :: 0 <= k < |ss[|ops|].jobs| ==> ss[|ops|].jobs[k].id != id
    ensures var s := ss[|ops|];
            && Leads(s, more, s') && |more| == 3 && w < |s.nodes| && w < |s'.leaf.workers| == |s.leaf.workers|
            && s'.leaf.total == s.leaf.total + 1 && s'.leaf.pendingStarts == s.leaf.pendingStarts
            && s'.leaf.workers[w].instances == s.leaf.workers[w].instances + [Tracked(id, address, false, s.nodes[w].revision + 1)]
            && (id in s'.pool <==> id in s.pool || (id != 0 && address != ""))
            && w < |s'.nodes| && s'.nodes[w].instances == s.nodes[w].instances[id := s.nodes[w].revision + 1]
  {
    var s := ss[|ops|];
    RunInv(ss, ops, |ops|);
    if id in s.nodes[w].created { CreatedForJob(ss, ops, |ops|, w, id); }
    ReserveStartEffect(s.leaf, w, limits, false, false, maxInstances);
    var start := StartJob(w, id, limits, false, false, maxInstances);
    more, s' := JobCanFinish(Apply(s, start), |s.jobs|, address);
    LeadsOn(s, start, more, s');
    more := [start] + more;
  }

  // --------------------------------------------------------------------- stops

  /** The last two steps of a stop: the worker confirms, and the leaf forgets the instance. */
  lemma StopCanEnd(s: System, k: nat) returns (s': System)
    requires Inv(s.leaf) && k < |s.stops| && s.stops[k].phase == Drained
    requires var v := s.stops[k].victim;
             && v.worker < |s.leaf.workers| == |s.nodes| && v.id in s.nodes[v.worker].created && v.id !in s.nodes[v.worker].instances
             && exists t :: t in s.leaf.workers[v.worker].instances && t.id == v.id
    ensures var v := s.stops[k].victim;
            && Leads(s, [ConfirmStop(k), FinishStop(k)], s') && v.id !in s'.pool && s'.nodes == s.nodes
            && v.worker < |s'.leaf.workers| && forall t :: t in s'.leaf.workers[v.worker].instances ==> t.id != v.id
  {
    var v := s.stops[k].victim;
    var s1 := Apply(s, ConfirmStop(k));
    s' := Apply(s1, FinishStop(k));
    RemoveStoppedEffect(s.leaf, v.worker, v.id);
    var ds := s'.leaf.departures;
    assert ds[|ds| - 1].id == v.id;
    assert Leads(s', [], s');
    LeadsOn(s1, FinishStop(k), [], s');
    LeadsOn(s, ConfirmStop(k), [FinishStop(k)], s');
    assert [ConfirmStop(k)] + [FinishStop(k)] == [ConfirmStop(k), FinishStop(k)];
  }

  /** After any run a stop of an instance that the pool admits and its worker's list still has can be carried out:
      Drain returns, the worker removes the sandbox and confirms, and the leaf forgets it. */
  lemma StopCanFinish(ss: seq<System>, ops: seq<Op>, k: nat) returns (s': System)
    requires IsRun(ss, ops) && k < |ss[|ops|].stops| && ss[|ops|].stops[k].phase == Draining
    requires var s := ss[|ops|];
             var v := s.stops[k].victim;
             v.id in s.pool && v.worker < |s.leaf.workers| && exists t :: t in s.leaf.workers[v.worker].instances && t.id == v.id
    ensures var s := ss[|ops|];
            var v := s.stops[k].victim;
            && Leads(s, [DrainReturns(k), RemoveSandbox(v.worker, v.id, true), ConfirmStop(k), FinishStop(k)], s')
            && v.id !in s'.pool && v.worker < |s'.nodes| && v.id !in s'.nodes[v.worker].instances
            && v.worker < |s'.leaf.workers| && forall t :: t in s'.leaf.workers[v.worker].instances ==> t.id != v.id
  {
    var s := ss[|ops|];
    var v := s.stops[k].victim;
    RunInv(ss, ops, |ops|);
    assert ListOk(s.nodes[v.worker], s.admitted, s.leaf.workers[v.worker].instances);
    var remove, last := RemoveSandbox(v.worker, v.id, true), [ConfirmStop(k), FinishStop(k)];
    var s1 := Apply(s, DrainReturns(k));
    var s2 := Apply(s1, remove);
    s' := StopCanEnd(s2, k);
    LeadsOn(s1, remove, last, s');
    LeadsOn(s, DrainReturns(k), [remove] + last, s');
    assert [DrainReturns(k)] + ([remove] + last) == [DrainReturns(k), remove, ConfirmStop(k), FinishStop(k)];
  }

  /** After any run a running stop can fail, and a waiting start. */
  lemma CanFail(ss: seq<System>, ops: seq<Op>, k: nat)
    requires IsRun(ss, ops)
    ensures var s := ss[|ops|];
            && (k < |s.stops| && s.stops[k].phase != TakenBack && s.stops[k].phase != StopPhase.Removed ==> Enabled(s, FailStop(k)))
            && (k < |s.jobs| && s.jobs[k].waiting ==> Enabled(s, FailJob(k)))
  {
    if k < |ss[|ops|].jobs| { JobHasWorker(ss, ops, |ops|, k); }
  }
}
