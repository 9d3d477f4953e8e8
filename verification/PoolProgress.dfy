/** Nothing in the pool gets stuck: calls can return, leases end and drains finish. */
module PoolProgress {
  import opened Options
  import opened PoolEffects
  import opened PoolModel
  import opened PoolProofs
  import opened PoolRuns

  /** After any run a blocked call can return: with what was sent to it, or, once its context is done, with an error,
      out of the queue. */
  lemma CallCanReturn<R>(limit: int, depth: int, ops: seq<Op<R>>, trace: seq<System<R>>, w: nat)
    requires IsRun(limit, depth, ops, trace) && w < |trace[|ops|].pool.waiters| && trace[|ops|].pool.waiters[w].phase == Blocked
    ensures var s := trace[|ops|].pool;
            && Resolves(s)
            && (s.waiters[w].sent != Nothing ==>
                  && Enabled(s, Op.Receive(w))
                  && w < |Apply(s, Op.Receive(w)).waiters| && Apply(s, Op.Receive(w)).waiters[w].phase != Blocked)
            && Enabled(s, CancelContext(w))
            && var s1 := Apply(s, CancelContext(w));
               && Resolves(s1) && Enabled(s1, Op.Withdraw(w))
               && var s2 := Apply(s1, Op.Withdraw(w));
                  w < |s2.waiters| && s2.waiters[w].phase == Errored && w !in s2.pending
  {
    var s := trace[|ops|].pool;
    RunInv(limit, depth, ops, trace, |ops|);
    InvResolves(s);
    if s.waiters[w].sent != Nothing { ReceiveEffect(s, w); }
    var s1 := Apply(s, CancelContext(w));
    StepInv(s, CancelContext(w));
    InvResolves(s1);
    WithdrawEffect(s1, w);
  }

  /** After any run a call that holds a lease can release it. */
  lemma LeaseCanEnd<R>(limit: int, depth: int, ops: seq<Op<R>>, trace: seq<System<R>>, w: nat)
    requires IsRun(limit, depth, ops, trace) && w < |trace[|ops|].pool.waiters| && trace[|ops|].pool.waiters[w].phase.Leased?
    ensures var s := trace[|ops|].pool;
            var k := s.waiters[w].phase.lease;
            && Resolves(s) && Enabled(s, Op.Release(w)) && k < |s.leases|
            && var s' := Apply(s, Op.Release(w));
               k < |s'.leases| && s'.leases[k] == s.leases[k].(released := true)
  {
    var s := trace[|ops|].pool;
    RunInv(limit, depth, ops, trace, |ops|);
    InvResolves(s);
    if !s.leases[s.waiters[w].phase.lease].released { ReleaseEffect(s, s.waiters[w].phase.lease); }
  }

  /** After any run an idle member of an open pool can be drained and stopped. */
  lemma DrainCanFinish<R>(limit: int, depth: int, ops: seq<Op<R>>, trace: seq<System<R>>, id: nat)
    requires IsRun(limit, depth, ops, trace) && !trace[|ops|].pool.closed && id in trace[|ops|].pool.members
    requires var s := trace[|ops|].pool;
             s.members[id] in s.objs ==> !s.objs[s.members[id]].draining && s.objs[s.members[id]].inFlight == 0
    ensures var s := trace[|ops|].pool;
            var r := s.members[id];
            && Resolves(s) && Enabled(s, Op.Drain(id))
            && var s1 := Apply(s, Op.Drain(id));
               && Resolves(s1) && Enabled(s1, Op.DrainReturn(r))
               && var s2 := Apply(s1, Op.DrainReturn(r));
                  && Resolves(s2) && Enabled(s2, Finish(r, true)) && Apply(s2, Finish(r, true)).members == s.members - {id}
  {
    var s := trace[|ops|].pool;
    var r := s.members[id];
    RunInv(limit, depth, ops, trace, |ops|);
    InvResolves(s);
    DrainEffect(s, id);
    var s1 := Apply(s, Op.Drain(id));
    StepInv(s, Op.Drain(id));
    InvResolves(s1);
    var s2 := Apply(s1, Op.DrainReturn(r));
    StepInv(s1, Op.DrainReturn(r));
    InvResolves(s2);
    FinishStoppedEffect(s2, r);
  }

  // -------------------------------------------------------- drains and closing

  /** A waiting drain was waiting before, on the same channel. */
  ghost predicate SameWait<R>(s: Pool<R>, s': Pool<R>, r: R) {
    r in s.objs && r in s'.objs && (s'.objs[r].session == Waiting ==> s.objs[r].session == Waiting && s'.objs[r].drained == s.objs[r].drained)
  }

  lemma ClosedEntry<R>(s: Pool<R>, op: Op<R>, r: R)
    requires Resolves(s) && Enabled(s, op) && s.closed && r in s.objs && Entry(s, op).Some?
    ensures SameWait(s, Entry(s, op).value, r)
  {
  }

  lemma ClosedQuiet<R>(s: Pool<R>, op: Op<R>, r: R)
    requires Resolves(s) && Enabled(s, op) && s.closed && r in s.objs && Entry(s, op) == None
    ensures SameWait(s, Apply(s, op), r)
  {
    if op.Receive? { ClosedReceive(s, op, r); } else if op.Withdraw? { ClosedWithdraw(s, op, r); }
  }

  lemma ClosedReceive<R>(s: Pool<R>, op: Op<R>, r: R)
    requires Resolves(s) && Enabled(s, op) && s.closed && r in s.objs && Entry(s, op) == None && op.Receive?
    ensures SameWait(s, Apply(s, op), r)
  {
  }

  lemma ClosedWithdraw<R>(s: Pool<R>, op: Op<R>, r: R)
    requires Resolves(s) && Enabled(s, op) && s.closed && r in s.objs && Entry(s, op) == None && op.Withdraw?
    ensures SameWait(s, Apply(s, op), r)
  {
  }

  lemma ClosedStep<R>(s: Pool<R>, op: Op<R>, r: R)
    requires Inv(s) && Enabled(s, op) && s.closed && r in s.objs
    ensures Resolves(s) && SameWait(s, Apply(s, op), r)
  {
    InvResolves(s);
    if Entry(s, op).Some? {
      EntryDispatches(s, op);
      ClosedEntry(s, op, r);
      DispatchFleet(Entry(s, op).value);
    } else {
      ClosedQuiet(s, op, r);
    }
  }

  lemma ClosedStepAt<R>(limit: int, depth: int, ops: seq<Op<R>>, trace: seq<System<R>>, i: nat, r: R)
    requires IsRun(limit, depth, ops, trace) && i < |ops| && trace[i].pool.closed && r in trace[i].pool.objs
    ensures trace[i + 1].pool.closed && SameWait(trace[i].pool, trace[i + 1].pool, r)
  {
    RunInv(limit, depth, ops, trace, i);
    StepAt(limit, depth, ops, trace, i);
    assert Stepped(ops, trace, i);
    ClosedStep(trace[i].pool, ops[i], r);
  }

  lemma {:induction false} ClosedChannel<R>(limit: int, depth: int, ops: seq<Op<R>>, trace: seq<System<R>>, i: nat, j: nat, r: R)
    requires IsRun(limit, depth, ops, trace) && i <= j < |trace| && trace[i].pool.closed && r in trace[i].pool.objs
    ensures trace[j].pool.closed && SameWait(trace[i].pool, trace[j].pool, r)
    decreases j - i
  {
    if i == j {
    } else {
      ClosedChannel(limit, depth, ops, trace, i, j - 1, r);
      ClosedStepAt(limit, depth, ops, trace, j - 1, r);
    }
  }

  /** In an open pool a waiting drain can return exactly if no lease is left on its sandbox. */
  lemma DrainReturnsWhenIdle<R>(limit: int, depth: int, ops: seq<Op<R>>, trace: seq<System<R>>, i: nat, r: R)
    requires IsRun(limit, depth, ops, trace) && i < |trace| && !trace[i].pool.closed
    requires r in trace[i].pool.objs && trace[i].pool.objs[r].session == Waiting
    ensures Enabled(trace[i].pool, Op.DrainReturn(r)) <==> trace[i].pool.objs[r].inFlight == 0
  {
    RunInv(limit, depth, ops, trace, i);
    assert DrainOk(trace[i].pool.objs[r], trace[i].pool.closed);
  }

  /** A drain that is waiting when the pool closes, step `i`, can still return later if and only if no lease was
      left on its sandbox then: the release of the last one does not wake it. */
  lemma CloseStrandsDrain<R>(limit: int, depth: int, ops: seq<Op<R>>, trace: seq<System<R>>, i: nat, j: nat, r: R)
    requires IsRun(limit, depth, ops, trace) && i < j < |trace| && ops[i].Close? && !trace[i].pool.closed
    requires r in trace[i].pool.objs && r in trace[j].pool.objs && trace[j].pool.objs[r].session == Waiting
    ensures trace[i].pool.objs[r].session == Waiting
    ensures Enabled(trace[j].pool, Op.DrainReturn(r)) <==> trace[i].pool.objs[r].inFlight == 0
  {
    var s := trace[i].pool;
    RunInv(limit, depth, ops, trace, i);
    assert Stepped(ops, trace, i);
    CloseObjects(s);
    ClosedChannel(limit, depth, ops, trace, i + 1, j, r);
    assert DrainOk(s.objs[r], s.closed);
  }

  lemma CloseObjects<R>(s: Pool<R>)
    requires Inv(s) && !s.closed
    ensures PoolModel.Close(s).closed && PoolModel.Close(s).objs == s.objs
  {
    CloseEffect(s);
    FailAllObjects(s.(closed := true, ready := []));
  }

  lemma {:induction false} FailAllObjects<R>(s: Pool<R>)
    requires Refs(s)
    ensures FailAll(s).objs == s.objs
    decreases |s.pending|
  {
    if s.pending == [] {
    } else {
      FailAllObjects(FailFront(s));
    }
  }

  // ------------------------------------------------------------- a stranded drain

  lemma Extend<R>(limit: int, depth: int, ops: seq<Op<R>>, trace: seq<System<R>>, op: Op<R>) returns (trace': seq<System<R>>)
    requires IsRun(limit, depth, ops, trace) && Enabled(trace[|ops|].pool, op)
    ensures Resolves(trace[|ops|].pool) && trace' == trace + [Step(trace[|ops|], op)] && IsRun(limit, depth, ops + [op], trace')
  {
    RunInv(limit, depth, ops, trace, |ops|);
    InvResolves(trace[|ops|].pool);
    trace' := trace + [Step(trace[|ops|], op)];
    forall i | 0 <= i <= |ops| ensures Stepped(ops + [op], trace', i) {
      if i < |ops| { assert Stepped(ops, trace, i); }
    }
  }

  lemma AddOne(s: Pool<nat>, target: Sandbox)
    requires s == Initial<nat>(1, 1).pool && target.instanceId == 7 && target.address != ""
    ensures Refs(s) && PoolModel.Add(s, target, 0).ready == [0] && !PoolModel.Add(s, target, 0).closed && PoolModel.Add(s, target, 0).pending == []
    ensures var s' := PoolModel.Add(s, target, 0); s'.waiters == [] && s'.leases == [] && s'.members == map[7 := 0]
    ensures var s' := PoolModel.Add(s, target, 0); 0 in s'.objs && s'.objs[0].inFlight == 0 && !s'.objs[0].draining
  {
    PutRefs(s, target, 0);
    assert Put(s, target, 0).pending == [];
  }

  /** The one lease of the example, still held by the first call. */
  ghost predicate OneLease(s: Pool<nat>) {
    s.leases == [LeaseRecord(0, 0, false)] && s.waiters == [Waiter(false, Nothing, Leased(0))] && 0 in s.objs && s.objs[0].inFlight == 1
  }

  lemma ServedRun() returns (ops: seq<Op<nat>>, trace: seq<System<nat>>)
    ensures IsRun(1, 1, ops, trace) && |ops| == 2 && OneLease(trace[2].pool)
    ensures var s := trace[2].pool; !s.closed && s.members == map[7 := 0] && !s.objs[0].draining && s.pending == []
  {
    var target := Sandbox(7, 1, "a", "http");
    AddOne(Initial<nat>(1, 1).pool, target);
    trace := Extend(1, 1, [], [Initial<nat>(1, 1)], Op.Add(target, 0));
    ops := [Op.Add(target, 0)];
    ServeOne(trace[1].pool);
    trace := Extend(1, 1, ops, trace, Op.Arrive);
    ops := ops + [Op.Arrive];
  }

  lemma ServeOne(s: Pool<nat>)
    requires Refs(s) && s.ready == [0] && s.pending == [] && !s.closed && s.waiters == [] && s.leases == []
    requires 0 in s.objs && s.objs[0].inFlight == 0
    ensures OneLease(PoolModel.Arrive(s)) && PoolModel.Arrive(s).members == s.members && !PoolModel.Arrive(s).closed
    ensures PoolModel.Arrive(s).objs[0].draining == s.objs[0].draining && PoolModel.Arrive(s).pending == []
  {
    ArriveEffect(s);
  }

  lemma DrainedRun() returns (ops: seq<Op<nat>>, trace: seq<System<nat>>)
    ensures IsRun(1, 1, ops, trace) && |ops| == 3 && ops[2] == Op.Drain(7) && OneLease(trace[3].pool)
    ensures var s := trace[3].pool; !s.closed && s.objs[0].session == Waiting && s.objs[0].drained == Open && s.pending == []
  {
    ops, trace := ServedRun();
    RunInv(1, 1, ops, trace, 2);
    DrainEffect(trace[2].pool, 7);
    trace := Extend(1, 1, ops, trace, Op.Drain(7));
    ops := ops + [Op.Drain(7)];
  }

  lemma CloseOne(s: Pool<nat>)
    requires Inv(s) && !s.closed && OneLease(s) && s.pending == []
    ensures OneLease(PoolModel.Close(s)) && PoolModel.Close(s).objs == s.objs && PoolModel.Close(s).closed
  {
    CloseObjects(s);
    CloseEffect(s);
  }

  lemma ReleaseOne(s: Pool<nat>)
    requires Resolves(s) && OneLease(s) && s.closed
    ensures var s' := Apply(s, Op.Release(0)); 0 in s'.objs && s'.objs[0] == s.objs[0].(inFlight := 0)
  {
  }

  lemma ClosedRun() returns (ops: seq<Op<nat>>, trace: seq<System<nat>>)
    ensures IsRun(1, 1, ops, trace) && |ops| == 4 && ops[2] == Op.Drain(7) && ops[3].Close? && OneLease(trace[4].pool)
    ensures var s := trace[4].pool; s.closed && s.objs[0].session == Waiting && s.objs[0].drained == Open
  {
    ops, trace := DrainedRun();
    RunInv(1, 1, ops, trace, 3);
    CloseOne(trace[3].pool);
    trace := Extend(1, 1, ops, trace, Op.Close);
    ops := ops + [Op.Close];
  }

  /** A drain begun beside a lease and closed over is not woken by the lease's end. */
  lemma StrandedDrain() returns (ops: seq<Op<nat>>, trace: seq<System<nat>>)
    ensures IsRun(1, 1, ops, trace) && |ops| == 5 && ops[2] == Op.Drain(7) && ops[3].Close? && ops[4].Release?
    ensures var s := trace[5].pool;
            0 in s.objs && s.objs[0].session == Waiting && s.objs[0].inFlight == 0 && !Enabled(s, Op.DrainReturn(0))
  {
    ops, trace := ClosedRun();
    RunInv(1, 1, ops, trace, 4);
    InvResolves(trace[4].pool);
    ReleaseOne(trace[4].pool);
    trace := Extend(1, 1, ops, trace, Op.Release(0));
    ops := ops + [Op.Release(0)];
  }
}
