/** What the concurrency limit and the queue depth bound, over every run. */
module PoolLimits {
  import opened PoolModel
  import opened PoolProofs
  import opened PoolRuns

  /** Every sandbox on the ready list has a free slot. */
  ghost predicate FreeSlots<R>(s: Pool<R>) {
    NoDup(s.ready) && forall r :: r in s.ready ==> r in s.objs && s.objs[r].inFlight < s.limit
  }

  /** No sandbox has gained a lease, new ones have none, and the settings are kept. */
  ghost predicate Gentle<R>(s: Pool<R>, s': Pool<R>) {
    && s'.limit == s.limit && s'.queueDepth == s.queueDepth && |s'.pending| <= |s.pending|
    && forall r :: r in s'.objs ==> s'.objs[r].inFlight <= if r in s.objs then s.objs[r].inFlight else 0
  }

  /** A sandbox gains leases only up to the limit, the queue grows only up to the depth, and the
      settings are kept. */
  ghost predicate Within<R>(s: Pool<R>, s': Pool<R>) {
    && s'.limit == s.limit && s'.queueDepth == s.queueDepth && |s'.pending| <= Max(|s.pending|, s.queueDepth)
    && forall r :: r in s'.objs ==> s'.objs[r].inFlight <= Max(if r in s.objs then s.objs[r].inFlight else 0, s.limit)
  }

  lemma GrantWithin<R>(s: Pool<R>)
    requires Refs(s) && FreeSlots(s) && s.pending != [] && s.ready != []
    ensures Within(s, GrantFront(s)) && GrantFront(s).objs.Keys == s.objs.Keys && FreeSlots(GrantFront(s))
  {
    var r, s' := s.ready[0], GrantFront(s);
    assert r in s.ready && r !in s.ready[1..];
    assert s'.ready == s.ready[1..] + if s.objs[r].inFlight + 1 >= s.limit then [] else [r];
  }

  lemma FrontWithin<R>(s: Pool<R>, s': Pool<R>)
    requires Refs(s) && FreeSlots(s) && s.pending != []
    requires s' == FailFront(s) || (s.ready != [] && s' == GrantFront(s))
    ensures Within(s, s') && FreeSlots(s') && |s'.pending| < |s.pending| && s'.objs.Keys == s.objs.Keys
  {
    if s' == FailFront(s) {
    } else {
      GrantWithin(s);
    }
  }

  lemma {:induction false} DispatchWithin<R>(s: Pool<R>)
    requires Refs(s) && FreeSlots(s)
    ensures Within(s, Dispatch(s)) && |Dispatch(s).pending| <= |s.pending|
    decreases |s.pending|
  {
    if s.pending == [] || (!s.waiters[s.pending[0]].cancelled && s.ready == []) {
    } else {
      var s1 := if s.waiters[s.pending[0]].cancelled then FailFront(s) else GrantFront(s);
      FrontRefs(s);
      FrontWithin(s, s1);
      DispatchWithin(s1);
      assert Dispatch(s) == Dispatch(s1);
    }
  }

  lemma GentleThen<R>(s: Pool<R>, s1: Pool<R>, s2: Pool<R>)
    requires Gentle(s, s1) && Within(s1, s2) && s2.objs.Keys == s1.objs.Keys && |s2.pending| <= |s1.pending|
    ensures Within(s, s2)
  {
  }

  lemma {:induction false} DispatchKeys<R>(s: Pool<R>)
    requires Refs(s)
    ensures Dispatch(s).objs.Keys == s.objs.Keys
    decreases |s.pending|
  {
    if s.pending == [] || (!s.waiters[s.pending[0]].cancelled && s.ready == []) {
    } else {
      FrontRefs(s);
      DispatchKeys(if s.waiters[s.pending[0]].cancelled then FailFront(s) else GrantFront(s));
    }
  }

  lemma ServingFree<R>(s: Pool<R>)
    requires Serving(s)
    ensures FreeSlots(s)
  {
    forall r | r in s.ready ensures s.objs[r].inFlight < s.limit {
      assert ExactAt(s.members, s.objs, s.ready, s.limit, r);
    }
  }

  lemma EnterWithin<R>(s: Pool<R>, s1: Pool<R>)
    requires Gentle(s, s1) && Core(s1) && (!s1.closed ==> Serving(s1)) && (s1.closed ==> s1.pending == [])
    ensures Refs(s1) && Within(s, Dispatch(s1))
  {
    if s1.closed {
    } else {
      ServingFree(s1);
      DispatchWithin(s1);
      DispatchKeys(s1);
      GentleThen(s, s1, Dispatch(s1));
    }
  }

  // ---------------------------------------------------------------- operations

  lemma ConfigureWithin<R>(s: Pool<R>, limit: int, depth: int, ids: seq<nat>)
    requires Inv(s) && MemberIds(s, ids)
    ensures Within(s.(limit := if limit > 0 then limit else 200, queueDepth := if depth > 0 then depth else 10_000),
                   PoolModel.Configure(s, limit, depth, ids))
  {
    var s0 := s.(limit := NormalizeLimit(limit), queueDepth := NormalizeDepth(depth));
    RefreshAllOk(s0, ids);
    var s1 := RefreshAll(s0, ids);
    if !s.closed { MembersExact(s1.members, s1.objs, s1.ready, s1.limit); }
    EnterWithin(s0, s1);
  }

  lemma PutGentle<R>(s: Pool<R>, target: Sandbox, alloc: R)
    requires Refs(s) && (target.instanceId in s.members || alloc !in s.objs)
    ensures Gentle(s, Put(s, target, alloc))
  {
  }

  lemma AddWithin<R>(s: Pool<R>, target: Sandbox, alloc: R)
    requires Inv(s) && alloc !in s.objs
    ensures Within(s, PoolModel.Add(s, target, alloc))
  {
    if Usable(target) && !s.closed {
      PutGentle(s, target, alloc);
      if target.instanceId !in s.members {
        PutNew(s, target, alloc);
        EnterWithin(s, Put(s, target, alloc));
      }
    }
  }

  lemma {:induction false} SyncPutGentle<R>(s: Pool<R>, wanted: map<nat, Sandbox>, allocs: map<nat, R>, ids: seq<nat>)
    requires Refs(s) && NoDup(ids) && forall id :: id in ids ==> id in wanted && wanted[id].instanceId == id && id in allocs
    requires Fresh(s, allocs, ids)
    ensures Gentle(s, SyncPut(s, wanted, allocs, ids))
    decreases |ids|
  {
    if ids == [] {
    } else {
      assert ids[0] in ids && ids[0] !in ids[1..];
      PutRefs(s, wanted[ids[0]], allocs[ids[0]]);
      PutGentle(s, wanted[ids[0]], allocs[ids[0]]);
      SyncPutGentle(Put(s, wanted[ids[0]], allocs[ids[0]]), wanted, allocs, ids[1..]);
    }
  }

  lemma SyncWithin<R>(s: Pool<R>, targets: seq<Sandbox>, drop: seq<nat>, put: seq<nat>, allocs: map<nat, R>)
    requires Inv(s) && SyncArgs(s, targets, drop, put, allocs)
    ensures Within(s, PoolModel.Sync(s, targets, drop, put, allocs))
  {
    if !s.closed {
      var wanted := Wanted(targets);
      var s1 := SyncDrop(s, wanted, drop);
      SyncDropOk(s, wanted, drop);
      SyncDropKeeps(s, wanted, drop);
      SyncPutOk(s1, wanted, allocs, put);
      SyncPutGentle(s1, wanted, allocs, put);
      EnterWithin(s, SyncPut(s1, wanted, allocs, put));
    }
  }

  lemma RestoreWithin<R>(s: Pool<R>, r: R)
    requires Inv(s) && r in s.objs
    ensures Within(s, Restore(s, r))
  {
    SessionInv(s, r, NoSession);
    if IsMember(s.members, s.objs, r) && s.objs[r].draining {
      var s0 := s.(objs := s.objs[r := s.objs[r].(session := NoSession)]);
      ReadmitOk(s0, r);
      EnterWithin(s, Readmit(s0, r));
    }
  }

  lemma ReleaseWithin<R>(s: Pool<R>, k: nat)
    requires Inv(s) && k < |s.leases| && !s.leases[k].released
    requires s.leases[k].owner < |s.waiters| && s.waiters[s.leases[k].owner].phase != Blocked
    ensures s.leases[k].sandbox in s.objs && Within(s, PoolModel.Release(s, k))
  {
    var r := s.leases[k].sandbox;
    CountedRelease(s.objs, s.leases, s.executing, s.accepted, s.completed, k, s.objs[r]);
    var s1 := EndLease(s, k);
    if !s.closed && Admissible(s.members, s.objs, r) {
      WithoutMembers(s.ready, r);
      EndLeaseOk(s, k, Refresh(s1, r));
      EnterWithin(s, s1.(ready := Refresh(s1, r)));
    }
  }

  lemma ReturnWithin<R>(s: Pool<R>, w: nat)
    requires Inv(s) && w < |s.waiters| && s.waiters[w].phase == Blocked && s.waiters[w].sent.Grant?
    ensures Resolves(s)
    ensures Within(s, PoolModel.Release(s.(waiters := s.waiters[w := s.waiters[w].(phase := Errored)]), s.waiters[w].sent.lease))
  {
    InvResolves(s);
    var s1 := s.(waiters := s.waiters[w := s.waiters[w].(phase := Errored)]);
    ReceivedLease(s, w);
    assert w !in s.pending by { assert WaiterOk(w, s.waiters[w], w in s.pending, s.leases); }
    ReturnInv(s, w, Errored);
    ReleaseWithin(s1, s.waiters[w].sent.lease);
  }

  lemma ReceiveWithin<R>(s: Pool<R>, w: nat)
    requires Inv(s) && w < |s.waiters| && s.waiters[w].phase == Blocked && s.waiters[w].sent != Nothing
    ensures Resolves(s) && Within(s, PoolModel.Receive(s, w))
  {
    InvResolves(s);
    if s.waiters[w].sent.Grant? && s.waiters[w].cancelled { ReturnWithin(s, w); }
  }

  lemma WithdrawWithin<R>(s: Pool<R>, w: nat)
    requires Inv(s) && w < |s.waiters| && s.waiters[w].phase == Blocked
    ensures Resolves(s) && Within(s, PoolModel.Withdraw(s, w))
  {
    InvResolves(s);
    if w in s.pending {
      var k := WithoutIsSlice(s.pending, w);
    } else if s.waiters[w].sent.Grant? {
      ReturnWithin(s, w);
    }
  }

  lemma ReleaseOpWithin<R>(s: Pool<R>, w: nat)
    requires Inv(s) && w < |s.waiters| && s.waiters[w].phase.Leased?
    ensures Resolves(s) && Within(s, Apply(s, Release(w)))
  {
    InvResolves(s);
    LeasedOwner(s, w);
    if !s.leases[s.waiters[w].phase.lease].released { ReleaseWithin(s, s.waiters[w].phase.lease); }
  }

  lemma ArriveWithin<R>(s: Pool<R>)
    requires Inv(s)
    ensures Within(s, PoolModel.Arrive(s))
  {
    if Admit(s) == Served { assert s.ready[0] in s.ready && ExactAt(s.members, s.objs, s.ready, s.limit, s.ready[0]); }
  }

  lemma {:induction false} FailAllKeeps<R>(s: Pool<R>)
    requires forall i :: 0 <= i < |s.pending| ==> s.pending[i] < |s.waiters|
    ensures var s' := FailAll(s);
            s'.objs == s.objs && s'.limit == s.limit && s'.queueDepth == s.queueDepth && s'.pending == []
    decreases |s.pending|
  {
    if s.pending == [] {
    } else {
      FailAllKeeps(FailFront(s));
    }
  }

  lemma CloseWithin<R>(s: Pool<R>)
    requires Inv(s)
    ensures Within(s, PoolModel.Close(s))
  {
    if !s.closed { FailAllKeeps(s.(closed := true, ready := [])); }
  }

  lemma QuietWithin<R>(s: Pool<R>, op: Op<R>)
    requires Resolves(s) && Enabled(s, op)
    requires op.Remove? || op.Drain? || op.DrainReturn? || (op.Finish? && op.stopped) || op.CancelContext? || op.TakeHighWater?
    ensures Within(s, Apply(s, op))
  {
  }

  lemma FleetWithin<R>(s: Pool<R>, op: Op<R>)
    requires Inv(s) && Resolves(s) && Enabled(s, op)
    requires op.Add? || op.Sync? || op.DrainAbort? || (op.Finish? && !op.stopped)
    ensures Within(s, Apply(s, op))
  {
    match op
    case Add(target, alloc) => AddWithin(s, target, alloc);
    case Sync(targets, drop, put, allocs) => SyncWithin(s, targets, drop, put, allocs);
    case DrainAbort(r) => RestoreWithin(s, r);
    case Finish(r, _) => RestoreWithin(s, r);
  }

  /** Every operation but Configure. */
  lemma StepWithin<R>(s: Pool<R>, op: Op<R>)
    requires Inv(s) && Enabled(s, op) && !op.Configure?
    ensures Resolves(s) && Within(s, Apply(s, op))
  {
    InvResolves(s);
    if op.Add? || op.Sync? || op.DrainAbort? || (op.Finish? && !op.stopped) {
      FleetWithin(s, op);
    } else if op.Receive? {
      ReceiveWithin(s, op.w);
    } else if op.Withdraw? {
      WithdrawWithin(s, op.w);
    } else if op.Release? {
      ReleaseOpWithin(s, op.w);
    } else if op.Arrive? {
      ArriveWithin(s);
    } else if op.Close? {
      CloseWithin(s);
    } else {
      QuietWithin(s, op);
    }
  }

  // ---------------------------------------------------------------------- runs

  ghost predicate NoConfigure<R>(ops: seq<Op<R>>, i: nat, j: nat)
    requires i <= j <= |ops|
  {
    forall k :: i <= k < j ==> !ops[k].Configure?
  }

  lemma WithinTrans<R>(s: Pool<R>, s1: Pool<R>, s2: Pool<R>)
    requires Within(s, s1) && Within(s1, s2) && s.objs.Keys <= s1.objs.Keys && s1.objs.Keys <= s2.objs.Keys && s.limit > 0
    ensures Within(s, s2)
  {
  }

  /** Between two reconfigurations no sandbox is leased beyond the limit, except for what it already
      had before, and the queue does not outgrow the depth, except for what was queued before. */
  lemma {:induction false} LimitsHold<R>(limit: int, depth: int, ops: seq<Op<R>>, trace: seq<System<R>>, i: nat, j: nat)
    requires IsRun(limit, depth, ops, trace) && i <= j < |trace| && NoConfigure(ops, i, j)
    ensures Within(trace[i].pool, trace[j].pool) && trace[i].pool.objs.Keys <= trace[j].pool.objs.Keys
    decreases j - i
  {
    SettingsArePositive(limit, depth, ops, trace, i);
    if i == j {
      RunInv(limit, depth, ops, trace, i);
    } else {
      assert NoConfigure(ops, i, j - 1);
      LimitsHold(limit, depth, ops, trace, i, j - 1);
      RunInv(limit, depth, ops, trace, j - 1);
      assert Stepped(ops, trace, j - 1);
      StepWithin(trace[j - 1].pool, ops[j - 1]);
      StepAt(limit, depth, ops, trace, j - 1);
      WithinTrans(trace[i].pool, trace[j - 1].pool, trace[j].pool);
    }
  }

  /** Limit and depth are positive, as the defaults take the place of what is not. */
  lemma {:induction false} SettingsArePositive<R>(limit: int, depth: int, ops: seq<Op<R>>, trace: seq<System<R>>, i: nat)
    requires IsRun(limit, depth, ops, trace) && i < |trace|
    ensures trace[i].pool.limit > 0 && trace[i].pool.queueDepth > 0
  {
    if i == 0 {
    } else {
      SettingsArePositive(limit, depth, ops, trace, i - 1);
      RunInv(limit, depth, ops, trace, i - 1);
      assert Stepped(ops, trace, i - 1);
      var s, op := trace[i - 1].pool, ops[i - 1];
      if op.Configure? { ConfigureWithin(s, op.limit, op.depth, op.ids); } else { StepWithin(s, op); }
    }
  }

  /** Without a Configure no sandbox ever has more leases than the limit the pool was made with, and
      never more requests are queued than the depth. */
  lemma StartLimitsHold<R>(limit: int, depth: int, ops: seq<Op<R>>, trace: seq<System<R>>, j: nat)
    requires IsRun(limit, depth, ops, trace) && j < |trace| && NoConfigure(ops, 0, j)
    ensures forall r :: r in trace[j].pool.objs ==> trace[j].pool.objs[r].inFlight <= if limit > 0 then limit else 200
    ensures |trace[j].pool.pending| <= if depth > 0 then depth else 10_000
  {
    LimitsHold(limit, depth, ops, trace, 0, j);
  }

  /** Nor after a Configure, step `i`, up to the next one: beyond the new limit a sandbox keeps only
      leases it had then, and beyond the new depth only requests queued then stay queued. */
  lemma ConfiguredLimitsHold<R>(limit: int, depth: int, ops: seq<Op<R>>, trace: seq<System<R>>, i: nat, j: nat)
    requires IsRun(limit, depth, ops, trace) && i < j < |trace| && ops[i].Configure? && NoConfigure(ops, i + 1, j)
    ensures var l, d := if ops[i].limit > 0 then ops[i].limit else 200, if ops[i].depth > 0 then ops[i].depth else 10_000;
            var s, s' := trace[i].pool, trace[j].pool;
            && s'.limit == l && s'.queueDepth == d && |s'.pending| <= Max(|s.pending|, d)
            && forall r :: r in s'.objs ==> s'.objs[r].inFlight <= Max(if r in s.objs then s.objs[r].inFlight else 0, l)
  {
    RunInv(limit, depth, ops, trace, i);
    assert Stepped(ops, trace, i);
    ConfigureWithin(trace[i].pool, ops[i].limit, ops[i].depth, ops[i].ids);
    LimitsHold(limit, depth, ops, trace, i + 1, j);
  }
}
