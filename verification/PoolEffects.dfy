/** What each pool operation does to the fleet, the calls and the leases, in the fields themselves. */
module PoolEffects {
  import opened Options
  import opened PoolModel
  import opened PoolProofs
  import opened PoolRuns

  /** Dispatching moves leases only: no member, target or drain changes. */
  ghost predicate SameFleet<R>(s: Pool<R>, s': Pool<R>) {
    && s'.members == s.members && s'.closed == s.closed && s'.objs.Keys == s.objs.Keys
    && forall r :: r in s.objs ==> s'.objs[r] == s.objs[r].(inFlight := s'.objs[r].inFlight)
  }

  lemma FrontFleet<R>(s: Pool<R>)
    requires Refs(s) && s.pending != []
    ensures SameFleet(s, FailFront(s)) && (s.ready != [] ==> SameFleet(s, GrantFront(s)))
  {
    if s.ready != [] { assert s.ready[0] in s.ready; }
  }

  lemma {:induction false} DispatchFleet<R>(s: Pool<R>)
    requires Refs(s)
    ensures SameFleet(s, Dispatch(s))
    decreases |s.pending|
  {
    if s.pending == [] || (!s.waiters[s.pending[0]].cancelled && s.ready == []) {
    } else {
      FrontRefs(s);
      FrontFleet(s);
      DispatchFleet(if s.waiters[s.pending[0]].cancelled then FailFront(s) else GrantFront(s));
    }
  }

  /** Dispatching completes and releases nothing; a call it sends to fails exactly if its context is done. */
  ghost predicate SameEnds<R>(s: Pool<R>, s': Pool<R>) {
    && s'.completed == s.completed && s.leases <= s'.leases && |s'.waiters| == |s.waiters|
    && (forall w :: 0 <= w < |s.waiters| ==> s'.waiters[w] == s.waiters[w].(sent := s'.waiters[w].sent))
    && (forall w :: 0 <= w < |s.waiters| && s'.waiters[w].sent != s.waiters[w].sent ==>
          s.waiters[w].sent == Nothing && s'.waiters[w].sent != Nothing && (s'.waiters[w].sent == Fail <==> s.waiters[w].cancelled))
  }

  lemma FrontEnds<R>(s: Pool<R>, s': Pool<R>)
    requires Refs(s) && s.pending != []
    requires if s.waiters[s.pending[0]].cancelled then s' == FailFront(s) else s.ready != [] && s' == GrantFront(s)
    ensures SameEnds(s, s')
  {
  }

  lemma EndsTrans<R>(s: Pool<R>, s1: Pool<R>, s2: Pool<R>)
    requires SameEnds(s, s1) && SameEnds(s1, s2)
    ensures SameEnds(s, s2)
  {
  }

  lemma {:induction false} DispatchEnds<R>(s: Pool<R>)
    requires Refs(s)
    ensures SameEnds(s, Dispatch(s))
    decreases |s.pending|
  {
    if s.pending == [] || (!s.waiters[s.pending[0]].cancelled && s.ready == []) {
    } else {
      FrontRefs(s);
      var s1 := if s.waiters[s.pending[0]].cancelled then FailFront(s) else GrantFront(s);
      FrontEnds(s, s1);
      DispatchEnds(s1);
      EndsTrans(s, s1, Dispatch(s1));
      assert Dispatch(s) == Dispatch(s1);
    }
  }

  // ------------------------------------------------------------------- arrivals

  /** A request is refused exactly by a closed pool or, where no sandbox is free for it, by a full queue;
      it is served at once exactly if nobody waits and a sandbox is ready. */
  lemma ArriveEffect<R>(s: Pool<R>)
    requires Refs(s)
    ensures var s' := PoolModel.Arrive(s);
            var w := |s.waiters|;
            var free := s.pending == [] && s.ready != [];
            && (s.closed || (!free && |s.pending| >= s.queueDepth) ==> s' == s && Admit(s) == if s.closed then PoolClosed else QueueFull)
            && (!s.closed && free ==>
                  && Admit(s) == Served && s'.pending == [] && s'.leases == s.leases + [LeaseRecord(s.ready[0], w, false)]
                  && s'.waiters == s.waiters + [Waiter(false, Nothing, Leased(|s.leases|))]
                  && s'.objs[s.ready[0]].inFlight == s.objs[s.ready[0]].inFlight + 1)
            && (!s.closed && !free && |s.pending| < s.queueDepth ==>
                  && Admit(s) == Queued && s'.pending == s.pending + [w] && s'.leases == s.leases && s'.objs == s.objs
                  && s'.waiters == s.waiters + [Waiter(false, Nothing, Blocked)])
  {
    if s.ready != [] { assert s.ready[0] in s.ready; }
  }

  // ----------------------------------------------------------------- membership

  /** Add refuses an instance without an id or an address, and a closed pool; otherwise the instance is a
      member with this target, and no other member changes. */
  lemma AddEffect<R>(s: Pool<R>, target: Sandbox, alloc: R)
    requires Refs(s) && alloc !in s.objs
    ensures var s', id := PoolModel.Add(s, target, alloc), target.instanceId;
            if id == 0 || target.address == "" || s.closed then s' == s
            else
              && s'.members == s.members[id := if id in s.members then s.members[id] else alloc]
              && s'.members[id] in s'.objs && s'.objs[s'.members[id]].target == target
              && (id !in s.members ==> !s'.objs[alloc].draining)
              && (forall r :: r in s.objs && (id in s.members ==> r != s.members[id]) ==>
                    r in s'.objs && s'.objs[r].target == s.objs[r].target && s'.objs[r].draining == s.objs[r].draining)
  {
    PutRefs(s, target, alloc);
    if target.instanceId !in s.members { DispatchFleet(Put(s, target, alloc)); }
  }

  lemma RemoveEffect<R>(s: Pool<R>, id: nat)
    requires Refs(s)
    ensures Forget(s, id).members == s.members - {id} && Forget(s, id).objs == s.objs && Forget(s, id).leases == s.leases
  {
    if id !in s.members { assert s.members - {id} == s.members; }
  }

  /** Of several targets with one id the last usable one is wanted; unusable ones never are. */
  lemma {:induction false} WantedIs(targets: seq<Sandbox>, id: nat)
    ensures id in Wanted(targets) <==> exists i :: 0 <= i < |targets| && targets[i].instanceId == id && id != 0 && targets[i].address != ""
    ensures id in Wanted(targets) ==>
              exists i :: && 0 <= i < |targets| && Wanted(targets)[id] == targets[i]
                          && forall j :: i < j < |targets| && targets[j].instanceId == id ==> targets[j].address == ""
  {
    if targets == [] {
    } else {
      var n := |targets| - 1;
      WantedIs(targets[..n], id);
      assert forall i :: 0 <= i < n ==> targets[..n][i] == targets[i];
      if id in Wanted(targets) && !(targets[n].instanceId == id && targets[n].address != "") {
        var i :| && 0 <= i < n && Wanted(targets[..n])[id] == targets[..n][i]
                 && forall j :: i < j < n && targets[..n][j].instanceId == id ==> targets[..n][j].address == "";
        assert Wanted(targets)[id] == targets[i];
      }
    }
  }

  lemma {:induction false} SyncDropEffect<R>(s: Pool<R>, wanted: map<nat, Sandbox>, ids: seq<nat>)
    requires Refs(s) && NoDup(ids)
    ensures var s' := SyncDrop(s, wanted, ids);
            && s'.objs == s.objs
            && (forall id :: id in s'.members <==>
                  id in s.members && (id !in ids || id in wanted || s.objs[s.members[id]].draining))
            && (forall id :: id in s'.members ==> s'.members[id] == s.members[id])
    decreases |ids|
  {
    if ids == [] {
    } else {
      ForgetRefs(s, ids[0]);
      var keep := ids[0] in wanted || (ids[0] in s.members && s.objs[s.members[ids[0]]].draining);
      var s1 := if keep then s else Forget(s, ids[0]);
      assert ids[0] !in ids[1..] && forall id :: id in ids <==> id == ids[0] || id in ids[1..];
      SyncDropEffect(s1, wanted, ids[1..]);
    }
  }

  /** Members are filed under their own ids. */
  ghost predicate Filed<R>(s: Pool<R>) {
    Refs(s) && forall id :: id in s.members ==> s.objs[s.members[id]].target.instanceId == id
  }

  lemma {:induction false} SyncPutEffect<R>(s: Pool<R>, wanted: map<nat, Sandbox>, allocs: map<nat, R>, ids: seq<nat>)
    requires Filed(s) && NoDup(ids) && forall id :: id in ids ==> id in wanted && wanted[id].instanceId == id && id in allocs
    requires Fresh(s, allocs, ids)
    ensures var s' := SyncPut(s, wanted, allocs, ids);
            && Filed(s') && (forall id :: id in s'.members <==> id in s.members || id in ids)
            && (forall id :: id in s.members ==> s'.members[id] == s.members[id])
            && (forall id :: id in ids ==> s'.objs[s'.members[id]].target == wanted[id])
            && (forall id :: id in s.members && id !in ids ==> s'.objs[s'.members[id]].target == s.objs[s.members[id]].target)
    decreases |ids|
  {
    if ids == [] {
    } else {
      var id := ids[0];
      assert id in ids && id !in ids[1..] && forall x :: x in ids <==> x == id || x in ids[1..];
      PutFiled(s, wanted[id], allocs[id]);
      StillFresh(s, wanted[id], allocs, ids);
      SyncPutEffect(Put(s, wanted[id], allocs[id]), wanted, allocs, ids[1..]);
    }
  }

  lemma StillFresh<R>(s: Pool<R>, target: Sandbox, allocs: map<nat, R>, ids: seq<nat>)
    requires Filed(s) && ids != [] && target.instanceId == ids[0] && (forall id :: id in ids ==> id in allocs) && Fresh(s, allocs, ids)
    ensures Fresh(Put(s, target, allocs[ids[0]]), allocs, ids[1..])
  {
    assert ids[0] in ids && forall x :: x in ids[1..] ==> x in ids;
  }

  lemma PutFiled<R>(s: Pool<R>, target: Sandbox, alloc: R)
    requires Filed(s) && (target.instanceId in s.members || alloc !in s.objs)
    ensures var s', id := Put(s, target, alloc), target.instanceId;
            && Filed(s') && s'.members == s.members[id := if id in s.members then s.members[id] else alloc]
            && s'.objs[s'.members[id]].target == target
            && (forall x :: x in s.members && x != id ==> s'.objs[s'.members[x]].target == s.objs[s.members[x]].target)
  {
    PutRefs(s, target, alloc);
  }

  /** After Sync the members of an open pool are exactly the wanted instances and the draining ones, and
      every wanted one has its new target. */
  lemma SyncEffect<R>(s: Pool<R>, targets: seq<Sandbox>, drop: seq<nat>, put: seq<nat>, allocs: map<nat, R>)
    requires Inv(s) && SyncArgs(s, targets, drop, put, allocs)
    ensures var s', wanted := PoolModel.Sync(s, targets, drop, put, allocs), Wanted(targets);
            if s.closed then s' == s
            else
              && (forall id :: id in s'.members <==> id in wanted || (id in s.members && s.objs[s.members[id]].draining))
              && (forall id :: id in s.members && id in s'.members ==> s'.members[id] == s.members[id])
              && (forall id :: id in wanted ==> s'.members[id] in s'.objs && s'.objs[s'.members[id]].target == wanted[id])
  {
    if !s.closed {
      var wanted := Wanted(targets);
      var s1 := SyncDrop(s, wanted, drop);
      SyncDropEffect(s, wanted, drop);
      SyncDropKeeps(s, wanted, drop);
      SyncPutEffect(s1, wanted, allocs, put);
      DispatchFleet(SyncPut(s1, wanted, allocs, put));
    }
  }

  // --------------------------------------------------------------------- drains

  /** Drain begins exactly on a member of an open pool that is not draining; the sandbox leaves the ready
      list, and its channel is closed at once exactly if it has no lease. */
  lemma DrainEffect<R>(s: Pool<R>, id: nat)
    requires Inv(s)
    ensures var s' := DrainBegin(s, id);
            if s.closed || id !in s.members || s.objs[s.members[id]].draining then s' == s && DrainAdmission(s, id) != Started
            else
              var r := s.members[id];
              && DrainAdmission(s, id) == Started && r in s'.objs && r !in s'.ready && s'.members == s.members
              && s'.objs[r].draining && s'.objs[r].session == Waiting && s'.objs[r].inFlight == s.objs[r].inFlight
              && s'.objs[r].drained == (if s.objs[r].inFlight == 0 then Closed else Open)
              && (forall x :: x in s.objs && x != r ==> x in s'.objs && s'.objs[x] == s.objs[x])
  {
    if !s.closed && id in s.members { WithoutMembers(s.ready, s.members[id]); }
  }

  /** finish(false) and an aborted drain admit the sandbox again, exactly if it is still the member it was. */
  lemma RestoreEffect<R>(s: Pool<R>, r: R)
    requires Inv(s) && r in s.objs
    ensures var s' := Restore(s, r);
            var id := s.objs[r].target.instanceId;
            && s'.members == s.members && r in s'.objs && s'.objs[r].session == NoSession
            && (s'.objs[r].draining <==> s.objs[r].draining && !(id in s.members && s.members[id] == r))
            && (id in s.members && s.members[id] == r && s.objs[r].draining ==> s'.objs[r].drained == NoChannel)
  {
    SessionInv(s, r, NoSession);
    if IsMember(s.members, s.objs, r) && s.objs[r].draining {
      var s0 := s.(objs := s.objs[r := s.objs[r].(session := NoSession)]);
      ReadmitOk(s0, r);
      DispatchFleet(Readmit(s0, r));
    }
  }

  /** finish(true) takes the sandbox out of the pool, exactly if it is still the member it was. */
  lemma FinishStoppedEffect<R>(s: Pool<R>, r: R)
    requires Inv(s) && r in s.objs
    ensures var s', id := FinishStopped(s, r), s.objs[r].target.instanceId;
            && r in s'.objs && s'.objs[r].session == NoSession
            && s'.members == (if id in s.members && s.members[id] == r && s.objs[r].draining then s.members - {id} else s.members)
  {
  }

  // ---------------------------------------------------------------------- calls

  /** A call that finds its grant takes the lease, unless its context is done: then it gives the lease
      back and fails, as it does on a failure. */
  lemma ReceiveEffect<R>(s: Pool<R>, w: nat)
    requires Inv(s) && w < |s.waiters| && s.waiters[w].phase == Blocked && s.waiters[w].sent != Nothing
    ensures Resolves(s)
    ensures var s', wt := PoolModel.Receive(s, w), s.waiters[w];
            && w < |s'.waiters|
            && s'.waiters[w].phase == (if wt.sent.Grant? && !wt.cancelled then Leased(wt.sent.lease) else Errored)
            && s'.completed == s.completed + (if wt.sent.Grant? && wt.cancelled then 1 else 0)
            && (wt.sent.Grant? ==> wt.sent.lease < |s'.leases| && s'.leases[wt.sent.lease].released == wt.cancelled)
  {
    InvResolves(s);
    assert WaiterOk(w, s.waiters[w], w in s.pending, s.leases);
    if s.waiters[w].sent.Grant? && s.waiters[w].cancelled { ReturnEffect(s, w); }
  }

  /** A call whose context is done leaves the queue, or gives back what was already sent to it. */
  lemma WithdrawEffect<R>(s: Pool<R>, w: nat)
    requires Inv(s) && w < |s.waiters| && s.waiters[w].phase == Blocked
    ensures Resolves(s)
    ensures var s', wt := PoolModel.Withdraw(s, w), s.waiters[w];
            && w < |s'.waiters| && s'.waiters[w].phase == Errored && w !in s'.pending
            && s'.completed == s.completed + (if wt.sent.Grant? then 1 else 0)
            && (wt.sent.Grant? ==> wt.sent.lease < |s'.leases| && s'.leases[wt.sent.lease].released)
  {
    InvResolves(s);
    assert WaiterOk(w, s.waiters[w], w in s.pending, s.leases);
    if w in s.pending {
      WithoutIncreasing(s.pending, w);
    } else {
      WithdrawMoves(s, w);
      if s.waiters[w].sent.Grant? { ReturnEffect(s, w); }
    }
  }

  lemma ReturnEffect<R>(s: Pool<R>, w: nat)
    requires Inv(s) && w < |s.waiters| && s.waiters[w].phase == Blocked && s.waiters[w].sent.Grant?
    ensures Resolves(s)
    ensures var s' := PoolModel.Release(s.(waiters := s.waiters[w := s.waiters[w].(phase := Errored)]), s.waiters[w].sent.lease);
            && w < |s'.waiters| && s'.waiters[w].phase == Errored && s'.completed == s.completed + 1
            && s.waiters[w].sent.lease < |s'.leases| && s'.leases[s.waiters[w].sent.lease].released
  {
    InvResolves(s);
    var s1 := s.(waiters := s.waiters[w := s.waiters[w].(phase := Errored)]);
    ReceivedLease(s, w);
    assert w !in s.pending by { assert WaiterOk(w, s.waiters[w], w in s.pending, s.leases); }
    ReturnInv(s, w, Errored);
    ReleaseEffect(s1, s.waiters[w].sent.lease);
  }

  /** A release ends just this lease. */
  lemma ReleaseEffect<R>(s: Pool<R>, k: nat)
    requires Inv(s) && k < |s.leases| && !s.leases[k].released
    ensures s.leases[k].sandbox in s.objs
    ensures var s' := PoolModel.Release(s, k);
            && s'.completed == s.completed + 1 && |s.leases| <= |s'.leases| && s'.leases[k] == s.leases[k].(released := true)
            && (forall j :: 0 <= j < |s.leases| && j != k ==> s'.leases[j] == s.leases[j])
            && |s'.waiters| == |s.waiters| && forall w :: 0 <= w < |s.waiters| ==> s'.waiters[w].phase == s.waiters[w].phase
  {
    var r := s.leases[k].sandbox;
    CountedRelease(s.objs, s.leases, s.executing, s.accepted, s.completed, k, s.objs[r]);
    var s1 := EndLease(s, k);
    if !s.closed && !s.objs[r].draining && IsMember(s.members, s.objs, r) {
      DispatchEnds(s1.(ready := Refresh(s1, r)));
    }
  }

  lemma {:induction false} FailAllEffect<R>(s: Pool<R>)
    requires Unsent(s.pending, s.waiters)
    ensures var s' := FailAll(s);
            && s'.pending == [] && s'.closed == s.closed && s'.leases == s.leases && |s'.waiters| == |s.waiters|
            && forall w :: 0 <= w < |s.waiters| ==> s'.waiters[w] == if w in s.pending then s.waiters[w].(sent := Fail) else s.waiters[w]
    decreases |s.pending|
  {
    if s.pending == [] {
    } else {
      assert forall w :: w in s.pending <==> w == s.pending[0] || w in s.pending[1..];
      assert s.pending[0] !in s.pending[1..];
      FailAllEffect(FailFront(s));
    }
  }

  /** Close fails every queued call and nothing else. */
  lemma CloseEffect<R>(s: Pool<R>)
    requires Inv(s)
    ensures var s' := PoolModel.Close(s);
            && s'.closed && s'.pending == [] && s'.leases == s.leases && |s'.waiters| == |s.waiters|
            && forall w :: 0 <= w < |s.waiters| ==> s'.waiters[w] == if w in s.pending then s.waiters[w].(sent := Fail) else s.waiters[w]
  {
    if !s.closed {
      QueueUnsent(s.pending, s.waiters, s.leases);
      FailAllEffect(s.(closed := true, ready := []));
    }
  }

  // -------------------------------------------------------------------- results

  /** An operation that enters the dispatch loop ends with it, and has not touched the results before. */
  lemma EntryDispatches<R>(s: Pool<R>, op: Op<R>)
    requires Resolves(s) && Enabled(s, op)
    ensures var e := Entry(s, op);
            e.Some? ==> && Apply(s, op) == Dispatch(e.value) && |e.value.waiters| == |s.waiters|
                        && forall w :: 0 <= w < |s.waiters| ==> e.value.waiters[w] == s.waiters[w].(phase := e.value.waiters[w].phase)
  {
    if op.Sync? && !s.closed {
      var wanted := Wanted(op.targets);
      SyncDropKeeps(s, wanted, op.drop);
      SyncPutKeeps(SyncDrop(s, wanted, op.drop), wanted, op.allocs, op.put);
    }
  }

  /** Which result a step sends to a waiting call. */
  ghost predicate Fits(wt: Waiter, closing: bool, result: Result) {
    wt.sent == Nothing && result != Nothing && (result == Fail <==> wt.cancelled || closing)
  }

  /** The record of call `w` after a step: its context is done if the step said so or it was before. */
  ghost predicate Keeps<R>(s: Pool<R>, s': Pool<R>, w: nat, cancel: bool)
    requires w < |s.waiters|
  {
    w < |s'.waiters| && s'.waiters[w].cancelled == (s.waiters[w].cancelled || cancel)
  }

  lemma StepResults<R>(s: Pool<R>, op: Op<R>, w: nat)
    requires Inv(s) && Enabled(s, op) && w < |s.waiters|
    ensures Resolves(s) && Keeps(s, Apply(s, op), w, op == CancelContext(w))
    ensures Apply(s, op).waiters[w].sent == s.waiters[w].sent || Fits(s.waiters[w], op.Close?, Apply(s, op).waiters[w].sent)
  {
    InvResolves(s);
    EntryDispatches(s, op);
    var e := Entry(s, op);
    if e.Some? {
      DispatchResults(s, e.value, w);
    } else if op.Close? {
      CloseEffect(s);
      assert WaiterOk(w, s.waiters[w], w in s.pending, s.leases);
    } else {
      QuietResults(s, op, w);
    }
  }

  lemma QuietResults<R>(s: Pool<R>, op: Op<R>, w: nat)
    requires Resolves(s) && Enabled(s, op) && w < |s.waiters| && Entry(s, op) == None && !op.Close?
    ensures Keeps(s, Apply(s, op), w, op == CancelContext(w)) && Apply(s, op).waiters[w].sent == s.waiters[w].sent
  {
    if op.Receive? {
      ReceiveResults(s, op, w);
    } else if op.Withdraw? {
      WithdrawResults(s, op, w);
    } else if op.Release? {
      ReleaseResults(s, op, w);
    }
  }

  lemma ReceiveResults<R>(s: Pool<R>, op: Op<R>, w: nat)
    requires Resolves(s) && Enabled(s, op) && w < |s.waiters| && Entry(s, op) == None && op.Receive?
    ensures Keeps(s, Apply(s, op), w, false) && Apply(s, op).waiters[w].sent == s.waiters[w].sent
  {
  }

  lemma WithdrawResults<R>(s: Pool<R>, op: Op<R>, w: nat)
    requires Resolves(s) && Enabled(s, op) && w < |s.waiters| && Entry(s, op) == None && op.Withdraw?
    ensures Keeps(s, Apply(s, op), w, false) && Apply(s, op).waiters[w].sent == s.waiters[w].sent
  {
  }

  lemma ReleaseResults<R>(s: Pool<R>, op: Op<R>, w: nat)
    requires Resolves(s) && Enabled(s, op) && w < |s.waiters| && Entry(s, op) == None && op.Release?
    ensures Keeps(s, Apply(s, op), w, false) && Apply(s, op).waiters[w].sent == s.waiters[w].sent
  {
  }

  lemma DispatchResults<R>(s: Pool<R>, e: Pool<R>, w: nat)
    requires Refs(e) && w < |s.waiters| == |e.waiters| && e.waiters[w] == s.waiters[w].(phase := e.waiters[w].phase)
    ensures var s' := Dispatch(e);
            Keeps(s, s', w, false) && (s'.waiters[w].sent == s.waiters[w].sent || Fits(s.waiters[w], false, s'.waiters[w].sent))
  {
    DispatchEnds(e);
  }

  /** In every run a waiting call is failed exactly if its context is done or the pool closes, and
      otherwise granted. */
  lemma ResultsFit<R>(limit: int, depth: int, ops: seq<Op<R>>, trace: seq<System<R>>, i: nat, w: nat)
    requires IsRun(limit, depth, ops, trace) && i < |ops| && w < |trace[i].pool.waiters|
    ensures w < |trace[i + 1].pool.waiters|
    ensures var wt, result := trace[i].pool.waiters[w], trace[i + 1].pool.waiters[w].sent;
            result != wt.sent ==> wt.sent == Nothing && (result == Fail <==> wt.cancelled || ops[i].Close?)
  {
    RunInv(limit, depth, ops, trace, i);
    assert Stepped(ops, trace, i);
    StepResults(trace[i].pool, ops[i], w);
  }

  /** Only an arrival adds a call, and its context is not done then. */
  lemma StepArrives<R>(s: Pool<R>, op: Op<R>)
    requires Inv(s) && Enabled(s, op)
    ensures Resolves(s)
    ensures var added := Apply(s, op).waiters;
            |added| <= |s.waiters| || (|added| == |s.waiters| + 1 && op.Arrive? && !added[|s.waiters|].cancelled)
  {
    InvResolves(s);
    EntryDispatches(s, op);
    var e := Entry(s, op);
    if e.Some? {
      DispatchEnds(e.value);
    } else if op.Close? {
      CloseEffect(s);
    } else if op.Arrive? {
      ArriveEffect(s);
    } else {
      QuietSize(s, op);
    }
  }

  lemma QuietSize<R>(s: Pool<R>, op: Op<R>)
    requires Resolves(s) && Enabled(s, op) && Entry(s, op) == None && !op.Close? && !op.Arrive?
    ensures |Apply(s, op).waiters| == |s.waiters|
  {
    if op.Receive? {
      ReceiveSize(s, op);
    } else if op.Withdraw? {
      WithdrawSize(s, op);
    } else if op.Release? {
      ReleaseSize(s, op);
    }
  }

  lemma ReceiveSize<R>(s: Pool<R>, op: Op<R>)
    requires Resolves(s) && Enabled(s, op) && Entry(s, op) == None && op.Receive?
    ensures |Apply(s, op).waiters| == |s.waiters|
  {
  }

  lemma WithdrawSize<R>(s: Pool<R>, op: Op<R>)
    requires Resolves(s) && Enabled(s, op) && Entry(s, op) == None && op.Withdraw?
    ensures |Apply(s, op).waiters| == |s.waiters|
  {
  }

  lemma ReleaseSize<R>(s: Pool<R>, op: Op<R>)
    requires Resolves(s) && Enabled(s, op) && Entry(s, op) == None && op.Release?
    ensures |Apply(s, op).waiters| == |s.waiters|
  {
  }

  ghost predicate Cancels<R>(ops: seq<Op<R>>, k: nat, w: nat) { k < |ops| && ops[k] == CancelContext(w) }

  /** A call is not cancelled before it comes. */
  lemma NotCancelledBefore<R>(limit: int, depth: int, ops: seq<Op<R>>, trace: seq<System<R>>, k: nat, i: nat, w: nat)
    requires IsRun(limit, depth, ops, trace) && k <= i < |ops| && w >= |trace[i].pool.waiters|
    ensures !Cancels(ops, k, w)
  {
    RunEvolves(limit, depth, ops, trace, k, i);
    StepAt(limit, depth, ops, trace, k);
  }

  /** In every run the context of a call is done exactly if it has been cancelled since the call came. */
  lemma {:induction false} DoneIfCancelled<R>(limit: int, depth: int, ops: seq<Op<R>>, trace: seq<System<R>>, i: nat, w: nat)
    requires IsRun(limit, depth, ops, trace) && i < |trace| && w < |trace[i].pool.waiters|
    ensures trace[i].pool.waiters[w].cancelled <==> exists k :: 0 <= k < i && Cancels(ops, k, w)
  {
    if i == 0 {
    } else if w < |trace[i - 1].pool.waiters| {
      DoneIfCancelled(limit, depth, ops, trace, i - 1, w);
      DoneStep(limit, depth, ops, trace, i - 1, w);
      assert (exists k :: 0 <= k < i && Cancels(ops, k, w)) <==> (exists k :: 0 <= k < i - 1 && Cancels(ops, k, w)) || Cancels(ops, i - 1, w);
    } else {
      DoneStep(limit, depth, ops, trace, i - 1, w);
      forall k | 0 <= k < i ensures !Cancels(ops, k, w) { NotCancelledBefore(limit, depth, ops, trace, k, i - 1, w); }
    }
  }

  lemma DoneStep<R>(limit: int, depth: int, ops: seq<Op<R>>, trace: seq<System<R>>, i: nat, w: nat)
    requires IsRun(limit, depth, ops, trace) && i < |ops| && w < |trace[i + 1].pool.waiters|
    ensures var s, s' := trace[i].pool, trace[i + 1].pool;
            s'.waiters[w].cancelled <==> w < |s.waiters| && (s.waiters[w].cancelled || Cancels(ops, i, w))
  {
    RunInv(limit, depth, ops, trace, i);
    assert Stepped(ops, trace, i);
    if w < |trace[i].pool.waiters| { StepResults(trace[i].pool, ops[i], w); } else { StepArrives(trace[i].pool, ops[i]); }
  }
}
