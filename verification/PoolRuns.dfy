/** Whole runs of the admission pool: any interleaving of its critical sections. */
module PoolRuns {
  import opened Options
  import opened PoolModel
  import opened PoolProofs

  datatype Op<R> =
    | Configure(limit: int, depth: int, ids: seq<nat>)
    | Add(target: Sandbox, alloc: R)
    | Sync(targets: seq<Sandbox>, drop: seq<nat>, put: seq<nat>, allocs: map<nat, R>)
    | Remove(id: nat)
    | Drain(id: nat)
    | DrainReturn(r: R)
    | DrainAbort(r: R)
    | Finish(r: R, stopped: bool)
    | Arrive
    | CancelContext(w: nat)
    | Receive(w: nat)
    | Withdraw(w: nat)
    | Release(w: nat)
    | TakeHighWater
    | Close

  /** The pool and, as history, two maxima since the last take: the demand, executing + queued,
      and the demand at which the dispatch loop granted a queued call (-1 if it granted none). */
  datatype System<R> = System(pool: Pool<R>, peak: int, grantPeak: int)

  ghost function Initial<R>(limit: int, depth: int): System<R> {
    System(Pool(NormalizeLimit(limit), NormalizeDepth(depth), map[], map[], [], [], [], [], 0, 0, 0, 0, 0, false, false), 0, -1)
  }

  ghost function Demand<R>(s: Pool<R>): int { s.executing + |s.pending| }

  /** Every reference and every lease held by a call resolves. */
  ghost predicate Resolves<R>(s: Pool<R>) {
    && Refs(s)
    && (forall w :: 0 <= w < |s.waiters| && s.waiters[w].sent.Grant? && s.waiters[w].phase == Blocked ==>
          s.waiters[w].sent.lease < |s.leases| && s.leases[s.waiters[w].sent.lease].sandbox in s.objs)
    && (forall w :: 0 <= w < |s.waiters| && s.waiters[w].phase.Leased? ==>
          s.waiters[w].phase.lease < |s.leases| && s.leases[s.waiters[w].phase.lease].sandbox in s.objs)
  }

  /** When an operation may be called, or a blocked goroutine may proceed. */
  ghost predicate Enabled<R>(s: Pool<R>, op: Op<R>) {
    match op
    case Configure(_, _, ids) => MemberIds(s, ids)
    case Add(_, alloc) => alloc !in s.objs
    case Sync(targets, drop, put, allocs) => SyncArgs(s, targets, drop, put, allocs)
    case DrainReturn(r) => r in s.objs && s.objs[r].session == Waiting && s.objs[r].drained == Closed
    case DrainAbort(r) => r in s.objs && s.objs[r].session == Waiting
    case Finish(r, _) => r in s.objs && s.objs[r].session == Returned
    case CancelContext(w) => w < |s.waiters|
    case Receive(w) => w < |s.waiters| && s.waiters[w].phase == Blocked && s.waiters[w].sent != Nothing
    case Withdraw(w) => w < |s.waiters| && s.waiters[w].phase == Blocked && s.waiters[w].cancelled
    case Release(w) => w < |s.waiters| && s.waiters[w].phase.Leased?
    case _ => true
  }

  ghost function Apply<R>(s: Pool<R>, op: Op<R>): Pool<R>
    requires Resolves(s) && Enabled(s, op)
  {
    match op
    case Configure(limit, depth, ids) => PoolModel.Configure(s, limit, depth, ids)
    case Add(target, alloc) => PoolModel.Add(s, target, alloc)
    case Sync(targets, drop, put, allocs) => PoolModel.Sync(s, targets, drop, put, allocs)
    case Remove(id) => Forget(s, id)
    case Drain(id) => DrainBegin(s, id)
    case DrainReturn(r) => PoolModel.DrainReturn(s, r)
    case DrainAbort(r) => Restore(s, r)
    case Finish(r, stopped) => if stopped then FinishStopped(s, r) else Restore(s, r)
    case Arrive => PoolModel.Arrive(s)
    case CancelContext(w) => s.(waiters := s.waiters[w := s.waiters[w].(cancelled := true)])
    case Receive(w) => PoolModel.Receive(s, w)
    case Withdraw(w) => PoolModel.Withdraw(s, w)
    case Release(w) =>
      // Lease.Release: only the first call flips the flag.
      var k := s.waiters[w].phase.lease;
      if s.leases[k].released then s else PoolModel.Release(s, k)
    case TakeHighWater => PoolModel.TakeHighWater(s).0
    case Close => PoolModel.Close(s)
  }

  /** The demand at which the dispatch loop, entered in `s`, makes its first grant; -1 if it makes
      none. A grant leaves demand as it is and a failure lowers it, so the first is also the highest. */
  ghost function GrantDemand<R>(s: Pool<R>): (d: int)
    requires Refs(s)
    ensures d == -1 || d <= Demand(s)
    decreases |s.pending|
  {
    if s.pending == [] then -1
    else if s.waiters[s.pending[0]].cancelled then
      FrontRefs(s);
      GrantDemand(FailFront(s))
    else if s.ready == [] then -1
    else Demand(s)
  }

  ghost function RestoreEntry<R>(s: Pool<R>, r: R): (e: Option<Pool<R>>)
    requires Refs(s) && r in s.objs
    ensures e.Some? ==> Refs(e.value)
  {
    if !IsMember(s.members, s.objs, r) || !s.objs[r].draining then None
    else Some(Readmit(s.(objs := s.objs[r := s.objs[r].(session := NoSession)]), r))
  }

  ghost function ReleaseEntry<R>(s: Pool<R>, k: nat): (e: Option<Pool<R>>)
    requires Refs(s) && k < |s.leases| && s.leases[k].sandbox in s.objs
    ensures e.Some? ==> Refs(e.value)
  {
    var r := s.leases[k].sandbox;
    if s.objs[r].inFlight <= 0 || s.closed || s.objs[r].draining || !IsMember(s.members, s.objs, r) then None
    else
      var s1 := EndLease(s, k);
      Some(s1.(ready := Refresh(s1, r)))
  }

  /** The state in which an operation enters the dispatch loop, if it does. */
  ghost function Entry<R>(s: Pool<R>, op: Op<R>): (e: Option<Pool<R>>)
    requires Resolves(s) && Enabled(s, op)
    ensures e.Some? ==> Refs(e.value)
  {
    match op
    case Configure(limit, depth, ids) =>
      Some(RefreshAll(s.(limit := NormalizeLimit(limit), queueDepth := NormalizeDepth(depth)), ids))
    case Add(target, alloc) =>
      PutRefs(s, target, alloc);
      if Usable(target) && !s.closed && target.instanceId !in s.members then Some(Put(s, target, alloc)) else None
    case Sync(targets, drop, put, allocs) =>
      var wanted := Wanted(targets);
      if s.closed then None else Some(SyncPut(SyncDrop(s, wanted, drop), wanted, allocs, put))
    case DrainAbort(r) => RestoreEntry(s, r)
    case Finish(r, stopped) => if stopped then None else RestoreEntry(s, r)
    case Receive(w) =>
      var wt := s.waiters[w];
      if wt.sent.Grant? && wt.cancelled
      then ReleaseEntry(s.(waiters := s.waiters[w := wt.(phase := Errored)]), wt.sent.lease) else None
    case Withdraw(w) =>
      var wt := s.waiters[w];
      if w !in s.pending && wt.sent.Grant?
      then ReleaseEntry(s.(waiters := s.waiters[w := wt.(phase := Errored)]), wt.sent.lease) else None
    case Release(w) =>
      var k := s.waiters[w].phase.lease;
      if s.leases[k].released then None else ReleaseEntry(s, k)
    case _ => None
  }

  ghost function GrantedFrom<R>(e: Option<Pool<R>>): int
    requires e.Some? ==> Refs(e.value)
  {
    if e.Some? then GrantDemand(e.value) else -1
  }

  /** The largest demand at which an operation grants a queued call; -1 if it grants none. */
  ghost function Granted<R>(s: Pool<R>, op: Op<R>): int
    requires Resolves(s) && Enabled(s, op)
  {
    GrantedFrom(Entry(s, op))
  }

  ghost function Step<R>(s: System<R>, op: Op<R>): System<R>
    requires Resolves(s.pool) && Enabled(s.pool, op)
  {
    var p := Apply(s.pool, op);
    if op.TakeHighWater? then System(p, Demand(p), -1)
    else System(p, Max(s.peak, Demand(p)), Max(s.grantPeak, Granted(s.pool, op)))
  }

  ghost predicate Stepped<R>(ops: seq<Op<R>>, trace: seq<System<R>>, i: nat)
    requires i < |ops| && |trace| == |ops| + 1
  {
    Resolves(trace[i].pool) && Enabled(trace[i].pool, ops[i]) && trace[i + 1] == Step(trace[i], ops[i])
  }

  /** A run: the initial state, and one enabled operation between any two neighbours. */
  ghost predicate IsRun<R>(limit: int, depth: int, ops: seq<Op<R>>, trace: seq<System<R>>) {
    |trace| == |ops| + 1 && trace[0] == Initial(limit, depth) && forall i :: 0 <= i < |ops| ==> Stepped(ops, trace, i)
  }

  // -------------------------------------------------------- one step

  lemma InvResolves<R>(s: Pool<R>)
    requires Inv(s)
    ensures Resolves(s)
  {
    forall w | 0 <= w < |s.waiters| ensures WaiterOk(w, s.waiters[w], w in s.pending, s.leases) {}
  }

  lemma LeasedOwner<R>(s: Pool<R>, w: nat)
    requires Inv(s) && w < |s.waiters| && s.waiters[w].phase.Leased?
    ensures s.waiters[w].phase.lease < |s.leases| && s.leases[s.waiters[w].phase.lease].owner == w
  {
    assert WaiterOk(w, s.waiters[w], w in s.pending, s.leases);
  }

  lemma StepInv<R>(s: Pool<R>, op: Op<R>)
    requires Inv(s) && Enabled(s, op)
    ensures Resolves(s) && Inv(Apply(s, op))
  {
    InvResolves(s);
    match op
    case Configure(limit, depth, ids) => ConfigureInv(s, limit, depth, ids);
    case Add(target, alloc) => AddInv(s, target, alloc);
    case Sync(targets, drop, put, allocs) => SyncInv(s, targets, drop, put, allocs);
    case Remove(id) => RemoveInv(s, id);
    case Drain(id) => DrainBeginInv(s, id);
    case DrainReturn(r) => SessionInv(s, r, Returned);
    case DrainAbort(r) => RestoreInv(s, r);
    case Finish(r, stopped) => if stopped { FinishStoppedInv(s, r); } else { RestoreInv(s, r); }
    case Arrive => ArriveInv(s);
    case CancelContext(w) => CancelInv(s, w);
    case Receive(w) => ReceiveInv(s, w);
    case Withdraw(w) => WithdrawInv(s, w);
    case Release(w) =>
      LeasedOwner(s, w);
      if !s.leases[s.waiters[w].phase.lease].released { ReleaseInv(s, s.waiters[w].phase.lease); }
    case TakeHighWater =>
    case Close => CloseInv(s);
  }

  /** What no step undoes: a result once sent stays sent, a call that left the queue
      never comes back, a returned call stays returned, and leases are only added. */
  ghost predicate Evolves<R>(s: Pool<R>, s': Pool<R>) {
    && |s.waiters| <= |s'.waiters|
    && (forall w :: 0 <= w < |s.waiters| && s.waiters[w].sent != Nothing ==> s'.waiters[w].sent == s.waiters[w].sent)
    && (forall w :: 0 <= w < |s.waiters| && s.waiters[w].phase != Blocked ==> s'.waiters[w].phase == s.waiters[w].phase)
    && (forall w :: 0 <= w < |s.waiters| && w in s'.pending ==> w in s.pending)
    && |s.leases| <= |s'.leases|
    && (s.closed ==> s'.closed && |s'.leases| == |s.leases|)
  }

  /** The high-water mark follows demand, overshooting it by at most one. */
  ghost predicate Watermark<R>(s: Pool<R>, s': Pool<R>) {
    && s.highWater <= s'.highWater <= Max(s.highWater, Max(Demand(s), Demand(s')) + 1)
    && Demand(s') <= Max(Demand(s), s'.highWater)
  }

  /** While a sandbox is draining it gets no lease, and a drain in progress goes on
      unless the goroutine driving it is the one that moves. */
  ghost predicate DrainQuiet<R>(s: Pool<R>, s': Pool<R>, driven: set<R>) {
    forall r :: r in s.objs ==>
      && r in s'.objs
      && (s.objs[r].draining && s'.objs[r].draining ==> s'.objs[r].inFlight <= s.objs[r].inFlight)
      && (s.objs[r].draining && s.objs[r].session != NoSession && r !in driven ==>
            s'.objs[r].draining && s'.objs[r].session == s.objs[r].session)
  }

  /** The sandbox whose draining goroutine takes the step. */
  ghost function Driven<R>(op: Op<R>): set<R> {
    if op.DrainReturn? || op.DrainAbort? || op.Finish? then {op.r} else {}
  }

  lemma EvolvesTrans<R>(s: Pool<R>, s1: Pool<R>, s2: Pool<R>)
    requires Evolves(s, s1) && Evolves(s1, s2)
    ensures Evolves(s, s2)
  {
  }

  /** The queued calls have empty channels. */
  ghost predicate Unsent(pending: seq<nat>, waiters: seq<Waiter>) {
    && NoDup(pending)
    && forall i :: 0 <= i < |pending| ==> pending[i] < |waiters| && waiters[pending[i]].sent == Nothing
  }

  lemma QueueUnsent<R>(pending: seq<nat>, waiters: seq<Waiter>, leases: seq<LeaseRecord<R>>)
    requires Queue(pending, waiters, leases)
    ensures Unsent(pending, waiters)
  {
    forall i | 0 <= i < |pending| ensures waiters[pending[i]].sent == Nothing {
      assert pending[i] in pending && WaiterOk(pending[i], waiters[pending[i]], true, leases);
    }
  }

  /** Steps of a dispatch: nothing comes back, and demand does not grow. */
  ghost predicate Advances<R>(s: Pool<R>, s': Pool<R>) {
    Evolves(s, s') && Watermark(s, s') && Demand(s') <= Demand(s)
  }

  lemma AdvancesTrans<R>(s: Pool<R>, s1: Pool<R>, s2: Pool<R>)
    requires Advances(s, s1) && Advances(s1, s2)
    ensures Advances(s, s2)
  {
    EvolvesTrans(s, s1, s2);
  }

  lemma FrontEvolves<R>(s: Pool<R>, s': Pool<R>)
    requires Refs(s) && Unsent(s.pending, s.waiters) && s.pending != [] && !s.closed
    requires s' == FailFront(s) || (s.ready != [] && s' == GrantFront(s))
    ensures Advances(s, s') && Unsent(s'.pending, s'.waiters) && !s'.closed
  {
    assert forall w :: w in s.pending[1..] ==> w in s.pending;
  }

  lemma {:induction false} DispatchEvolves<R>(s: Pool<R>)
    requires Refs(s) && Unsent(s.pending, s.waiters) && !s.closed
    ensures Advances(s, Dispatch(s))
    decreases |s.pending|
  {
    if s.pending == [] || (!s.waiters[s.pending[0]].cancelled && s.ready == []) {
    } else {
      var s1 := if s.waiters[s.pending[0]].cancelled then FailFront(s) else GrantFront(s);
      FrontRefs(s);
      FrontEvolves(s, s1);
      DispatchEvolves(s1);
      AdvancesTrans(s, s1, Dispatch(s1));
      assert Dispatch(s) == Dispatch(s1);
    }
  }

  ghost predicate NoneDraining<R>(s: Pool<R>) {
    forall r :: r in s.ready && r in s.objs ==> !s.objs[r].draining
  }

  lemma FrontQuiet<R>(s: Pool<R>, s': Pool<R>)
    requires Refs(s) && NoneDraining(s) && s.pending != []
    requires s' == FailFront(s) || (s.ready != [] && s' == GrantFront(s))
    ensures NoneDraining(s') && s'.objs.Keys == s.objs.Keys
    ensures forall r :: r in s.objs && (s.objs[r].draining || s'.objs[r].draining) ==> s'.objs[r] == s.objs[r]
  {
    if s.ready != [] { assert s.ready[0] in s.ready; }
  }

  lemma {:induction false} DispatchQuiet<R>(s: Pool<R>)
    requires Refs(s) && NoneDraining(s)
    ensures var s' := Dispatch(s);
            s'.objs.Keys == s.objs.Keys && forall r :: r in s.objs && (s.objs[r].draining || s'.objs[r].draining) ==> s'.objs[r] == s.objs[r]
    decreases |s.pending|
  {
    if s.pending == [] || (!s.waiters[s.pending[0]].cancelled && s.ready == []) {
    } else {
      var s1 := if s.waiters[s.pending[0]].cancelled then FailFront(s) else GrantFront(s);
      FrontRefs(s);
      FrontQuiet(s, s1);
      DispatchQuiet(s1);
    }
  }

  /** The state handed to dispatch at the end of a critical section. */
  ghost predicate Prepared<R>(s: Pool<R>, s1: Pool<R>) {
    && s1.waiters == s.waiters && s1.pending == s.pending && s1.highWater == s.highWater && s1.closed == s.closed
    && |s1.leases| == |s.leases| && s1.executing <= s.executing
  }

  lemma DispatchAfter<R>(s: Pool<R>, s1: Pool<R>)
    requires Inv(s) && Prepared(s, s1) && Refs(s1)
    ensures Evolves(s, Dispatch(s1)) && Watermark(s, Dispatch(s1))
  {
    if !s.closed {
      QueueUnsent(s.pending, s.waiters, s.leases);
      DispatchEvolves(s1);
      EvolvesTrans(s, s1, Dispatch(s1));
    }
  }

  lemma DispatchAfterQuiet<R>(s: Pool<R>, s1: Pool<R>, driven: set<R>)
    requires Inv(s) && Prepared(s, s1) && Refs(s1) && DrainQuiet(s, s1, driven)
    requires Fleet(s1.members, s1.objs, s1.ready, s1.closed)
    ensures DrainQuiet(s, Dispatch(s1), driven)
  {
    if !s.closed {
      DispatchQuiet(s1);
    }
  }

  ghost predicate Moves<R>(s: Pool<R>, s': Pool<R>, driven: set<R>) {
    Evolves(s, s') && Watermark(s, s') && DrainQuiet(s, s', driven)
  }

  lemma DispatchMoves<R>(s: Pool<R>, s1: Pool<R>, driven: set<R>)
    requires Inv(s) && Prepared(s, s1) && DrainQuiet(s, s1, driven)
    requires Core(s1)
    ensures Refs(s1) && Moves(s, Dispatch(s1), driven)
  {
    DispatchAfter(s, s1);
    DispatchAfterQuiet(s, s1, driven);
  }

  lemma ConfigureMoves<R>(s: Pool<R>, limit: int, depth: int, ids: seq<nat>)
    requires Inv(s) && MemberIds(s, ids)
    ensures Moves(s, PoolModel.Configure(s, limit, depth, ids), {})
  {
    var s0 := s.(limit := NormalizeLimit(limit), queueDepth := NormalizeDepth(depth));
    RefreshAllOk(s0, ids);
    DispatchMoves(s, RefreshAll(s0, ids), {});
  }

  lemma PreparedMoves<R>(s: Pool<R>, s1: Pool<R>, driven: set<R>)
    requires Prepared(s, s1) && DrainQuiet(s, s1, driven)
    ensures Moves(s, s1, driven)
  {
  }

  lemma PutPrepares<R>(s: Pool<R>, target: Sandbox, alloc: R)
    requires Refs(s) && (target.instanceId in s.members || alloc !in s.objs)
    ensures Prepared(s, Put(s, target, alloc)) && DrainQuiet(s, Put(s, target, alloc), {})
  {
  }

  lemma AddMoves<R>(s: Pool<R>, target: Sandbox, alloc: R)
    requires Inv(s) && alloc !in s.objs
    ensures Moves(s, PoolModel.Add(s, target, alloc), {})
  {
    if Usable(target) && !s.closed {
      PutPrepares(s, target, alloc);
      if target.instanceId in s.members {
        PreparedMoves(s, Put(s, target, alloc), {});
      } else {
        PutNew(s, target, alloc);
        DispatchMoves(s, Put(s, target, alloc), {});
      }
    } else {
      PreparedMoves(s, s, {});
    }
  }

  lemma {:induction false} SyncPutPrepares<R>(s: Pool<R>, wanted: map<nat, Sandbox>, allocs: map<nat, R>, ids: seq<nat>)
    requires Refs(s) && NoDup(ids) && forall id :: id in ids ==> id in wanted && wanted[id].instanceId == id && id in allocs
    requires Fresh(s, allocs, ids)
    ensures var s' := SyncPut(s, wanted, allocs, ids);
            Prepared(s, s') && DrainQuiet(s, s', {})
    decreases |ids|
  {
    if ids == [] {
    } else {
      assert ids[0] in ids && ids[0] !in ids[1..];
      PutRefs(s, wanted[ids[0]], allocs[ids[0]]);
      PutPrepares(s, wanted[ids[0]], allocs[ids[0]]);
      SyncPutPrepares(Put(s, wanted[ids[0]], allocs[ids[0]]), wanted, allocs, ids[1..]);
    }
  }

  lemma {:induction false} SyncDropPrepares<R>(s: Pool<R>, wanted: map<nat, Sandbox>, ids: seq<nat>)
    requires Refs(s)
    ensures var s' := SyncDrop(s, wanted, ids);
            Prepared(s, s') && s'.objs == s.objs
    decreases |ids|
  {
    if ids == [] {
    } else {
      ForgetRefs(s, ids[0]);
      var keep := ids[0] in wanted || (ids[0] in s.members && s.objs[s.members[ids[0]]].draining);
      SyncDropPrepares(if keep then s else Forget(s, ids[0]), wanted, ids[1..]);
    }
  }

  lemma SyncMoves<R>(s: Pool<R>, targets: seq<Sandbox>, drop: seq<nat>, put: seq<nat>, allocs: map<nat, R>)
    requires Inv(s) && SyncArgs(s, targets, drop, put, allocs)
    ensures Moves(s, PoolModel.Sync(s, targets, drop, put, allocs), {})
  {
    if !s.closed {
      var wanted := Wanted(targets);
      var s1 := SyncDrop(s, wanted, drop);
      SyncDropOk(s, wanted, drop);
      SyncDropKeeps(s, wanted, drop);
      SyncDropPrepares(s, wanted, drop);
      SyncPutOk(s1, wanted, allocs, put);
      SyncPutPrepares(s1, wanted, allocs, put);
      DispatchMoves(s, SyncPut(s1, wanted, allocs, put), {});
    }
  }

  lemma RestoreMoves<R>(s: Pool<R>, r: R)
    requires Inv(s) && r in s.objs
    ensures Moves(s, Restore(s, r), {r})
  {
    SessionInv(s, r, NoSession);
    if IsMember(s.members, s.objs, r) && s.objs[r].draining {
      var s0 := s.(objs := s.objs[r := s.objs[r].(session := NoSession)]);
      ReadmitOk(s0, r);
      ReadmitPrepares(s, r);
      DispatchMoves(s, Readmit(s0, r), {r});
    } else {
      PreparedMoves(s, Restore(s, r), {r});
    }
  }

  lemma ReadmitPrepares<R>(s: Pool<R>, r: R)
    requires r in s.objs
    ensures var s0 := s.(objs := s.objs[r := s.objs[r].(session := NoSession)]);
            Prepared(s, Readmit(s0, r)) && DrainQuiet(s, Readmit(s0, r), {r})
  {
  }

  lemma EndLeaseMoves<R>(s: Pool<R>, k: nat)
    requires k < |s.leases| && s.leases[k].sandbox in s.objs
    ensures Moves(s, EndLease(s, k), {}) && Prepared(s, EndLease(s, k))
  {
  }

  lemma ReleaseMoves<R>(s: Pool<R>, k: nat)
    requires Inv(s) && k < |s.leases| && !s.leases[k].released
    requires s.leases[k].owner < |s.waiters| && s.waiters[s.leases[k].owner].phase != Blocked
    ensures s.leases[k].sandbox in s.objs && Moves(s, PoolModel.Release(s, k), {})
  {
    var r := s.leases[k].sandbox;
    CountedRelease(s.objs, s.leases, s.executing, s.accepted, s.completed, k, s.objs[r]);
    EndLeaseMoves(s, k);
    var s1 := EndLease(s, k);
    if !s.closed && Admissible(s.members, s.objs, r) {
      WithoutMembers(s.ready, r);
      EndLeaseOk(s, k, Refresh(s1, r));
      DispatchMoves(s, s1.(ready := Refresh(s1, r)), {});
    }
  }

  /** The call's own bookkeeping before a release. */
  lemma MovesAfter<R>(s: Pool<R>, s1: Pool<R>, s2: Pool<R>)
    requires Evolves(s, s1) && s1.objs == s.objs && s1.highWater == s.highWater && Demand(s1) <= Demand(s)
    requires Moves(s1, s2, {})
    ensures Moves(s, s2, {})
  {
    EvolvesTrans(s, s1, s2);
  }

  lemma ReturnReleaseMoves<R>(s: Pool<R>, w: nat)
    requires Inv(s) && w < |s.waiters| && s.waiters[w].phase == Blocked && s.waiters[w].sent.Grant?
    ensures Resolves(s)
    ensures var s1 := s.(waiters := s.waiters[w := s.waiters[w].(phase := Errored)]);
            Moves(s, PoolModel.Release(s1, s.waiters[w].sent.lease), {})
  {
    InvResolves(s);
    var s1 := s.(waiters := s.waiters[w := s.waiters[w].(phase := Errored)]);
    ReceivedLease(s, w);
    assert w !in s.pending by { assert WaiterOk(w, s.waiters[w], w in s.pending, s.leases); }
    ReturnInv(s, w, Errored);
    ReleaseMoves(s1, s.waiters[w].sent.lease);
    MovesAfter(s, s1, PoolModel.Release(s1, s.waiters[w].sent.lease));
  }

  lemma ReceiveMoves<R>(s: Pool<R>, w: nat)
    requires Inv(s) && w < |s.waiters| && s.waiters[w].phase == Blocked && s.waiters[w].sent != Nothing
    ensures Resolves(s) && Moves(s, PoolModel.Receive(s, w), {})
  {
    InvResolves(s);
    if s.waiters[w].sent.Grant? && s.waiters[w].cancelled { ReturnReleaseMoves(s, w); }
  }

  lemma WithdrawMoves<R>(s: Pool<R>, w: nat)
    requires Inv(s) && w < |s.waiters| && s.waiters[w].phase == Blocked
    ensures Resolves(s) && Moves(s, PoolModel.Withdraw(s, w), {})
  {
    InvResolves(s);
    if w in s.pending {
      var k := WithoutIsSlice(s.pending, w);
    } else if s.waiters[w].sent.Grant? {
      ReturnReleaseMoves(s, w);
    }
  }

  lemma {:induction false} FailAllMoves<R>(s: Pool<R>)
    requires Unsent(s.pending, s.waiters)
    ensures var s' := FailAll(s);
            Evolves(s, s') && s'.objs == s.objs && s'.highWater == s.highWater && Demand(s') <= Demand(s)
    decreases |s.pending|
  {
    if s.pending == [] {
    } else {
      assert forall w :: w in s.pending[1..] ==> w in s.pending;
      FailAllMoves(FailFront(s));
      EvolvesTrans(s, FailFront(s), FailAll(s));
    }
  }

  lemma CloseMoves<R>(s: Pool<R>)
    requires Inv(s)
    ensures Moves(s, PoolModel.Close(s), {})
  {
    if !s.closed {
      QueueUnsent(s.pending, s.waiters, s.leases);
      var s1 := s.(closed := true, ready := []);
      FailAllMoves(s1);
      EvolvesTrans(s, s1, FailAll(s1));
    }
  }

  lemma ArriveMoves<R>(s: Pool<R>)
    requires Inv(s)
    ensures Moves(s, PoolModel.Arrive(s), {})
  {
    match Admit(s)
    case Served =>
      assert s.ready[0] in s.ready;
      assert DrainQuiet(s, PoolModel.Arrive(s), {});
    case Queued => assert DrainQuiet(s, PoolModel.Arrive(s), {});
    case _ => PreparedMoves(s, s, {});
  }

  /** The operations that neither grant nor release. */
  lemma QuietMoves<R>(s: Pool<R>, op: Op<R>)
    requires Resolves(s) && Enabled(s, op)
    requires op.Remove? || op.Drain? || op.DrainReturn? || (op.Finish? && op.stopped) || op.CancelContext?
    ensures Moves(s, Apply(s, op), Driven(op))
  {
  }

  lemma ReleaseOpMoves<R>(s: Pool<R>, w: nat)
    requires Inv(s) && w < |s.waiters| && s.waiters[w].phase.Leased?
    ensures Resolves(s) && Moves(s, Apply(s, Release(w)), {})
  {
    InvResolves(s);
    LeasedOwner(s, w);
    if !s.leases[s.waiters[w].phase.lease].released { ReleaseMoves(s, s.waiters[w].phase.lease); }
  }

  /** The operations on the fleet that may admit a sandbox. */
  lemma FleetMoves<R>(s: Pool<R>, op: Op<R>)
    requires Inv(s) && Resolves(s) && Enabled(s, op)
    requires op.Configure? || op.Add? || op.Sync? || op.DrainAbort? || (op.Finish? && !op.stopped)
    ensures Moves(s, Apply(s, op), Driven(op))
  {
    match op
    case Configure(limit, depth, ids) => ConfigureMoves(s, limit, depth, ids);
    case Add(target, alloc) => AddMoves(s, target, alloc);
    case Sync(targets, drop, put, allocs) => SyncMoves(s, targets, drop, put, allocs);
    case DrainAbort(r) => RestoreMoves(s, r);
    case Finish(r, _) => RestoreMoves(s, r);
  }

  lemma StepMoves<R>(s: Pool<R>, op: Op<R>)
    requires Inv(s) && Enabled(s, op)
    ensures Resolves(s)
    ensures if op.TakeHighWater? then Apply(s, op) == s.(highWater := Demand(s)) else Moves(s, Apply(s, op), Driven(op))
  {
    InvResolves(s);
    match op
    case Configure(_, _, _) => FleetMoves(s, op);
    case Add(_, _) => FleetMoves(s, op);
    case Sync(_, _, _, _) => FleetMoves(s, op);
    case DrainAbort(_) => FleetMoves(s, op);
    case Finish(_, stopped) => if stopped { QuietMoves(s, op); } else { FleetMoves(s, op); }
    case Receive(w) => ReceiveMoves(s, w);
    case Withdraw(w) => WithdrawMoves(s, w);
    case Release(w) => ReleaseOpMoves(s, w);
    case Arrive => ArriveMoves(s);
    case Close => CloseMoves(s);
    case TakeHighWater =>
    case _ => QuietMoves(s, op);
  }

  lemma StepWatermark<R>(s: Pool<R>, op: Op<R>)
    requires Inv(s) && Enabled(s, op)
    ensures Resolves(s)
    ensures if op.TakeHighWater? then Apply(s, op) == s.(highWater := Demand(s)) else Watermark(s, Apply(s, op))
  {
    StepMoves(s, op);
  }

  // ---------------------------------------------------- the high-water mark

  /** A step that grants queued calls at demands of at most `granted`, once at just that demand. */
  ghost predicate Marks<R>(s: Pool<R>, granted: int, s': Pool<R>) {
    s'.highWater == Max(s.highWater, granted + 1)
  }

  /** A grant notes one more than the demand it runs at; a failed call notes nothing. */
  lemma FrontMark<R>(s: Pool<R>)
    requires Refs(s) && s.pending != []
    ensures FailFront(s).highWater == s.highWater && |FailFront(s).pending| == |s.pending| - 1
    ensures s.ready != [] ==> GrantFront(s).highWater == Max(s.highWater, Demand(s) + 1) 
    ensures s.ready != [] ==> Demand(GrantFront(s)) == Demand(s) && |GrantFront(s).pending| == |s.pending| - 1
  {
  }

  lemma {:induction false} DispatchMark<R>(s: Pool<R>)
    requires Refs(s) && s.highWater >= 0
    ensures Marks(s, GrantDemand(s), Dispatch(s))
    decreases |s.pending|
  {
    if s.pending == [] {
    } else if s.waiters[s.pending[0]].cancelled {
      FrontMark(s);
      FrontRefs(s);
      DispatchMark(FailFront(s));
    } else if s.ready == [] {
    } else {
      FrontMark(s);
      FrontRefs(s);
      DispatchMark(GrantFront(s));
      GrantMarks(s, Dispatch(GrantFront(s)));
    }
  }

  lemma GrantMarks<R>(s: Pool<R>, s': Pool<R>)
    requires Refs(s) && s.pending != [] && s.ready != [] && Refs(GrantFront(s)) && s.highWater >= 0
    requires Marks(GrantFront(s), GrantDemand(GrantFront(s)), s')
    ensures Marks(s, Demand(s), s')
  {
    FrontMark(s);
  }

  lemma EntryMarks<R>(s: Pool<R>, s1: Pool<R>)
    requires Refs(s1) && s1.highWater == s.highWater >= 0
    ensures Marks(s, GrantDemand(s1), Dispatch(s1))
  {
    DispatchMark(s1);
  }

  lemma SyncMarks<R>(s: Pool<R>, targets: seq<Sandbox>, drop: seq<nat>, put: seq<nat>, allocs: map<nat, R>)
    requires Resolves(s) && SyncArgs(s, targets, drop, put, allocs) && s.highWater >= 0
    ensures Marks(s, GrantedFrom(Entry(s, Sync(targets, drop, put, allocs))), PoolModel.Sync(s, targets, drop, put, allocs))
  {
    if !s.closed {
      var wanted := Wanted(targets);
      SyncDropKeeps(s, wanted, drop);
      SyncPutKeeps(SyncDrop(s, wanted, drop), wanted, allocs, put);
      EntryMarks(s, SyncPut(SyncDrop(s, wanted, drop), wanted, allocs, put));
    }
  }

  lemma AddMarks<R>(s: Pool<R>, target: Sandbox, alloc: R)
    requires Resolves(s) && alloc !in s.objs && s.highWater >= 0
    ensures Marks(s, GrantedFrom(Entry(s, Add(target, alloc))), PoolModel.Add(s, target, alloc))
  {
    PutRefs(s, target, alloc);
    if Usable(target) && !s.closed && target.instanceId !in s.members { EntryMarks(s, Put(s, target, alloc)); }
  }

  lemma RestoreMarks<R>(s: Pool<R>, r: R)
    requires Refs(s) && r in s.objs && s.highWater >= 0
    ensures Marks(s, GrantedFrom(RestoreEntry(s, r)), Restore(s, r))
  {
    var e := RestoreEntry(s, r);
    if e.Some? { EntryMarks(s, e.value); }
  }

  lemma ReleaseMarks<R>(s: Pool<R>, k: nat)
    requires Refs(s) && k < |s.leases| && s.leases[k].sandbox in s.objs && s.highWater >= 0
    ensures Marks(s, GrantedFrom(ReleaseEntry(s, k)), PoolModel.Release(s, k))
  {
    var e := ReleaseEntry(s, k);
    if e.Some? { EntryMarks(s, e.value); }
  }

  lemma ReceiveMarks<R>(s: Pool<R>, w: nat)
    requires Resolves(s) && Enabled(s, Receive(w)) && s.highWater >= 0
    ensures Marks(s, GrantedFrom(Entry(s, Receive(w))), PoolModel.Receive(s, w))
  {
    var wt := s.waiters[w];
    if wt.sent.Grant? && wt.cancelled { ReleaseMarks(s.(waiters := s.waiters[w := wt.(phase := Errored)]), wt.sent.lease); }
  }

  lemma WithdrawMarks<R>(s: Pool<R>, w: nat)
    requires Resolves(s) && Enabled(s, Withdraw(w)) && s.highWater >= 0
    ensures Marks(s, GrantedFrom(Entry(s, Withdraw(w))), PoolModel.Withdraw(s, w))
  {
    var wt := s.waiters[w];
    if w !in s.pending && wt.sent.Grant? {
      ReleaseMarks(s.(waiters := s.waiters[w := wt.(phase := Errored)]), wt.sent.lease);
    }
  }

  lemma ReleaseOpMarks<R>(s: Pool<R>, w: nat)
    requires Resolves(s) && Enabled(s, Release(w)) && s.highWater >= 0
    ensures Marks(s, GrantedFrom(Entry(s, Release(w))), Apply(s, Release(w)))
  {
    var k := s.waiters[w].phase.lease;
    if !s.leases[k].released { ReleaseMarks(s, k); }
  }

  lemma CloseMarks<R>(s: Pool<R>)
    requires Inv(s) && s.highWater >= 0
    ensures PoolModel.Close(s).highWater == s.highWater
  {
    if !s.closed {
      QueueUnsent(s.pending, s.waiters, s.leases);
      FailAllMoves(s.(closed := true, ready := []));
    }
  }

  lemma QuietMarks<R>(s: Pool<R>, op: Op<R>)
    requires Resolves(s) && Enabled(s, op)
    requires op.Remove? || op.Drain? || op.DrainReturn? || (op.Finish? && op.stopped) || op.CancelContext?
    ensures Apply(s, op).highWater == s.highWater
  {
  }

  /** Every operation but an arrival and a take raises the mark to one more than the demand of its
      highest grant. */
  lemma StepMarks<R>(s: Pool<R>, op: Op<R>)
    requires Inv(s) && Enabled(s, op) && s.highWater >= 0 && !op.TakeHighWater? && !op.Arrive?
    ensures Resolves(s) && Marks(s, GrantedFrom(Entry(s, op)), Apply(s, op))
  {
    InvResolves(s);
    match op
    case Configure(limit, depth, ids) =>
      EntryMarks(s, RefreshAll(s.(limit := NormalizeLimit(limit), queueDepth := NormalizeDepth(depth)), ids));
    case Add(target, alloc) => AddMarks(s, target, alloc);
    case Sync(targets, drop, put, allocs) => SyncMarks(s, targets, drop, put, allocs);
    case DrainAbort(r) => RestoreMarks(s, r);
    case Finish(r, stopped) => if stopped { QuietMarks(s, op); } else { RestoreMarks(s, r); }
    case Receive(w) => ReceiveMarks(s, w);
    case Withdraw(w) => WithdrawMarks(s, w);
    case Release(w) => ReleaseOpMarks(s, w);
    case Close => CloseMarks(s);
    case _ => QuietMarks(s, op);
  }

  /** An arrival that is served or queued notes the demand it causes. */
  lemma ArriveMarks<R>(s: Pool<R>)
    requires Refs(s)
    ensures var s' := PoolModel.Arrive(s);
            s'.highWater == Max(s.highWater, Demand(s')) || (s'.highWater == s.highWater && Demand(s') == Demand(s))
  {
  }

  // -------------------------------------------------------------------- runs

  /** The mark is the larger of the peak demand and one more than the peak demand of a grant. */
  ghost predicate MarkOk<R>(s: System<R>) {
    && Demand(s.pool) <= s.peak && 0 <= s.peak && -1 <= s.grantPeak <= s.peak
    && s.pool.highWater == Max(s.peak, s.grantPeak + 1)
  }

  ghost predicate SystemInv<R>(s: System<R>) {
    Inv(s.pool) && MarkOk(s)
  }

  lemma InitialInv<R>(limit: int, depth: int)
    ensures SystemInv(Initial<R>(limit, depth))
  {
    var s: Pool<R> := Initial<R>(limit, depth).pool;
    assert Outstanding(s.leases) == multiset{};
    assert ActiveSet(s.members, s.objs) == {};
  }

  /** The arithmetic of one step on the two maxima. */
  lemma MarkStep<R>(s: System<R>, p: Pool<R>, granted: int)
    requires MarkOk(s) && Watermark(s.pool, p)
    requires Marks(s.pool, granted, p) || (granted == -1 && p.highWater == Max(s.pool.highWater, Demand(p)))
    ensures MarkOk(System(p, Max(s.peak, Demand(p)), Max(s.grantPeak, granted)))
  {
  }

  lemma StepMarkOk<R>(s: System<R>, op: Op<R>)
    requires SystemInv(s) && Enabled(s.pool, op)
    ensures Resolves(s.pool) && MarkOk(Step(s, op))
  {
    StepWatermark(s.pool, op);
    if !op.TakeHighWater? {
      if op.Arrive? { ArriveMarks(s.pool); } else { StepMarks(s.pool, op); }
      MarkStep(s, Apply(s.pool, op), Granted(s.pool, op));
    }
  }

  lemma StepSystemInv<R>(s: System<R>, op: Op<R>)
    requires SystemInv(s) && Enabled(s.pool, op)
    ensures Resolves(s.pool) && SystemInv(Step(s, op))
  {
    StepInv(s.pool, op);
    StepMarkOk(s, op);
  }

  /** The invariant holds in every state of every run. */
  lemma {:induction false} RunInv<R>(limit: int, depth: int, ops: seq<Op<R>>, trace: seq<System<R>>, i: nat)
    requires IsRun(limit, depth, ops, trace) && i < |trace|
    ensures SystemInv(trace[i])
  {
    if i == 0 {
      InitialInv<R>(limit, depth);
    } else {
      RunInv(limit, depth, ops, trace, i - 1);
      assert Stepped(ops, trace, i - 1);
      StepSystemInv(trace[i - 1], ops[i - 1]);
    }
  }

  lemma StepEvolves<R>(s: System<R>, op: Op<R>)
    requires SystemInv(s) && Enabled(s.pool, op)
    ensures Resolves(s.pool) && Evolves(s.pool, Step(s, op).pool) && DrainQuiet(s.pool, Step(s, op).pool, Driven(op))
  {
    StepMoves(s.pool, op);
  }

  lemma StepAt<R>(limit: int, depth: int, ops: seq<Op<R>>, trace: seq<System<R>>, i: nat)
    requires IsRun(limit, depth, ops, trace) && i < |ops|
    ensures Enabled(trace[i].pool, ops[i]) && Evolves(trace[i].pool, trace[i + 1].pool)
    ensures DrainQuiet(trace[i].pool, trace[i + 1].pool, Driven(ops[i]))
  {
    RunInv(limit, depth, ops, trace, i);
    assert Stepped(ops, trace, i);
    StepEvolves(trace[i], ops[i]);
  }

  lemma {:induction false} RunEvolves<R>(limit: int, depth: int, ops: seq<Op<R>>, trace: seq<System<R>>, i: nat, j: nat)
    requires IsRun(limit, depth, ops, trace) && i <= j < |trace|
    ensures Evolves(trace[i].pool, trace[j].pool)
    decreases j - i
  {
    if i == j {
    } else {
      RunEvolves(limit, depth, ops, trace, i, j - 1);
      StepAt(limit, depth, ops, trace, j - 1);
      EvolvesTrans(trace[i].pool, trace[j - 1].pool, trace[j].pool);
    }
  }
}
