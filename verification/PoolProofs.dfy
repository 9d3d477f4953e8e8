/** What every critical section of the admission pool keeps. */
module PoolProofs {
  import opened PoolModel

  // ---------------------------------------------------------------- invariants

  ghost predicate Admissible<R>(members: map<nat, R>, objs: map<R, Record>, r: R)
    requires r in objs
  {
    IsMember(members, objs, r) && !objs[r].draining
  }

  /** Members are filed under their own id, and the ready list of an open pool is a
      duplicate-free list of admissible members. */
  ghost predicate Fleet<R>(members: map<nat, R>, objs: map<R, Record>, ready: seq<R>, closed: bool) {
    && (forall id :: id in members ==> members[id] in objs && objs[members[id]].target.instanceId == id)
    && (forall r :: r in ready ==> r in objs)
    && (!closed ==> NoDup(ready) && forall r :: r in ready ==> Admissible(members, objs, r))
  }

  ghost function ActiveSet<R>(members: map<nat, R>, objs: map<R, Record>): set<R> {
    set r | r in objs && Admissible(members, objs, r)
  }

  ghost predicate ExactAt<R>(members: map<nat, R>, objs: map<R, Record>, ready: seq<R>, limit: int, r: R)
    requires r in objs
  {
    r in ready <==> Admissible(members, objs, r) && objs[r].inFlight < limit
  }

  /** The ready list holds exactly the admissible sandboxes with a free slot. */
  ghost predicate Exact<R>(members: map<nat, R>, objs: map<R, Record>, ready: seq<R>, limit: int) {
    forall r :: r in objs ==> ExactAt(members, objs, ready, limit, r)
  }

  /** Lease conservation, over every sandbox ever added. */
  ghost predicate Counted<R>(objs: map<R, Record>, leases: seq<LeaseRecord<R>>, executing: int, accepted: int, completed: int) {
    && Held(objs, Outstanding(leases), executing)
    && (forall k :: 0 <= k < |leases| ==> leases[k].sandbox in objs)
    && accepted == |leases|
    && executing == accepted - completed
  }

  /** Every sandbox counts the outstanding leases on it. */
  ghost predicate Held<R>(objs: map<R, Record>, held: multiset<R>, executing: int) {
    && (forall r :: r in held ==> r in objs)
    && (forall r :: r in objs ==> objs[r].inFlight == held[r])
    && executing == |held|
  }

  ghost predicate DrainOk(o: Record, closed: bool) {
    && (o.draining <==> o.drained != NoChannel)
    && (o.drained == Closed ==> o.inFlight == 0)
    && (!closed && o.draining && o.inFlight == 0 ==> o.drained == Closed)
    && (o.session != NoSession ==> o.draining)
    && (o.session == Returned ==> o.drained == Closed)
  }

  ghost predicate Drained<R>(objs: map<R, Record>, closed: bool) {
    forall r :: r in objs ==> DrainOk(objs[r], closed)
  }

  ghost predicate WaiterOk<R>(w: nat, wt: Waiter, queued: bool, leases: seq<LeaseRecord<R>>) {
    && (queued ==> wt.phase == Blocked && wt.sent == Nothing)
    && (wt.phase == Blocked && !queued ==> wt.sent != Nothing)
    && (wt.phase == Blocked && wt.sent.Grant? ==>
          wt.sent.lease < |leases| && leases[wt.sent.lease].owner == w && !leases[wt.sent.lease].released)
    && (wt.phase.Leased? ==> wt.phase.lease < |leases| && leases[wt.phase.lease].owner == w)
  }

  /** Queue discipline, channels, and first-come-first-served order. */
  ghost predicate Queue<R>(pending: seq<nat>, waiters: seq<Waiter>, leases: seq<LeaseRecord<R>>) {
    && Increasing(pending)
    && (forall i :: 0 <= i < |pending| ==> pending[i] < |waiters|)
    && (forall w :: 0 <= w < |waiters| ==> WaiterOk(w, waiters[w], w in pending, leases))
    && (forall w, v :: w in pending && w < v < |waiters| ==> !waiters[v].Granted())
  }

  /** Holds at every point inside a critical section. */
  ghost predicate Core<R>(s: Pool<R>) {
    && Fleet(s.members, s.objs, s.ready, s.closed)
    && Counted(s.objs, s.leases, s.executing, s.accepted, s.completed)
    && s.active == |ActiveSet(s.members, s.objs)|
    && Drained(s.objs, s.closed)
    && Queue(s.pending, s.waiters, s.leases)
    && !s.fault
  }

  /** Holds in an open pool that is about to dispatch. */
  ghost predicate Serving<R>(s: Pool<R>) {
    Core(s) && !s.closed && Exact(s.members, s.objs, s.ready, s.limit)
  }

  /** Holds whenever the mutex is free. */
  ghost predicate Inv<R>(s: Pool<R>) {
    && Core(s)
    && (!s.closed ==> Serving(s) && (s.pending != [] ==> s.ready == []))
    && (s.closed ==> s.pending == [])
  }

  // --------------------------------------------------------- sandboxes and list

  lemma RefreshFleet<R>(s: Pool<R>, r: R)
    requires Fleet(s.members, s.objs, s.ready, s.closed) && r in s.objs && IsMember(s.members, s.objs, r)
    ensures Fleet(s.members, s.objs, Refresh(s, r), s.closed)
    ensures !s.closed ==> ExactAt(s.members, s.objs, Refresh(s, r), s.limit, r)
    ensures !s.closed ==> forall x :: x != r ==> (x in Refresh(s, r) <==> x in s.ready)
  {
    if !s.closed {
      WithoutMembers(s.ready, r);
    }
  }

  /** A change to one record that keeps its target. */
  lemma OneRecord<R>(members: map<nat, R>, objs: map<R, Record>, r: R, o: Record)
    requires forall id :: id in members ==> members[id] in objs && objs[members[id]].target.instanceId == id
    requires r in objs && o.target.instanceId == objs[r].target.instanceId
    ensures var objs' := objs[r := o];
            && (forall id :: id in members ==> members[id] in objs' && objs'[members[id]].target.instanceId == id)
            && (forall x :: x in objs && x != r ==> Admissible(members, objs', x) == Admissible(members, objs, x))
            && ActiveSet(members, objs') == if o.draining || !IsMember(members, objs, r) then ActiveSet(members, objs) - {r}
                                            else ActiveSet(members, objs) + {r}
  {
    var objs' := objs[r := o];
    forall x | x in objs ensures x != r ==> Admissible(members, objs', x) == Admissible(members, objs, x) {}
  }

  lemma OneRecordExact<R>(members: map<nat, R>, objs: map<R, Record>, ready: seq<R>, limit: int, r: R, o: Record, ready': seq<R>)
    requires Fleet(members, objs, ready, false) && Exact(members, objs, ready, limit)
    requires r in objs && o.target.instanceId == objs[r].target.instanceId
    requires NoDup(ready') && forall x :: x != r ==> (x in ready' <==> x in ready)
    requires r in ready' <==> IsMember(members, objs, r) && !o.draining && o.inFlight < limit
    ensures Fleet(members, objs[r := o], ready', false) && Exact(members, objs[r := o], ready', limit)
  {
    OneRecord(members, objs, r, o);
    var objs' := objs[r := o];
    forall x | x in objs' ensures ExactAt(members, objs', ready', limit, x) {
      assert ExactAt(members, objs, ready, limit, x);
    }
    forall x | x in ready' ensures x in objs' && Admissible(members, objs', x) {
      if x != r { assert x in ready; }
    }
  }

  /** Changing one record keeps the fleet in order and exact, if the ready list follows. */
  lemma FleetStep<R>(members: map<nat, R>, objs: map<R, Record>, ready: seq<R>, limit: int, closed: bool, r: R, o: Record, ready': seq<R>)
    requires Fleet(members, objs, ready, closed) && (!closed ==> Exact(members, objs, ready, limit))
    requires r in objs && o.target.instanceId == objs[r].target.instanceId
    requires closed ==> forall x :: x in ready' ==> x in objs
    requires !closed ==>
      && NoDup(ready') && (forall x :: x != r ==> (x in ready' <==> x in ready))
      && (r in ready' <==> IsMember(members, objs, r) && !o.draining && o.inFlight < limit)
    ensures Fleet(members, objs[r := o], ready', closed) && (!closed ==> Exact(members, objs[r := o], ready', limit))
    ensures |ActiveSet(members, objs[r := o])| == |ActiveSet(members, objs)|
              + (if IsMember(members, objs, r) && !o.draining then 1 else 0)
              - (if IsMember(members, objs, r) && !objs[r].draining then 1 else 0)
  {
    OneRecord(members, objs, r, o);
    if !closed { OneRecordExact(members, objs, ready, limit, r, o, ready'); }
    if !(IsMember(members, objs, r) && !objs[r].draining) {
      assert ActiveSet(members, objs) - {r} == ActiveSet(members, objs);
    } else {
      assert ActiveSet(members, objs) + {r} == ActiveSet(members, objs);
    }
  }

  lemma InsertFleet<R>(members: map<nat, R>, objs: map<R, Record>, ready: seq<R>, limit: int, o: Record, alloc: R)
    requires Fleet(members, objs, ready, false)
    requires alloc !in objs && o.target.instanceId !in members && !o.draining
    ensures var members', objs' := members[o.target.instanceId := alloc], objs[alloc := o];
            && Fleet(members', objs', ready, false)
            && (forall x :: x in objs && ExactAt(members, objs, ready, limit, x) ==> ExactAt(members', objs', ready, limit, x))
            && ActiveSet(members', objs') == ActiveSet(members, objs) + {alloc}
  {
    var members', objs' := members[o.target.instanceId := alloc], objs[alloc := o];
    forall x | x in objs ensures Admissible(members', objs', x) == Admissible(members, objs, x) {}
  }

  lemma ForgetFleet<R>(members: map<nat, R>, objs: map<R, Record>, ready: seq<R>, closed: bool, limit: int, id: nat)
    requires Fleet(members, objs, ready, closed) && id in members
    ensures var ready' := Without(ready, members[id]);
            && Fleet(members - {id}, objs, ready', closed)
            && (!closed && Exact(members, objs, ready, limit) ==> Exact(members - {id}, objs, ready', limit))
            && ActiveSet(members - {id}, objs) == ActiveSet(members, objs) - {members[id]}
  {
    var r, ready' := members[id], Without(ready, members[id]);
    if !closed { WithoutMembers(ready, r); }
    forall x | x in objs ensures Admissible(members - {id}, objs, x) == (x != r && Admissible(members, objs, x)) {}
    if !closed && Exact(members, objs, ready, limit) {
      forall x | x in objs ensures ExactAt(members - {id}, objs, ready', limit, x) {
        assert ExactAt(members, objs, ready, limit, x);
      }
    }
  }

  // --------------------------------------------------------------------- books

  /** Changing or adding a record without changing the count of leases on it. */
  lemma CountedRecord<R>(objs: map<R, Record>, leases: seq<LeaseRecord<R>>, executing: int, accepted: int, completed: int, r: R, o: Record)
    requires Counted(objs, leases, executing, accepted, completed)
    requires o.inFlight == if r in objs then objs[r].inFlight else 0
    ensures Counted(objs[r := o], leases, executing, accepted, completed)
  {
  }

  lemma CountedAcquire<R>(objs: map<R, Record>, leases: seq<LeaseRecord<R>>, executing: int, accepted: int, completed: int, r: R, w: nat)
    requires Counted(objs, leases, executing, accepted, completed) && r in objs
    ensures Counted(objs[r := objs[r].(inFlight := objs[r].inFlight + 1)], leases + [LeaseRecord(r, w, false)],
                    executing + 1, accepted + 1, completed)
  {
    OutstandingAppend(leases, LeaseRecord(r, w, false));
  }

  /** An outstanding lease is counted on its sandbox, so its release finds a positive count. */
  lemma CountedRelease<R>(objs: map<R, Record>, leases: seq<LeaseRecord<R>>, executing: int, accepted: int, completed: int, k: nat, o: Record)
    requires Counted(objs, leases, executing, accepted, completed) && k < |leases| && !leases[k].released
    ensures leases[k].sandbox in objs && objs[leases[k].sandbox].inFlight > 0
    ensures o.inFlight == objs[leases[k].sandbox].inFlight - 1 ==>
              Counted(objs[leases[k].sandbox := o], leases[k := leases[k].(released := true)],
                      executing - 1, accepted, completed + 1)
  {
    OutstandingRelease(leases, k);
    if o.inFlight == objs[leases[k].sandbox].inFlight - 1 {
      HeldLess(objs, Outstanding(leases), executing, leases[k].sandbox, o);
    }
  }

  lemma HeldLess<R>(objs: map<R, Record>, held: multiset<R>, executing: int, r: R, o: Record)
    requires Held(objs, held, executing) && r in held && o.inFlight == objs[r].inFlight - 1
    ensures Held(objs[r := o], held - multiset{r}, executing - 1)
  {
    assert held == (held - multiset{r}) + multiset{r};
  }

  // --------------------------------------------------------------------- queue

  /** The front waiter leaves the queue by one send on its empty channel. */
  lemma QueueSend<R>(pending: seq<nat>, waiters: seq<Waiter>, leases: seq<LeaseRecord<R>>, more: seq<LeaseRecord<R>>, result: Result)
    requires Queue(pending, waiters, leases) && pending != []
    requires result == Fail || (result == Grant(|leases|) && |more| == 1 && more[0].owner == pending[0] && !more[0].released)
    ensures waiters[pending[0]].sent == Nothing
    ensures Queue(pending[1..], waiters[pending[0] := waiters[pending[0]].(sent := result)], leases + more)
  {
    var w := pending[0];
    assert w in pending;
    assert forall v :: v in pending[1..] <==> v in pending && v != w;
    var waiters' := waiters[w := waiters[w].(sent := result)];
    forall v | 0 <= v < |waiters'| ensures WaiterOk(v, waiters'[v], v in pending[1..], leases + more) {
      assert WaiterOk(v, waiters[v], v in pending, leases);
    }
  }

  lemma QueueServe<R>(waiters: seq<Waiter>, leases: seq<LeaseRecord<R>>, r: R)
    requires Queue([], waiters, leases)
    ensures Queue([], waiters + [Waiter(false, Nothing, Leased(|leases|))], leases + [LeaseRecord(r, |waiters|, false)])
  {
    var waiters' := waiters + [Waiter(false, Nothing, Leased(|leases|))];
    var leases' := leases + [LeaseRecord(r, |waiters|, false)];
    forall v | 0 <= v < |waiters'| ensures WaiterOk(v, waiters'[v], v in [], leases') {
      if v < |waiters| { assert WaiterOk(v, waiters[v], v in [], leases); }
    }
  }

  lemma QueuePush<R>(pending: seq<nat>, waiters: seq<Waiter>, leases: seq<LeaseRecord<R>>)
    requires Queue(pending, waiters, leases)
    ensures Queue(pending + [|waiters|], waiters + [Waiter(false, Nothing, Blocked)], leases)
  {
    var pending', waiters' := pending + [|waiters|], waiters + [Waiter(false, Nothing, Blocked)];
    forall v | 0 <= v < |waiters'| ensures WaiterOk(v, waiters'[v], v in pending', leases) {
      if v < |waiters| { assert WaiterOk(v, waiters[v], v in pending, leases); }
    }
  }

  lemma QueueRelease<R>(pending: seq<nat>, waiters: seq<Waiter>, leases: seq<LeaseRecord<R>>, k: nat)
    requires Queue(pending, waiters, leases) && k < |leases|
    requires leases[k].owner < |waiters| && waiters[leases[k].owner].phase != Blocked
    ensures Queue(pending, waiters, leases[k := leases[k].(released := true)])
  {
    forall v | 0 <= v < |waiters| ensures WaiterOk(v, waiters[v], v in pending, leases[k := leases[k].(released := true)]) {
      assert WaiterOk(v, waiters[v], v in pending, leases);
    }
  }

  /** The call behind `w` returns, leaving the queue if it is still there. */
  lemma QueueReturn<R>(pending: seq<nat>, waiters: seq<Waiter>, leases: seq<LeaseRecord<R>>, w: nat, phase: CallPhase)
    requires Queue(pending, waiters, leases) && w < |waiters| && waiters[w].phase == Blocked
    requires phase == Errored || (waiters[w].sent.Grant? && phase == Leased(waiters[w].sent.lease))
    ensures Queue(Without(pending, w), waiters[w := waiters[w].(phase := phase)], leases)
    ensures w !in pending ==> Without(pending, w) == pending
  {
    WithoutIncreasing(pending, w);
    var pending', waiters' := Without(pending, w), waiters[w := waiters[w].(phase := phase)];
    forall v | 0 <= v < |waiters'| ensures WaiterOk(v, waiters'[v], v in pending', leases) {
      assert WaiterOk(v, waiters[v], v in pending, leases);
    }
    forall i | 0 <= i < |pending'| ensures pending'[i] < |waiters'| {
      assert pending'[i] in pending';
    }
    assert forall v :: 0 <= v < |waiters'| && waiters'[v].Granted() ==> waiters[v].Granted();
  }

  // ------------------------------------------------------------------ dispatch

  /** The fields dispatch never touches; a draining sandbox is not touched at all. */
  ghost predicate SameFleet<R>(s: Pool<R>, s': Pool<R>) {
    && s'.members == s.members && s'.limit == s.limit && s'.queueDepth == s.queueDepth
    && s'.closed == s.closed && s'.completed == s.completed
    && s'.objs.Keys == s.objs.Keys
    && (forall r :: r in s.objs ==> s'.objs[r].(inFlight := 0) == s.objs[r].(inFlight := 0))
    && (forall r :: r in s.objs && s.objs[r].draining ==> s'.objs[r] == s.objs[r])
  }

  lemma AcquireReady<R>(s: Pool<R>, w: nat)
    requires s.ready != [] && s.ready[0] in s.objs && NoDup(s.ready)
    ensures var s' := AcquireFront(s, w);
            && NoDup(s'.ready)
            && (forall x :: x != s.ready[0] ==> (x in s'.ready <==> x in s.ready))
            && (s.ready[0] in s'.ready <==> s'.objs[s.ready[0]].inFlight < s.limit)
  {
    assert s.ready == [s.ready[0]] + s.ready[1..];
  }

  lemma AcquireFleet<R>(s: Pool<R>, w: nat)
    requires Fleet(s.members, s.objs, s.ready, false) && Exact(s.members, s.objs, s.ready, s.limit) && s.ready != []
    ensures s.ready[0] in s.ready
    ensures var s' := AcquireFront(s, w);
            && Fleet(s'.members, s'.objs, s'.ready, false) && Exact(s'.members, s'.objs, s'.ready, s'.limit)
            && |ActiveSet(s'.members, s'.objs)| == |ActiveSet(s.members, s.objs)|
            && SameFleet(s, s')
  {
    var r := s.ready[0];
    assert r in s.ready;
    AcquireReady(s, w);
    var s' := AcquireFront(s, w);
    FleetStep(s.members, s.objs, s.ready, s.limit, false, r, s'.objs[r], s'.ready);
  }

  /** A grant keeps the fleet exact, the books balanced and the drains quiet. */
  lemma AcquireOk<R>(s: Pool<R>, w: nat)
    requires Serving(s) && s.ready != []
    ensures var s' := AcquireFront(s, w);
            && Fleet(s'.members, s'.objs, s'.ready, false) && Exact(s'.members, s'.objs, s'.ready, s'.limit)
            && Counted(s'.objs, s'.leases, s'.executing, s'.accepted, s'.completed)
            && |ActiveSet(s'.members, s'.objs)| == |ActiveSet(s.members, s.objs)|
            && Drained(s'.objs, false)
            && SameFleet(s, s')
  {
    AcquireFleet(s, w);
    CountedAcquire(s.objs, s.leases, s.executing, s.accepted, s.completed, s.ready[0], w);
  }

  lemma GrantFrontOk<R>(s: Pool<R>)
    requires Serving(s) && s.pending != [] && s.ready != []
    ensures Serving(GrantFront(s)) && SameFleet(s, GrantFront(s))
  {
    AcquireOk(s, s.pending[0]);
    QueueSend(s.pending, s.waiters, s.leases, [LeaseRecord(s.ready[0], s.pending[0], false)], Grant(|s.leases|));
  }

  lemma FailFrontOk<R>(s: Pool<R>)
    requires Core(s) && s.pending != []
    ensures Core(FailFront(s))
  {
    QueueSend(s.pending, s.waiters, s.leases, [], Fail);
    assert s.leases + [] == s.leases;
  }

  /** Dispatch leaves the pool work-conserving: waiters remain only if no sandbox is ready. */
  lemma {:induction false} DispatchOk<R>(s: Pool<R>)
    requires Serving(s)
    ensures var s' := Dispatch(s);
            Inv(s') && !s'.closed && SameFleet(s, s')
    decreases |s.pending|
  {
    if s.pending == [] {
    } else {
      if s.waiters[s.pending[0]].cancelled {
        FailFrontOk(s);
        DispatchOk(FailFront(s));
      } else if s.ready != [] {
        GrantFrontOk(s);
        DispatchOk(GrantFront(s));
      }
    }
  }

  lemma DispatchInv<R>(s: Pool<R>)
    requires Core(s) && (if s.closed then s.pending == [] else Serving(s))
    ensures Inv(Dispatch(s)) && SameFleet(s, Dispatch(s))
  {
    if !s.closed { DispatchOk(s); }
  }

  // ------------------------------------------------ each operation keeps `Inv`

  lemma {:induction false} RefreshAllOk<R>(s: Pool<R>, ids: seq<nat>)
    requires Core(s) && forall id :: id in ids ==> id in s.members
    requires !s.closed ==> forall id :: id in s.members && id !in ids ==> ExactAt(s.members, s.objs, s.ready, s.limit, s.members[id])
    ensures var s' := RefreshAll(s, ids);
            && Core(s') && s' == s.(ready := s'.ready)
            && (!s.closed ==> forall id :: id in s.members ==> ExactAt(s.members, s.objs, s'.ready, s.limit, s.members[id]))
    decreases |ids|
  {
    if ids == [] {
    } else {
      assert ids[0] in ids;
      var r := s.members[ids[0]];
      RefreshFleet(s, r);
      var s1 := s.(ready := Refresh(s, r));
      forall id | !s.closed && id in s1.members && id !in ids[1..]
        ensures ExactAt(s1.members, s1.objs, s1.ready, s1.limit, s1.members[id])
      {
        if id != ids[0] { assert ExactAt(s.members, s.objs, s.ready, s.limit, s.members[id]); }
      }
      RefreshAllOk(s1, ids[1..]);
    }
  }

  lemma MembersExact<R>(members: map<nat, R>, objs: map<R, Record>, ready: seq<R>, limit: int)
    requires Fleet(members, objs, ready, false)
    requires forall id :: id in members ==> ExactAt(members, objs, ready, limit, members[id])
    ensures Exact(members, objs, ready, limit)
  {
    forall r | r in objs ensures ExactAt(members, objs, ready, limit, r) {
      if IsMember(members, objs, r) {
        assert ExactAt(members, objs, ready, limit, members[objs[r].target.instanceId]);
      }
    }
  }

  lemma ConfigureInv<R>(s: Pool<R>, limit: int, depth: int, ids: seq<nat>)
    requires Inv(s) && MemberIds(s, ids)
    ensures Inv(Configure(s, limit, depth, ids))
  {
    var s0 := s.(limit := NormalizeLimit(limit), queueDepth := NormalizeDepth(depth));
    RefreshAllOk(s0, ids);
    var s1 := RefreshAll(s0, ids);
    if !s.closed { MembersExact(s1.members, s1.objs, s1.ready, s1.limit); }
    DispatchInv(s1);
  }

  ghost function Inserted<R>(s: Pool<R>, target: Sandbox, alloc: R): Pool<R> {
    s.(objs := s.objs[alloc := Record(target, 0, false, NoChannel, NoSession)],
       members := s.members[target.instanceId := alloc], active := s.active + 1)
  }

  lemma InsertedOk<R>(s: Pool<R>, target: Sandbox, alloc: R)
    requires Serving(s) && alloc !in s.objs && target.instanceId !in s.members
    ensures var s1 := Inserted(s, target, alloc);
            Core(s1) && forall x :: x in s.objs ==> ExactAt(s1.members, s1.objs, s1.ready, s1.limit, x)
  {
    var o := Record(target, 0, false, NoChannel, NoSession);
    InsertFleet(s.members, s.objs, s.ready, s.limit, o, alloc);
    CountedRecord(s.objs, s.leases, s.executing, s.accepted, s.completed, alloc, o);
  }

  lemma PutNew<R>(s: Pool<R>, target: Sandbox, alloc: R)
    requires Serving(s) && alloc !in s.objs && target.instanceId !in s.members
    ensures Serving(Put(s, target, alloc))
  {
    InsertedOk(s, target, alloc);
    var s1 := Inserted(s, target, alloc);
    RefreshFleet(s1, alloc);
    var s' := Put(s, target, alloc);
    assert s' == s1.(ready := Refresh(s1, alloc));
    forall x | x in s'.objs ensures ExactAt(s'.members, s'.objs, s'.ready, s'.limit, x) {
      if x != alloc { assert ExactAt(s1.members, s1.objs, s1.ready, s1.limit, x); }
    }
  }

  lemma PutKnown<R>(s: Pool<R>, target: Sandbox, alloc: R)
    requires Serving(s) && target.instanceId in s.members
    ensures Serving(Put(s, target, alloc)) && Put(s, target, alloc).objs.Keys == s.objs.Keys
    ensures Put(s, target, alloc).ready == s.ready
  {
    var r := s.members[target.instanceId];
    var o := s.objs[r].(target := target);
    var s' := Put(s, target, alloc);
    assert s.members[target.instanceId := r] == s.members;
    assert ExactAt(s.members, s.objs, s.ready, s.limit, r);
    var k := WithoutIsSlice(s.ready, r);
    FleetStep(s.members, s.objs, s.ready, s.limit, false, r, o, s.ready);
    CountedRecord(s.objs, s.leases, s.executing, s.accepted, s.completed, r, o);
  }

  lemma AddInv<R>(s: Pool<R>, target: Sandbox, alloc: R)
    requires Inv(s) && (target.instanceId in s.members || alloc !in s.objs)
    ensures Inv(Add(s, target, alloc))
  {
    if Usable(target) && !s.closed {
      PutRefs(s, target, alloc);
      if target.instanceId in s.members {
        PutKnown(s, target, alloc);
      } else {
        PutNew(s, target, alloc);
        DispatchOk(Put(s, target, alloc));
      }
    }
  }

  lemma ForgetOk<R>(s: Pool<R>, id: nat)
    requires Core(s)
    ensures Core(Forget(s, id)) && Forget(s, id).objs == s.objs
    ensures Serving(s) ==> Serving(Forget(s, id))
  {
    if id in s.members {
      ForgetFleet(s.members, s.objs, s.ready, s.closed, s.limit, id);
      assert IsMember(s.members, s.objs, s.members[id]);
    }
  }

  lemma RemoveInv<R>(s: Pool<R>, id: nat)
    requires Inv(s)
    ensures Inv(Forget(s, id))
  {
    ForgetOk(s, id);
  }

  lemma {:induction false} SyncDropOk<R>(s: Pool<R>, wanted: map<nat, Sandbox>, ids: seq<nat>)
    requires Serving(s)
    ensures Serving(SyncDrop(s, wanted, ids))
    decreases |ids|
  {
    if ids == [] {
    } else {
      ForgetOk(s, ids[0]);
      var keep := ids[0] in wanted || (ids[0] in s.members && s.objs[s.members[ids[0]]].draining);
      SyncDropOk(if keep then s else Forget(s, ids[0]), wanted, ids[1..]);
    }
  }

  lemma {:induction false} SyncPutOk<R>(s: Pool<R>, wanted: map<nat, Sandbox>, alloc: map<nat, R>, ids: seq<nat>)
    requires Serving(s) && NoDup(ids)
    requires forall id :: id in ids ==> id in wanted && wanted[id].instanceId == id && id in alloc
    requires Fresh(s, alloc, ids)
    ensures Serving(SyncPut(s, wanted, alloc, ids))
    decreases |ids|
  {
    if ids == [] {
    } else {
      var id := ids[0];
      assert id in ids && id !in ids[1..];
      if id in s.members { PutKnown(s, wanted[id], alloc[id]); } else { PutNew(s, wanted[id], alloc[id]); }
      SyncPutOk(Put(s, wanted[id], alloc[id]), wanted, alloc, ids[1..]);
    }
  }

  lemma SyncInv<R>(s: Pool<R>, targets: seq<Sandbox>, drop: seq<nat>, put: seq<nat>, alloc: map<nat, R>)
    requires Inv(s) && SyncArgs(s, targets, drop, put, alloc)
    ensures Inv(Sync(s, targets, drop, put, alloc))
  {
    if !s.closed {
      var wanted := Wanted(targets);
      SyncDropOk(s, wanted, drop);
      SyncDropKeeps(s, wanted, drop);
      SyncPutOk(SyncDrop(s, wanted, drop), wanted, alloc, put);
      DispatchOk(SyncPut(SyncDrop(s, wanted, drop), wanted, alloc, put));
    }
  }

  lemma DrainBeginInv<R>(s: Pool<R>, id: nat)
    requires Inv(s)
    ensures Inv(DrainBegin(s, id))
  {
    if !(s.closed || id !in s.members || s.objs[s.members[id]].draining) {
      var r, s' := s.members[id], DrainBegin(s, id);
      WithoutMembers(s.ready, r);
      FleetStep(s.members, s.objs, s.ready, s.limit, false, r, s'.objs[r], s'.ready);
      CountedRecord(s.objs, s.leases, s.executing, s.accepted, s.completed, r, s'.objs[r]);
    }
  }

  /** A step of the goroutine inside Drain, which only it can see. */
  lemma SessionInv<R>(s: Pool<R>, r: R, session: DrainSession)
    requires Inv(s) && r in s.objs
    requires session == NoSession || (session == Returned && s.objs[r].drained == Closed)
    ensures Inv(s.(objs := s.objs[r := s.objs[r].(session := session)]))
  {
    var o := s.objs[r].(session := session);
    assert DrainOk(o, s.closed) by { assert DrainOk(s.objs[r], s.closed); }
    if !s.closed { assert ExactAt(s.members, s.objs, s.ready, s.limit, r); }
    FleetStep(s.members, s.objs, s.ready, s.limit, s.closed, r, o, s.ready);
    CountedRecord(s.objs, s.leases, s.executing, s.accepted, s.completed, r, o);
  }

  /** A sandbox that was off the ready list comes back to its end, if it has a free slot. */
  lemma BackReady<R>(s: Pool<R>, r: R)
    requires r in s.objs && r !in s.ready && NoDup(s.ready)
    ensures var ready := Refresh(s, r);
            && NoDup(ready) && (forall x :: x != r ==> (x in ready <==> x in s.ready))
            && (r in ready <==> !s.objs[r].draining && s.objs[r].inFlight < s.limit)
  {
    var k := WithoutIsSlice(s.ready, r);
  }

  lemma ReadmitOk<R>(s: Pool<R>, r: R)
    requires Inv(s) && r in s.objs
    requires IsMember(s.members, s.objs, r) && s.objs[r].draining && s.objs[r].session == NoSession
    ensures Core(Readmit(s, r)) && (!s.closed ==> Serving(Readmit(s, r)))
  {
    var s' := Readmit(s, r);
    var o := s'.objs[r];
    if !s.closed {
      assert ExactAt(s.members, s.objs, s.ready, s.limit, r);
      BackReady(s.(objs := s'.objs), r);
    }
    assert Fleet(s.members, s'.objs, s'.ready, s.closed) && s'.active == |ActiveSet(s.members, s'.objs)|
           && (!s.closed ==> Exact(s.members, s'.objs, s'.ready, s.limit)) by {
      FleetStep(s.members, s.objs, s.ready, s.limit, s.closed, r, o, s'.ready);
    }
    assert Counted(s'.objs, s.leases, s.executing, s.accepted, s.completed) by {
      CountedRecord(s.objs, s.leases, s.executing, s.accepted, s.completed, r, o);
    }
  }

  lemma RestoreInv<R>(s: Pool<R>, r: R)
    requires Inv(s) && r in s.objs
    ensures Inv(Restore(s, r))
  {
    SessionInv(s, r, NoSession);
    if IsMember(s.members, s.objs, r) && s.objs[r].draining {
      var s0 := s.(objs := s.objs[r := s.objs[r].(session := NoSession)]);
      ReadmitOk(s0, r);
      DispatchInv(Readmit(s0, r));
    }
  }

  lemma FinishStoppedInv<R>(s: Pool<R>, r: R)
    requires Inv(s) && r in s.objs
    ensures Inv(FinishStopped(s, r))
  {
    SessionInv(s, r, NoSession);
    if IsMember(s.members, s.objs, r) && s.objs[r].draining {
      var s0 := s.(objs := s.objs[r := s.objs[r].(session := NoSession)]);
      var id := s.objs[r].target.instanceId;
      ForgetFleet(s0.members, s0.objs, s0.ready, s0.closed, s0.limit, id);
      if !s.closed {
        assert ExactAt(s0.members, s0.objs, s0.ready, s0.limit, r);
        var k := WithoutIsSlice(s0.ready, r);
      }
      assert ActiveSet(s0.members, s0.objs) - {r} == ActiveSet(s0.members, s0.objs);
    }
  }

  lemma ArriveInv<R>(s: Pool<R>)
    requires Inv(s)
    ensures Inv(Arrive(s))
  {
    match Admit(s)
    case Served =>
      QueueServe(s.waiters, s.leases, s.ready[0]);
      AcquireOk(s, |s.waiters|);
    case Queued =>
      QueuePush(s.pending, s.waiters, s.leases);
    case _ =>
  }

  /** The record of a sandbox that loses a lease: its channel closes with the last one, once. */
  lemma EndedRecord<R>(s: Pool<R>, k: nat)
    requires k < |s.leases| && s.leases[k].sandbox in s.objs
    requires DrainOk(s.objs[s.leases[k].sandbox], s.closed) && s.objs[s.leases[k].sandbox].inFlight > 0
    ensures var o, o' := s.objs[s.leases[k].sandbox], EndLease(s, k).objs[s.leases[k].sandbox];
            && DrainOk(o', s.closed) && o'.inFlight == o.inFlight - 1 && o'.target == o.target && o'.draining == o.draining
            && EndLease(s, k).fault == s.fault
  {
  }

  lemma EndLeaseOk<R>(s: Pool<R>, k: nat, ready: seq<R>)
    requires Inv(s) && k < |s.leases| && !s.leases[k].released
    requires s.leases[k].owner < |s.waiters| && s.waiters[s.leases[k].owner].phase != Blocked
    requires s.leases[k].sandbox in s.objs && s.objs[s.leases[k].sandbox].inFlight > 0
    requires var r := s.leases[k].sandbox;
             if s.closed || !Admissible(s.members, s.objs, r) then ready == s.ready
             else NoDup(ready) && (forall x :: x != r ==> (x in ready <==> x in s.ready)) &&
                  (r in ready <==> s.objs[r].inFlight - 1 < s.limit)
    ensures var s' := EndLease(s, k).(ready := ready);
            Core(s') && (!s.closed ==> Serving(s'))
  {
    var r := s.leases[k].sandbox;
    EndedRecord(s, k);
    var o := EndLease(s, k).objs[r];
    assert Queue(s.pending, s.waiters, EndLease(s, k).leases) by { QueueRelease(s.pending, s.waiters, s.leases, k); }
    assert Counted(s.objs[r := o], EndLease(s, k).leases, s.executing - 1, s.accepted, s.completed + 1) by {
      CountedRelease(s.objs, s.leases, s.executing, s.accepted, s.completed, k, o);
    }
    EndLeaseFleet(s, r, o, ready);
  }

  lemma EndLeaseFleet<R>(s: Pool<R>, r: R, o: Record, ready: seq<R>)
    requires Inv(s) && r in s.objs && DrainOk(o, s.closed)
    requires o.inFlight == s.objs[r].inFlight - 1 && o.target == s.objs[r].target && o.draining == s.objs[r].draining
    requires if s.closed || !Admissible(s.members, s.objs, r) then ready == s.ready
             else NoDup(ready) && (forall x :: x != r ==> (x in ready <==> x in s.ready)) && (r in ready <==> o.inFlight < s.limit)
    ensures Fleet(s.members, s.objs[r := o], ready, s.closed) && Drained(s.objs[r := o], s.closed)
    ensures s.active == |ActiveSet(s.members, s.objs[r := o])| && (!s.closed ==> Exact(s.members, s.objs[r := o], ready, s.limit))
  {
    if !s.closed { assert ExactAt(s.members, s.objs, s.ready, s.limit, r); }
    FleetStep(s.members, s.objs, s.ready, s.limit, s.closed, r, o, ready);
  }

  /** Releasing an outstanding lease never panics and keeps the invariant. */
  lemma ReleaseInv<R>(s: Pool<R>, k: nat)
    requires Inv(s) && k < |s.leases| && !s.leases[k].released
    requires s.leases[k].owner < |s.waiters| && s.waiters[s.leases[k].owner].phase != Blocked
    ensures s.leases[k].sandbox in s.objs && s.objs[s.leases[k].sandbox].inFlight > 0
    ensures Inv(Release(s, k))
  {
    var r := s.leases[k].sandbox;
    CountedRelease(s.objs, s.leases, s.executing, s.accepted, s.completed, k, s.objs[r]);
    var s1 := EndLease(s, k);
    if s.closed || !Admissible(s.members, s.objs, r) {
      EndLeaseOk(s, k, s.ready);
      assert s1.(ready := s.ready) == s1;
    } else {
      WithoutMembers(s.ready, r);
      EndLeaseOk(s, k, Refresh(s1, r));
      DispatchInv(s1.(ready := Refresh(s1, r)));
    }
  }

  ghost predicate Received<R>(s: Pool<R>, w: nat) {
    w < |s.waiters| && s.waiters[w].phase == Blocked && s.waiters[w].sent != Nothing
  }

  /** What a blocked call can rely on: the lease in its channel is its own and outstanding. */
  lemma ReceivedLease<R>(s: Pool<R>, w: nat)
    requires Inv(s) && w < |s.waiters| && s.waiters[w].phase == Blocked && s.waiters[w].sent.Grant?
    ensures var k := s.waiters[w].sent.lease;
            k < |s.leases| && s.leases[k].owner == w && !s.leases[k].released && s.leases[k].sandbox in s.objs
  {
    assert WaiterOk(w, s.waiters[w], w in s.pending, s.leases);
  }

  lemma ReturnInv<R>(s: Pool<R>, w: nat, phase: CallPhase)
    requires Inv(s) && w < |s.waiters| && s.waiters[w].phase == Blocked
    requires phase == Errored || (s.waiters[w].sent.Grant? && phase == Leased(s.waiters[w].sent.lease))
    ensures Inv(s.(pending := Without(s.pending, w), waiters := s.waiters[w := s.waiters[w].(phase := phase)]))
    ensures w !in s.pending ==> Without(s.pending, w) == s.pending
  {
    QueueReturn(s.pending, s.waiters, s.leases, w, phase);
  }

  lemma ReceiveInv<R>(s: Pool<R>, w: nat)
    requires Inv(s) && Received(s, w)
    ensures ReceivableIn(s, w)
    ensures Inv(Receive(s, w))
  {
    assert WaiterOk(w, s.waiters[w], w in s.pending, s.leases);
    ReturnInv(s, w, Errored);
    if s.waiters[w].sent.Grant? {
      ReceivedLease(s, w);
      if s.waiters[w].cancelled {
        ReleaseInv(s.(waiters := s.waiters[w := s.waiters[w].(phase := Errored)]), s.waiters[w].sent.lease);
      } else {
        ReturnInv(s, w, Leased(s.waiters[w].sent.lease));
      }
    }
  }

  lemma WithdrawInv<R>(s: Pool<R>, w: nat)
    requires Inv(s) && w < |s.waiters| && s.waiters[w].phase == Blocked
    ensures ReceivableIn(s, w)
    ensures Inv(Withdraw(s, w))
  {
    assert WaiterOk(w, s.waiters[w], w in s.pending, s.leases);
    ReturnInv(s, w, Errored);
    if s.waiters[w].sent.Grant? {
      ReceivedLease(s, w);
      ReleaseInv(s.(waiters := s.waiters[w := s.waiters[w].(phase := Errored)]), s.waiters[w].sent.lease);
    }
  }

  lemma CancelInv<R>(s: Pool<R>, w: nat)
    requires Inv(s) && w < |s.waiters|
    ensures Inv(s.(waiters := s.waiters[w := s.waiters[w].(cancelled := true)]))
  {
    var waiters' := s.waiters[w := s.waiters[w].(cancelled := true)];
    forall v | 0 <= v < |waiters'| ensures WaiterOk(v, waiters'[v], v in s.pending, s.leases) {
      assert WaiterOk(v, s.waiters[v], v in s.pending, s.leases);
    }
    assert Queue(s.pending, waiters', s.leases);
  }

  lemma {:induction false} FailAllOk<R>(s: Pool<R>)
    requires Core(s)
    ensures Core(FailAll(s)) && FailAll(s).pending == [] && FailAll(s).closed == s.closed
    decreases |s.pending|
  {
    if s.pending == [] {
    } else {
      FailFrontOk(s);
      FailAllOk(FailFront(s));
    }
  }

  lemma CloseInv<R>(s: Pool<R>)
    requires Inv(s)
    ensures Inv(Close(s)) && Close(s).closed
  {
    if !s.closed {
      FailAllOk(s.(closed := true, ready := []));
    }
  }

  lemma QueuedIsBlocked<R>(s: Pool<R>, w: nat)
    requires Inv(s) && w in s.pending
    ensures w < |s.waiters| && s.waiters[w].phase == Blocked && s.waiters[w].sent == Nothing
  {
    assert WaiterOk(w, s.waiters[w], true, s.leases);
  }

  // ------------------------------------------------------ advertised capacity

  /** Free slots on the members `ids`, as Snapshot adds them up. */
  ghost function FreeSlots<R>(s: Pool<R>, ids: set<nat>): int
    requires Refs(s) && ids <= s.members.Keys
  {
    if ids == {} then 0
    else
      var id :| id in ids;
      FreeOn(s, id) + FreeSlots(s, ids - {id})
  }

  ghost function FreeOn<R>(s: Pool<R>, id: nat): (n: int)
    requires Refs(s) && id in s.members
    ensures n >= 0
  {
    var o := s.objs[s.members[id]];
    if !o.draining && o.inFlight < s.limit then s.limit - o.inFlight else 0
  }

  /** The sum does not depend on the order of iteration. */
  lemma {:induction false} FreeSlotsSplit<R>(s: Pool<R>, ids: set<nat>, id: nat)
    requires Refs(s) && ids <= s.members.Keys && id in ids
    ensures FreeSlots(s, ids) == FreeOn(s, id) + FreeSlots(s, ids - {id})
    ensures var o := s.objs[s.members[id]];
            FreeSlots(s, ids) == FreeSlots(s, ids - {id}) + if !o.draining && o.inFlight < s.limit then s.limit - o.inFlight else 0
    decreases ids
  {
    var i :| i in ids && FreeSlots(s, ids) == FreeOn(s, i) + FreeSlots(s, ids - {i});
    if i != id {
      FreeSlotsSplit(s, ids - {i}, id);
      FreeSlotsSplit(s, ids - {id}, i);
      assert ids - {i} - {id} == ids - {id} - {i};
    }
  }

  lemma {:induction false} FreeSlotsSign<R>(s: Pool<R>, ids: set<nat>)
    requires Refs(s) && ids <= s.members.Keys
    ensures FreeSlots(s, ids) >= 0
    ensures FreeSlots(s, ids) > 0 <==> exists id :: id in ids && FreeOn(s, id) > 0
    decreases ids
  {
    if ids == {} {
    } else {
      var i :| i in ids && FreeSlots(s, ids) == FreeOn(s, i) + FreeSlots(s, ids - {i});
      FreeSlotsSign(s, ids - {i});
      if FreeSlots(s, ids) > 0 && FreeOn(s, i) == 0 {
        var id :| id in ids - {i} && FreeOn(s, id) > 0;
        assert id in ids;
      }
      if id :| id in ids && FreeOn(s, id) > 0 && id != i {
        assert id in ids - {i};
      }
    }
  }

  /** An open pool advertises capacity exactly when its ready list is not empty. */
  lemma FreeSlotsReady<R>(s: Pool<R>, ids: set<nat>)
    requires Inv(s) && !s.closed && ids == s.members.Keys
    ensures FreeSlots(s, ids) >= 0 && (FreeSlots(s, ids) > 0 <==> s.ready != [])
  {
    FreeSlotsSign(s, ids);
    if s.ready != [] {
      var r := s.ready[0];
      assert r in s.ready && ExactAt(s.members, s.objs, s.ready, s.limit, r);
      assert FreeOn(s, s.objs[r].target.instanceId) > 0;
    }
    if id :| id in ids && FreeOn(s, id) > 0 {
      assert ExactAt(s.members, s.objs, s.ready, s.limit, s.members[id]);
    }
  }
}
