/** What the admission pool promises, for every run and every state of it. */
module PoolTheorems {
  import opened PoolModel
  import opened PoolProofs
  import opened PoolRuns

  /** The ready list of an open pool holds, without duplicates, exactly the non-draining
      members with a free slot; and nobody waits while a sandbox is ready. */
  lemma ReadyListIsExact<R>(limit: int, depth: int, ops: seq<Op<R>>, trace: seq<System<R>>, i: nat)
    requires IsRun(limit, depth, ops, trace) && i < |trace| && !trace[i].pool.closed
    ensures var s := trace[i].pool;
            && NoDup(s.ready) && (forall r :: r in s.ready ==> r in s.objs)
            && (forall r :: r in s.objs ==>
                  (r in s.ready <==> IsMember(s.members, s.objs, r) && !s.objs[r].draining && s.objs[r].inFlight < s.limit))
            && (s.pending != [] ==> s.ready == [])
  {
    RunInv(limit, depth, ops, trace, i);
    var s := trace[i].pool;
    forall r | r in s.objs ensures ExactAt(s.members, s.objs, s.ready, s.limit, r) {}
  }

  /** First come, first served: once a call is granted, no call that arrived before it
      is still queued, then or ever after. */
  lemma FirstComeFirstServed<R>(limit: int, depth: int, ops: seq<Op<R>>, trace: seq<System<R>>, i: nat, j: nat, w: nat, v: nat)
    requires IsRun(limit, depth, ops, trace) && i <= j < |trace|
    requires w < v < |trace[i].pool.waiters| && trace[i].pool.waiters[v].Granted()
    ensures w !in trace[i].pool.pending && w !in trace[j].pool.pending
  {
    RunInv(limit, depth, ops, trace, i);
    RunEvolves(limit, depth, ops, trace, i, j);
  }

  /** No panic and no blocking send under the lock: a lease is never released twice, a
      drained channel is closed once, and a result channel is sent to once. */
  lemma NeverFaults<R>(limit: int, depth: int, ops: seq<Op<R>>, trace: seq<System<R>>, i: nat)
    requires IsRun(limit, depth, ops, trace) && i < |trace|
    ensures !trace[i].pool.fault
  {
    RunInv(limit, depth, ops, trace, i);
  }

  /** A result that was sent is never replaced, and a blocked call that left the queue
      finds its result, so its final receive does not block. */
  lemma ResultsAreFinal<R>(limit: int, depth: int, ops: seq<Op<R>>, trace: seq<System<R>>, i: nat, j: nat, w: nat)
    requires IsRun(limit, depth, ops, trace) && i <= j < |trace| && w < |trace[i].pool.waiters|
    ensures w < |trace[j].pool.waiters|
    ensures trace[i].pool.waiters[w].sent != Nothing ==> trace[j].pool.waiters[w].sent == trace[i].pool.waiters[w].sent
    ensures trace[i].pool.waiters[w].phase == Blocked && w !in trace[i].pool.pending ==> trace[i].pool.waiters[w].sent != Nothing
  {
    RunInv(limit, depth, ops, trace, i);
    RunEvolves(limit, depth, ops, trace, i, j);
    var s := trace[i].pool;
    assert WaiterOk(w, s.waiters[w], w in s.pending, s.leases);
  }

  /** `n` requests arriving one after the other. */
  ghost function Arrivals<R>(s: Pool<R>, n: nat): (s': Pool<R>)
    requires Refs(s)
    ensures Refs(s')
  {
    if n == 0 then s else PoolModel.Arrive(Arrivals(s, n - 1))
  }

  lemma ServeFront<R>(s: Pool<R>)
    requires Refs(s) && !s.closed && s.pending == [] && s.ready != []
    ensures var s' := PoolModel.Arrive(s);
            && s'.leases == s.leases + [LeaseRecord(s.ready[0], |s.waiters|, false)]
            && s'.pending == [] && !s'.closed && s.ready[1..] <= s'.ready
  {
  }

  lemma PrefixTail<T>(a: seq<T>, b: seq<T>, c: seq<T>)
    requires a <= b && a != [] && b[1..] <= c
    ensures a[0] == b[0] && a[1..] <= c
  {
    assert b == a + b[|a|..];
  }

  /** Round robin: requests that find free sandboxes get them in ready-list order, each sandbox
      once before any of them twice. */
  lemma {:induction false} RoundRobin<R>(s: Pool<R>, n: nat)
    requires Refs(s) && !s.closed && s.pending == [] && n <= |s.ready|
    ensures var s' := Arrivals(s, n);
            && |s'.leases| == |s.leases| + n && s'.pending == [] && !s'.closed && s.ready[n..] <= s'.ready
            && (forall i :: 0 <= i < n ==> s'.leases[|s.leases| + i].sandbox == s.ready[i])
  {
    if n == 0 {
      assert s.ready[0..] == s.ready;
    } else {
      RoundRobin(s, n - 1);
      var s1 := Arrivals(s, n - 1);
      ServeFront(s1);
      PrefixTail(s.ready[n - 1..], s1.ready, Arrivals(s, n).ready);
      assert s.ready[n - 1..][1..] == s.ready[n..];
    }
  }

  // ------------------------------------------------------------- conservation

  /** The leases on the sandboxes in `rs`. */
  ghost function InFlightOf<R>(objs: map<R, Record>, rs: set<R>): int
    requires rs <= objs.Keys
  {
    if rs == {} then 0
    else
      var r :| r in rs;
      objs[r].inFlight + InFlightOf(objs, rs - {r})
  }

  /** Summing a multiset over any finite set that covers it gives its size. */
  lemma {:induction false} SumCovers<R>(objs: map<R, Record>, rs: set<R>, held: multiset<R>)
    requires rs <= objs.Keys
    requires forall r :: r in held ==> r in rs
    requires forall r :: r in rs ==> objs[r].inFlight == held[r]
    ensures InFlightOf(objs, rs) == |held|
    decreases rs
  {
    if rs == {} {
      assert held == multiset{};
    } else {
      var r :| r in rs && InFlightOf(objs, rs) == objs[r].inFlight + InFlightOf(objs, rs - {r});
      SumCovers(objs, rs - {r}, held[r := 0]);
      assert |held| == |held[r := 0]| + held[r];
    }
  }

  ghost function ActiveIds<R>(s: Pool<R>): set<nat> {
    set id | id in s.members && s.members[id] in s.objs && !s.objs[s.members[id]].draining
  }

  /** executing = accepted - completed = the sum of inFlight over every sandbox ever
      added, removed ones included; active = the number of non-draining members. */
  lemma LeasesAreConserved<R>(limit: int, depth: int, ops: seq<Op<R>>, trace: seq<System<R>>, i: nat)
    requires IsRun(limit, depth, ops, trace) && i < |trace|
    ensures var s := trace[i].pool;
            && s.executing == s.accepted - s.completed
            && s.executing == InFlightOf(s.objs, s.objs.Keys)
            && s.active == |ActiveIds(s)|
  {
    RunInv(limit, depth, ops, trace, i);
    var s := trace[i].pool;
    SumCovers(s.objs, s.objs.Keys, Outstanding(s.leases));
    ActiveCounts(s.members, s.objs, ActiveIds(s), ActiveSet(s.members, s.objs));
  }

  /** Members are filed one per id, so counting ids counts sandboxes. */
  lemma {:induction false} ActiveCounts<R>(members: map<nat, R>, objs: map<R, Record>, ids: set<nat>, rs: set<R>)
    requires forall id :: id in members ==> members[id] in objs && objs[members[id]].target.instanceId == id
    requires forall id :: id in ids ==> id in members && members[id] in rs
    requires forall r :: r in rs ==> r in objs && objs[r].target.instanceId in ids && members[objs[r].target.instanceId] == r
    ensures |ids| == |rs|
    decreases ids
  {
    if ids == {} {
      assert rs == {};
    } else {
      var id :| id in ids;
      ActiveCounts(members, objs, ids - {id}, rs - {members[id]});
    }
  }

  // ------------------------------------------------------------------- drains

  /** While a sandbox is draining its lease count never rises. */
  lemma DrainingNeverGains<R>(limit: int, depth: int, ops: seq<Op<R>>, trace: seq<System<R>>, i: nat, r: R)
    requires IsRun(limit, depth, ops, trace) && i < |ops| && r in trace[i].pool.objs
    ensures r in trace[i + 1].pool.objs
    ensures trace[i].pool.objs[r].draining && trace[i + 1].pool.objs[r].draining ==>
              trace[i + 1].pool.objs[r].inFlight <= trace[i].pool.objs[r].inFlight
  {
    StepAt(limit, depth, ops, trace, i);
  }

  lemma {:induction false} ReturnedUntilFinish<R>(limit: int, depth: int, ops: seq<Op<R>>, trace: seq<System<R>>, i: nat, j: nat, r: R)
    requires IsRun(limit, depth, ops, trace) && i <= j < |trace|
    requires r in trace[i].pool.objs && trace[i].pool.objs[r].session == Returned
    requires forall k :: i <= k < j ==> !(ops[k].Finish? && ops[k].r == r)
    ensures r in trace[j].pool.objs && trace[j].pool.objs[r].session == Returned
    decreases j - i
  {
    if i == j {
    } else {
      ReturnedUntilFinish(limit, depth, ops, trace, i, j - 1, r);
      RunInv(limit, depth, ops, trace, j - 1);
      StepAt(limit, depth, ops, trace, j - 1);
      assert DrainOk(trace[j - 1].pool.objs[r], trace[j - 1].pool.closed);
      assert r !in Driven(ops[j - 1]);
    }
  }

  /** From the moment Drain returns the finish function until that function is called,
      the sandbox is draining, off the ready list, and has no lease. */
  lemma DrainIsSafe<R>(limit: int, depth: int, ops: seq<Op<R>>, trace: seq<System<R>>, i: nat, j: nat, r: R)
    requires IsRun(limit, depth, ops, trace) && i <= j < |trace|
    requires r in trace[i].pool.objs && trace[i].pool.objs[r].session == Returned
    requires forall k :: i <= k < j ==> !(ops[k].Finish? && ops[k].r == r)
    ensures var s := trace[j].pool;
            && r in s.objs && s.objs[r].draining && s.objs[r].inFlight == 0
            && (!s.closed ==> r !in s.ready)
            && (forall k :: 0 <= k < |s.leases| && s.leases[k].sandbox == r ==> s.leases[k].released)
  {
    ReturnedUntilFinish(limit, depth, ops, trace, i, j, r);
    RunInv(limit, depth, ops, trace, j);
    ReturnedHasNoLease(trace[j].pool, r);
  }

  lemma ReturnedHasNoLease<R>(s: Pool<R>, r: R)
    requires Inv(s) && r in s.objs && s.objs[r].session == Returned
    ensures s.objs[r].draining && s.objs[r].inFlight == 0 && (!s.closed ==> r !in s.ready)
    ensures forall k :: 0 <= k < |s.leases| && s.leases[k].sandbox == r ==> s.leases[k].released
  {
    assert DrainOk(s.objs[r], s.closed);
    if !s.closed { assert ExactAt(s.members, s.objs, s.ready, s.limit, r); }
    forall k | 0 <= k < |s.leases| && s.leases[k].sandbox == r ensures s.leases[k].released {
      if !s.leases[k].released { OutstandingRelease(s.leases, k); }
    }
  }

  // ------------------------------------------------------------- after closing

  /** A closed pool never grants again and has no queue. */
  lemma ClosedNeverGrants<R>(limit: int, depth: int, ops: seq<Op<R>>, trace: seq<System<R>>, i: nat, j: nat)
    requires IsRun(limit, depth, ops, trace) && i <= j < |trace| && trace[i].pool.closed
    ensures trace[j].pool.closed && trace[j].pool.accepted == trace[i].pool.accepted && trace[j].pool.pending == []
  {
    RunInv(limit, depth, ops, trace, i);
    RunInv(limit, depth, ops, trace, j);
    RunEvolves(limit, depth, ops, trace, i, j);
  }

  // --------------------------------------------------------------- high water

  ghost predicate NoTake<R>(ops: seq<Op<R>>, i: nat, j: nat)
    requires i <= j <= |ops|
  {
    forall k :: i <= k < j ==> !ops[k].TakeHighWater?
  }

  lemma {:induction false} PeakIsMaximum<R>(limit: int, depth: int, ops: seq<Op<R>>, trace: seq<System<R>>, i: nat) returns (m: nat)
    requires IsRun(limit, depth, ops, trace) && i < |trace|
    ensures m <= i && NoTake(ops, m, i) && trace[i].peak == Demand(trace[m].pool)
    ensures forall j :: 0 <= j <= i && NoTake(ops, j, i) ==> Demand(trace[j].pool) <= trace[i].peak
  {
    m := i;
    assert i > 0 ==> Stepped(ops, trace, i - 1);
    if i > 0 && !ops[i - 1].TakeHighWater? {
      var m' := PeakIsMaximum(limit, depth, ops, trace, i - 1);
      if trace[i].peak != Demand(trace[i].pool) { m := m'; }
      forall j | 0 <= j <= i && NoTake(ops, j, i) ensures Demand(trace[j].pool) <= trace[i].peak {
        if j < i { assert NoTake(ops, j, i - 1); }
      }
    } else if i > 0 {
      assert forall j :: 0 <= j < i ==> !NoTake(ops, j, i);
    }
  }

  /** The largest demand at which step `k` of a run granted a queued call; -1 if it granted none. */
  ghost function GrantedAt<R>(ops: seq<Op<R>>, trace: seq<System<R>>, k: nat): int
    requires k < |ops| && |trace| == |ops| + 1 && Stepped(ops, trace, k)
  {
    Granted(trace[k].pool, ops[k])
  }

  lemma {:induction false} GrantPeakIsMaximum<R>(limit: int, depth: int, ops: seq<Op<R>>, trace: seq<System<R>>, i: nat)
    requires IsRun(limit, depth, ops, trace) && i < |trace|
    ensures forall k :: 0 <= k < i && NoTake(ops, k, i) ==> GrantedAt(ops, trace, k) <= trace[i].grantPeak
    ensures trace[i].grantPeak == -1 || exists k :: 0 <= k < i && NoTake(ops, k, i) && GrantedAt(ops, trace, k) == trace[i].grantPeak
  {
    if i == 0 {
    } else {
      assert Stepped(ops, trace, i - 1);
      if ops[i - 1].TakeHighWater? {
        assert forall k :: 0 <= k < i ==> !NoTake(ops, k, i);
      } else {
        GrantPeakIsMaximum(limit, depth, ops, trace, i - 1);
        assert forall k :: 0 <= k < i ==> (NoTake(ops, k, i) <==> NoTake(ops, k, i - 1));
        assert NoTake(ops, i - 1, i) && trace[i].grantPeak == Max(trace[i - 1].grantPeak, GrantedAt(ops, trace, i - 1));
      }
    }
  }

  /** TakeHighWater against the peak of executing + queued since the last take, which is the demand
      in state `m`: it never reports less, and at most one more. It reports the peak itself if and
      only if no queued call was granted at the peak demand since the last take. */
  lemma HighWaterCoversPeak<R>(limit: int, depth: int, ops: seq<Op<R>>, trace: seq<System<R>>, i: nat) returns (m: nat)
    requires IsRun(limit, depth, ops, trace) && i < |trace|
    ensures m <= i && NoTake(ops, m, i)
    ensures forall j :: 0 <= j <= i && NoTake(ops, j, i) ==> Demand(trace[j].pool) <= Demand(trace[m].pool)
    ensures Demand(trace[m].pool) <= PoolModel.TakeHighWater(trace[i].pool).1 <= Demand(trace[m].pool) + 1
    ensures PoolModel.TakeHighWater(trace[i].pool).1 == Demand(trace[m].pool) <==>
              forall k :: 0 <= k < i && NoTake(ops, k, i) ==> GrantedAt(ops, trace, k) < Demand(trace[m].pool)
  {
    RunInv(limit, depth, ops, trace, i);
    m := PeakIsMaximum(limit, depth, ops, trace, i);
    GrantPeakIsMaximum(limit, depth, ops, trace, i);
    assert PoolModel.TakeHighWater(trace[i].pool).1 == Max(trace[i].peak, trace[i].grantPeak + 1);
  }

  /** Adding the first sandbox while one call is queued. */
  lemma AddServesQueued(s: Pool<nat>, target: Sandbox)
    requires s == Initial<nat>(1, 1).pool.(waiters := [Waiter(false, Nothing, Blocked)], pending := [0], highWater := 1)
    requires Usable(target)
    ensures Refs(s)
    ensures var s' := PoolModel.Add(s, target, 0);
            s'.pending == [] && s'.executing == 1 && s'.highWater == 2
  {
    PutRefs(s, target, 0);
    var p := Put(s, target, 0);
    assert p.pending == [0] && p.ready == [0] && p.executing == 0 && p.highWater == 1;
    FrontRefs(p);
    var g := GrantFront(p);
    assert g.pending == [] && g.highWater == 2 && g.executing == 1;
    assert Dispatch(p) == Dispatch(g);
  }

  lemma RunOfTwo<R>(limit: int, depth: int, a: Op<R>, b: Op<R>, s1: System<R>, s2: System<R>)
    requires var s0 := Initial<R>(limit, depth);
             Resolves(s0.pool) && Enabled(s0.pool, a) && s1 == Step(s0, a)
    requires Resolves(s1.pool) && Enabled(s1.pool, b) && s2 == Step(s1, b)
    ensures IsRun(limit, depth, [a, b], [Initial(limit, depth), s1, s2])
  {
    assert Stepped([a, b], [Initial(limit, depth), s1, s2], 0) && Stepped([a, b], [Initial(limit, depth), s1, s2], 1);
  }

  /** One call queues on the empty pool. */
  lemma ArriveQueues() returns (s1: System<nat>)
    ensures Resolves(Initial<nat>(1, 1).pool) && s1 == Step(Initial<nat>(1, 1), Arrive)
    ensures s1 == System(Initial<nat>(1, 1).pool.(waiters := [Waiter(false, Nothing, Blocked)], pending := [0], highWater := 1), 1, -1)
  {
    var s0 := Initial<nat>(1, 1);
    s1 := Step(s0, Arrive);
    assert s0.pool.pending + [0] == [0];
  }

  /** The extra one is real: granting a queued call counts it twice for an instant. */
  lemma HighWaterOvershoots() returns (ops: seq<Op<nat>>, trace: seq<System<nat>>)
    ensures IsRun(1, 1, ops, trace) && |ops| == 2 && NoTake(ops, 0, 2)
    ensures forall j :: 0 <= j <= 2 ==> Demand(trace[j].pool) <= 1
    ensures PoolModel.TakeHighWater(trace[2].pool).1 == 2
  {
    var target := Sandbox(7, 1, "a", "http");
    var s1 := ArriveQueues();
    AddServesQueued(s1.pool, target);
    var s2 := Step(s1, Add(target, 0));
    RunOfTwo(1, 1, Arrive, Add(target, 0), s1, s2);
    ops, trace := [Arrive, Add(target, 0)], [Initial(1, 1), s1, s2];
  }
}
