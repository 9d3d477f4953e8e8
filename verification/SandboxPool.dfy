/** The admission pool as the objects of `pkg/leaf/dataplane/pool.go`: each method is one
    critical section and is proved against the function of `PoolModel` that specifies it. */
module DataPlane {
  import opened PoolModel
  import opened PoolProofs
  import M = PoolModel
  import PoolLimits
  import PoolRuns

  class PooledSandbox {
    var target: Sandbox
    var inFlight: int
    var draining: bool
    var drained: Channel
    ghost var session: DrainSession

    constructor (target: Sandbox)
      ensures Contents() == Record(target, 0, false, NoChannel, NoSession)
    {
      this.target, inFlight, draining, drained := target, 0, false, NoChannel;
      session := NoSession;
    }

    ghost function Contents(): Record
      reads this
    {
      Record(target, inFlight, draining, drained, session)
    }
  }

  class SandboxPool {
    var limit: int
    var queueDepth: int
    var sandboxes: map<nat, PooledSandbox>
    var ready: seq<PooledSandbox>
    var pending: seq<nat>
    var waiters: seq<Waiter>
    var active: int
    var executing: int
    var accepted: int
    var completed: int
    var highWater: int
    var closed: bool
    /** Every lease ever granted: a result channel carries a number into this list. */
    var leases: seq<LeaseRecord<PooledSandbox>>
    /** Every sandbox ever added, and whether the code panicked. */
    ghost var all: set<PooledSandbox>
    ghost var fault: bool

    ghost function Objects(): map<PooledSandbox, Record>
      reads this`all, all
    {
      map o | o in all :: o.Contents()
    }

    ghost function State(): Pool<PooledSandbox>
      reads this, all
    {
      Pool(limit, queueDepth, sandboxes, Objects(), ready, pending, waiters, leases,
           active, executing, accepted, completed, highWater, closed, fault)
    }

    /** The mutex is free. */
    ghost predicate Valid()
      reads this, all
    {
      Inv(State())
    }

    // ---------------------------------------------------- helpers under the lock

    method RefreshReady(sandbox: PooledSandbox)
      requires sandbox in all
      modifies this`ready
      ensures State() == old(State()).(ready := Refresh(old(State()), sandbox))
    {
      var available := !sandbox.draining && sandbox.inFlight < limit;
      if available && sandbox !in ready {
        ready := ready + [sandbox];
      } else if !available {
        ready := Without(ready, sandbox);
      }
    }

    /** One assignment to `sandbox.inFlight`. */
    method AddInFlight(sandbox: PooledSandbox, delta: int)
      requires sandbox in all
      modifies sandbox`inFlight
      ensures var s := old(State());
              State() == s.(objs := s.objs[sandbox := s.objs[sandbox].(inFlight := s.objs[sandbox].inFlight + delta)])
    {
      sandbox.inFlight := sandbox.inFlight + delta;
      assert forall o :: o in all && o != sandbox ==> o.Contents() == old(o.Contents());
      assert Objects() == old(Objects())[sandbox := sandbox.Contents()];
    }

    /** The counters and the history of one more lease. */
    method Count(sandbox: PooledSandbox, w: nat)
      modifies this`executing, this`accepted, this`leases, this`highWater
      ensures var s := old(State());
              State() == s.(executing := s.executing + 1, accepted := s.accepted + 1,
                            leases := s.leases + [LeaseRecord(sandbox, w, false)],
                            highWater := Max(s.highWater, s.executing + 1 + |s.pending|))
    {
      executing := executing + 1;
      accepted := accepted + 1;
      leases := leases + [LeaseRecord(sandbox, w, false)];
      highWater := Max(highWater, executing + |pending|);
    }

    /** The pool's own bookkeeping for one more lease on `ready[0]`. */
    method Charge(w: nat)
      requires ready != [] && ready[0] in all
      modifies this`executing, this`accepted, this`leases, this`ready, this`highWater
      ensures var s := old(State());
              State() == s.(executing := s.executing + 1, accepted := s.accepted + 1,
                            leases := s.leases + [LeaseRecord(s.ready[0], w, false)],
                            highWater := Max(s.highWater, s.executing + 1 + |s.pending|),
                            ready := s.ready[1..] + if s.objs[s.ready[0]].inFlight >= s.limit then [] else [s.ready[0]])
    {
      var sandbox := ready[0];
      Count(sandbox, w);
      ready := ready[1..] + if sandbox.inFlight >= limit then [] else [sandbox];
    }

    /** Leases the front of the ready list to call `w`. */
    method AcquireLocked(w: nat) returns (sandbox: PooledSandbox)
      requires ready != [] && ready[0] in all
      modifies this, all
      ensures all == old(all) && sandbox == old(ready[0])
      ensures State() == AcquireFront(old(State()), w)
    {
      sandbox := ready[0];
      AddInFlight(sandbox, 1);
      Charge(w);
    }

    /** A send on the result channel of `w`. */
    method SendResult(w: nat, result: Result)
      requires w < |waiters|
      modifies this`waiters, this`fault
      ensures State() == Send(old(State()), w, result)
    {
      if waiters[w].sent != Nothing {
        fault := true;
      } else {
        waiters := waiters[w := waiters[w].(sent := result)];
      }
    }

    /** Fails the front waiter. */
    method FailFrontLocked()
      requires pending != [] && pending[0] < |waiters|
      modifies this`pending, this`waiters, this`fault
      ensures State() == FailFront(old(State()))
    {
      var w := pending[0];
      pending := pending[1..];
      SendResult(w, Fail);
    }

    /** Grants the front waiter the front sandbox. */
    method GrantFrontLocked()
      requires Refs(State()) && pending != [] && ready != [] && accepted == |leases|
      modifies this, all
      ensures all == old(all) && State() == GrantFront(old(State()))
    {
      assert ready[0] in ready;
      var w := pending[0];
      var sandbox := AcquireLocked(w);
      pending := pending[1..];
      SendResult(w, Grant(accepted - 1));
    }

    method DispatchLocked()
      requires Refs(State()) && accepted == |leases|
      modifies this, all
      ensures all == old(all)
      ensures State() == Dispatch(old(State()))
    {
      ghost var start := State();
      while |pending| > 0
        invariant all == old(all) && Refs(State()) && Dispatch(State()) == Dispatch(start) && accepted == |leases|
        decreases |pending|
      {
        FrontRefs(State());
        if waiters[pending[0]].cancelled {
          FailFrontLocked();
        } else if ready == [] {
          return;
        } else {
          GrantFrontLocked();
        }
      }
    }

    // -------------------------------------------------------- configuration

    constructor (limit: int, queueDepth: int)
      ensures Valid() && all == {} && State() == PoolRuns.Initial<PooledSandbox>(limit, queueDepth).pool
      ensures this.limit == if limit > 0 then limit else 200
      ensures this.queueDepth == if queueDepth > 0 then queueDepth else 10_000
    {
      this.limit, this.queueDepth := NormalizeLimit(limit), NormalizeDepth(queueDepth);
      sandboxes, ready, pending, waiters, leases, all := map[], [], [], [], [], {};
      active, executing, accepted, completed, highWater := 0, 0, 0, 0, 0;
      closed, fault := false, false;
      new;
      assert Objects() == map[];
      PoolRuns.InitialInv<PooledSandbox>(limit, queueDepth);
    }

    /** Configure's loop over the member map, in some order `ids`. */
    method RefreshMembers() returns (ghost ids: seq<nat>)
      requires Refs(State())
      modifies this`ready
      ensures MemberIds(old(State()), ids) && State() == RefreshAll(old(State()), ids)
    {
      ghost var s0 := State();
      ids := [];
      var todo := sandboxes.Keys;
      while todo != {}
        invariant todo <= s0.members.Keys && NoDup(ids) && forall id :: id in ids <==> id in s0.members && id !in todo
        invariant State() == RefreshAll(s0, ids)
        decreases todo
      {
        var id :| id in todo;
        RefreshReady(sandboxes[id]);
        RefreshAllAppend(s0, ids, id);
        ids, todo := ids + [id], todo - {id};
      }
    }

    method SetLimits(limit: int, queueDepth: int)
      modifies this`limit, this`queueDepth
      ensures State() == old(State()).(limit := limit, queueDepth := queueDepth)
    {
      this.limit, this.queueDepth := limit, queueDepth;
    }

    method ConfigureLocked(limit: int, queueDepth: int) returns (ghost ids: seq<nat>)
      requires Refs(State()) && accepted == |leases|
      modifies this, all
      ensures all == old(all) && MemberIds(old(State()), ids)
      ensures State() == M.Configure(old(State()), limit, queueDepth, ids)
    {
      SetLimits(NormalizeLimit(limit), NormalizeDepth(queueDepth));
      ids := RefreshMembers();
      DispatchLocked();
    }

    method Configure(limit: int, queueDepth: int) returns (ghost ids: seq<nat>)
      requires Valid()
      modifies this, all
      ensures all == old(all) && MemberIds(old(State()), ids)
      ensures Valid() && State() == M.Configure(old(State()), limit, queueDepth, ids)
      ensures this.limit == if limit > 0 then limit else 200
      ensures this.queueDepth == if queueDepth > 0 then queueDepth else 10_000
    {
      ghost var s := State();
      ids := ConfigureLocked(limit, queueDepth);
      ConfigureInv(s, limit, queueDepth, ids);
      PoolLimits.ConfigureWithin(s, limit, queueDepth, ids);
    }

    // ----------------------------------------------------------- membership

    /** Allocates the object of a new member. */
    method Insert(target: Sandbox) returns (sandbox: PooledSandbox)
      requires target.instanceId !in sandboxes
      modifies this
      ensures fresh(sandbox) && all == old(all) + {sandbox}
      ensures State() == Inserted(old(State()), target, sandbox)
    {
      sandbox := new PooledSandbox(target);
      sandboxes := sandboxes[target.instanceId := sandbox];
      active := active + 1;
      all := all + {sandbox};
      assert forall o :: o in old(all) ==> o.Contents() == old(o.Contents());
      assert Objects() == old(Objects())[sandbox := sandbox.Contents()];
    }

    method Retarget(sandbox: PooledSandbox, target: Sandbox)
      requires sandbox in all
      modifies sandbox`target
      ensures State() == old(State()).(objs := old(State()).objs[sandbox := old(State()).objs[sandbox].(target := target)])
    {
      sandbox.target := target;
      assert forall o :: o in all && o != sandbox ==> o.Contents() == old(o.Contents());
      assert Objects() == old(Objects())[sandbox := sandbox.Contents()];
    }

    /** The body shared by Add and by Sync's second loop. */
    method PutLocked(target: Sandbox) returns (sandbox: PooledSandbox)
      requires Refs(State())
      modifies this, all
      ensures all == old(all) + {sandbox}
      ensures if target.instanceId in old(sandboxes) then sandbox == old(sandboxes)[target.instanceId] && sandbox in old(all)
              else fresh(sandbox)
      ensures State() == Put(old(State()), target, sandbox)
    {
      ghost var s := State();
      if target.instanceId in sandboxes {
        sandbox := sandboxes[target.instanceId];
        Retarget(sandbox, target);
        assert s.members[target.instanceId := sandbox] == s.members;
      } else {
        sandbox := Insert(target);
      }
      RefreshReady(sandbox);
    }

    method AddLocked(target: Sandbox) returns (sandbox: PooledSandbox)
      requires Refs(State()) && accepted == |leases| && Usable(target) && !closed
      modifies this, all
      ensures all == old(all) + {sandbox}
      ensures if target.instanceId in old(sandboxes) then sandbox == old(sandboxes)[target.instanceId] else fresh(sandbox)
      ensures State() == M.Add(old(State()), target, sandbox)
    {
      ghost var s := State();
      var known := target.instanceId in sandboxes;
      sandbox := PutLocked(target);
      PutRefs(s, target, sandbox);
      if !known { DispatchLocked(); }
    }

    /** Add; `alloc` is the sandbox it added or retargeted, if any. */
    method Add(target: Sandbox) returns (ghost alloc: PooledSandbox?)
      requires Valid()
      modifies this, all
      ensures Valid() && (alloc == null <==> !Usable(target) || old(closed))
      ensures if alloc == null then State() == old(State()) && all == old(all)
              else && all == old(all) + {alloc} && State() == M.Add(old(State()), target, alloc)
                   && if target.instanceId in old(sandboxes) then alloc == old(sandboxes)[target.instanceId] else fresh(alloc)
    {
      if target.instanceId == 0 || target.address == "" || closed {
        return null;
      }
      ghost var s := State();
      var sandbox := AddLocked(target);
      AddInv(s, target, sandbox);
      alloc := sandbox;
    }

    method Remove(instanceId: nat)
      requires Valid()
      modifies this`ready, this`sandboxes, this`active
      ensures Valid() && State() == Forget(old(State()), instanceId)
    {
      RemoveInv(State(), instanceId);
      RemoveLocked(instanceId);
    }

    method RemoveLocked(instanceId: nat)
      requires Refs(State())
      modifies this`ready, this`sandboxes, this`active
      ensures State() == Forget(old(State()), instanceId)
    {
      if instanceId in sandboxes {
        var sandbox := sandboxes[instanceId];
        ready := Without(ready, sandbox);
        if !sandbox.draining {
          active := active - 1;
        }
        sandboxes := sandboxes - {instanceId};
      }
    }

    /** Sync's first loop. */
    method DropUnwanted(wanted: map<nat, Sandbox>) returns (ghost drop: seq<nat>)
      requires Refs(State())
      modifies this`ready, this`sandboxes, this`active
      ensures MemberIds(old(State()), drop) && State() == SyncDrop(old(State()), wanted, drop)
    {
      ghost var s0 := State();
      drop := [];
      var todo := sandboxes.Keys;
      while todo != {}
        invariant todo <= s0.members.Keys && NoDup(drop) && forall id :: id in drop <==> id in s0.members && id !in todo
        invariant State() == SyncDrop(s0, wanted, drop)
        decreases todo
      {
        var id :| id in todo;
        SyncDropAppend(s0, wanted, drop, id);
        if id !in wanted && (id in sandboxes ==> !sandboxes[id].draining) {
          RemoveLocked(id);
        }
        drop, todo := drop + [id], todo - {id};
      }
    }

    /** One iteration of Sync's second loop, at instance `id`. */
    method PutNext(wanted: map<nat, Sandbox>, id: nat, ghost s0: Pool<PooledSandbox>, ghost before: set<PooledSandbox>,
                   ghost alloc: map<nat, PooledSandbox>, ghost put: seq<nat>)
      returns (ghost alloc': map<nat, PooledSandbox>)
      requires Refs(s0) && id in wanted && wanted[id].instanceId == id && id !in put
      requires forall i :: i in put ==> i in wanted
      requires FreshSoFar(s0.members.Keys, alloc, put, before, all)
      requires State() == SyncPut(s0, wanted, alloc, put)
      requires id in sandboxes <==> id in s0.members
      modifies this, all
      ensures forall o :: o in all ==> o in old(all) || fresh(o)
      ensures sandboxes.Keys == old(sandboxes).Keys + {id}
      ensures FreshSoFar(s0.members.Keys, alloc', put + [id], before, all)
      ensures State() == SyncPut(s0, wanted, alloc', put + [id])
    {
      var sandbox := PutLocked(wanted[id]);
      SyncPutExtend(s0, wanted, alloc, put, id, sandbox);
      FreshExtend(s0.members.Keys, alloc, put, before, old(all), id, sandbox);
      alloc' := alloc[id := sandbox];
    }

    /** Sync's second loop. */
    method PutWanted(wanted: map<nat, Sandbox>) returns (ghost put: seq<nat>, ghost alloc: map<nat, PooledSandbox>)
      requires Refs(State()) && forall id :: id in wanted ==> wanted[id].instanceId == id
      modifies this, all
      ensures forall id :: id in put <==> id in wanted
      ensures FreshSoFar(old(sandboxes).Keys, alloc, put, old(all), all)
      ensures forall o :: o in all ==> o in old(all) || fresh(o)
      ensures State() == SyncPut(old(State()), wanted, alloc, put)
    {
      ghost var s0 := State();
      put, alloc := [], map[];
      var todo := wanted.Keys;
      while todo != {}
        invariant todo <= wanted.Keys && forall id :: id in put <==> id in wanted && id !in todo
        invariant FreshSoFar(s0.members.Keys, alloc, put, old(all), all)
        invariant forall o :: o in all ==> o in old(all) || fresh(o)
        invariant forall id :: id in todo ==> (id in sandboxes <==> id in s0.members)
        invariant State() == SyncPut(s0, wanted, alloc, put)
        decreases todo
      {
        var id :| id in todo;
        alloc := PutNext(wanted, id, s0, old(all), alloc, put);
        put, todo := put + [id], todo - {id};
      }
    }

    /** The map Sync builds from its argument. */
    static method BuildWanted(targets: seq<Sandbox>) returns (wanted: map<nat, Sandbox>)
      ensures wanted == Wanted(targets)
    {
      wanted := map[];
      for i := 0 to |targets|
        invariant wanted == Wanted(targets[..i])
      {
        assert targets[..i + 1][..i] == targets[..i];
        if targets[i].instanceId != 0 && targets[i].address != "" {
          wanted := wanted[targets[i].instanceId := targets[i]];
        }
      }
      assert targets[..|targets|] == targets;
    }

    method SyncLocked(targets: seq<Sandbox>) returns (ghost drop: seq<nat>, ghost put: seq<nat>, ghost alloc: map<nat, PooledSandbox>)
      requires Refs(State()) && accepted == |leases| && !closed
      modifies this, all
      ensures forall o :: o in all ==> o in old(all) || fresh(o)
      ensures SyncArgs(old(State()), targets, drop, put, alloc)
      ensures State() == M.Sync(old(State()), targets, drop, put, alloc)
    {
      ghost var s := State();
      var wanted := BuildWanted(targets);
      drop, put, alloc := ReplaceMembers(wanted);
      SyncDropKeeps(s, wanted, drop);
      SyncPutKeeps(SyncDrop(s, wanted, drop), wanted, alloc, put);
      DispatchLocked();
    }

    /** Both loops of Sync. */
    method ReplaceMembers(wanted: map<nat, Sandbox>) returns (ghost drop: seq<nat>, ghost put: seq<nat>, ghost alloc: map<nat, PooledSandbox>)
      requires Refs(State()) && forall id :: id in wanted ==> wanted[id].instanceId == id
      modifies this, all
      ensures forall o :: o in all ==> o in old(all) || fresh(o)
      ensures MemberIds(old(State()), drop) && NoDup(put) && (forall id :: id in put <==> id in wanted)
      ensures (forall id :: id in put ==> id in alloc) && Fresh(old(State()), alloc, put)
      ensures State() == SyncPut(SyncDrop(old(State()), wanted, drop), wanted, alloc, put)
    {
      ghost var s := State();
      drop := DropUnwanted(wanted);
      SyncDropKeeps(s, wanted, drop);
      put, alloc := PutWanted(wanted);
    }

    method Sync(targets: seq<Sandbox>) returns (ghost drop: seq<nat>, ghost put: seq<nat>, ghost alloc: map<nat, PooledSandbox>)
      requires Valid()
      modifies this, all
      ensures Valid()
      ensures old(closed) ==> State() == old(State()) && all == old(all)
      ensures !old(closed) ==> SyncArgs(old(State()), targets, drop, put, alloc)
                               && State() == M.Sync(old(State()), targets, drop, put, alloc)
    {
      drop, put, alloc := [], [], map[];
      if !closed {
        ghost var s := State();
        drop, put, alloc := SyncLocked(targets);
        SyncInv(s, targets, drop, put, alloc);
      }
    }

    // --------------------------------------------------------------- drains

    /** The assignments Drain, restore and finish make to one sandbox. */
    method SetDrain(sandbox: PooledSandbox, draining: bool, drained: Channel, ghost session: DrainSession)
      requires sandbox in all
      modifies sandbox`draining, sandbox`drained, sandbox`session
      ensures var s := old(State());
              State() == s.(objs := s.objs[sandbox := s.objs[sandbox].(draining := draining, drained := drained, session := session)])
    {
      sandbox.draining, sandbox.drained, sandbox.session := draining, drained, session;
      assert forall o :: o in all && o != sandbox ==> o.Contents() == old(o.Contents());
      assert Objects() == old(Objects())[sandbox := sandbox.Contents()];
    }

    /** Takes a member off the ready list and makes its channel. */
    method StartDraining(sandbox: PooledSandbox)
      requires sandbox in all
      modifies this`active, this`ready, sandbox
      ensures var s := old(State());
              var o := s.objs[sandbox];
              State() == s.(ready := Without(s.ready, sandbox), active := s.active - 1,
                            objs := s.objs[sandbox := o.(draining := true, session := Waiting,
                                                         drained := if o.inFlight == 0 then Closed else Open)])
    {
      SetDrain(sandbox, true, if sandbox.inFlight == 0 then Closed else Open, Waiting);
      active := active - 1;
      ready := Without(ready, sandbox);
    }

    method DrainLocked(instanceId: nat) returns (start: DrainStart, sandbox: PooledSandbox?)
      requires Refs(State())
      modifies this, all
      ensures all == old(all) && State() == DrainBegin(old(State()), instanceId)
      ensures start == DrainAdmission(old(State()), instanceId)
      ensures sandbox == if start == Started then old(sandboxes)[instanceId] else null
    {
      sandbox := null;
      if closed { return DrainClosed, null; }
      if instanceId !in sandboxes || sandboxes[instanceId].draining { return NoSuchSandbox, null; }
      start, sandbox := Started, sandboxes[instanceId];
      StartDraining(sandbox);
    }

    /** Drain up to its wait: it refuses a closed pool, and an unknown or draining sandbox. */
    method Drain(instanceId: nat) returns (start: DrainStart, sandbox: PooledSandbox?)
      requires Valid()
      modifies this, all
      ensures Valid() && all == old(all) && State() == DrainBegin(old(State()), instanceId)
      ensures start == DrainAdmission(old(State()), instanceId)
      ensures sandbox == if start == Started then old(sandboxes)[instanceId] else null
    {
      DrainBeginInv(State(), instanceId);
      start, sandbox := DrainLocked(instanceId);
    }

    /** The goroutine in Drain proceeds past its wait on the closed channel. */
    method DrainReturned(sandbox: PooledSandbox)
      requires Valid() && sandbox in all && sandbox.drained == Closed
      modifies sandbox
      ensures Valid() && State() == M.DrainReturn(old(State()), sandbox)
    {
      SessionInv(State(), sandbox, Returned);
      SetDrain(sandbox, sandbox.draining, sandbox.drained, Returned);
    }

    /** restore, and finish(false). */
    method Restore(sandbox: PooledSandbox)
      requires Valid() && sandbox in all
      modifies this, all
      ensures Valid() && all == old(all) && State() == M.Restore(old(State()), sandbox)
    {
      ghost var s := State();
      RestoreInv(s, sandbox);
      RestoreLocked(sandbox);
    }

    method ReadmitLocked(sandbox: PooledSandbox)
      requires sandbox in all
      modifies this`active, this`ready, sandbox
      ensures var s := old(State());
              State() == Readmit(s.(objs := s.objs[sandbox := s.objs[sandbox].(session := NoSession)]), sandbox)
    {
      SetDrain(sandbox, false, NoChannel, NoSession);
      Activate();
      RefreshReady(sandbox);
    }

    method Activate()
      modifies this`active
      ensures State() == old(State()).(active := old(State()).active + 1)
    {
      active := active + 1;
    }

    method RestoreLocked(sandbox: PooledSandbox)
      requires Refs(State()) && accepted == |leases| && sandbox in all
      modifies this, all
      ensures all == old(all) && State() == M.Restore(old(State()), sandbox)
    {
      var id := sandbox.target.instanceId;
      if id !in sandboxes || sandboxes[id] != sandbox || !sandbox.draining {
        SetDrain(sandbox, sandbox.draining, sandbox.drained, NoSession);
      } else {
        ReadmitLocked(sandbox);
        DispatchLocked();
      }
    }

    method FinishLocked(sandbox: PooledSandbox)
      requires sandbox in all
      modifies this`sandboxes, sandbox
      ensures State() == M.FinishStopped(old(State()), sandbox)
    {
      var id := sandbox.target.instanceId;
      var drop := id in sandboxes && sandboxes[id] == sandbox && sandbox.draining;
      SetDrain(sandbox, sandbox.draining, sandbox.drained, NoSession);
      if drop {
        sandboxes := sandboxes - {id};
      }
    }

    /** finish(true). */
    method FinishStopped(sandbox: PooledSandbox)
      requires Valid() && sandbox in all
      modifies this`sandboxes, sandbox
      ensures Valid() && State() == M.FinishStopped(old(State()), sandbox)
    {
      FinishStoppedInv(State(), sandbox);
      FinishLocked(sandbox);
    }

    // ------------------------------------------------------------- requests

    /** Acquire up to its wait: `w` is the call's place in arrival order. */
    method Acquire() returns (admission: Admission, w: nat, sandbox: PooledSandbox?)
      requires Valid()
      modifies this, all
      ensures Valid() && all == old(all) && State() == Arrive(old(State()))
      ensures admission == (if old(closed) then PoolClosed
                            else if old(pending) == [] && old(ready) != [] then Served
                            else if |old(pending)| >= queueDepth then QueueFull
                            else Queued)
      ensures w == |old(waiters)| && (sandbox != null <==> admission == Served)
      ensures admission == Served ==> sandbox == old(ready)[0] == leases[|leases| - 1].sandbox
    {
      ArriveInv(State());
      admission, w, sandbox := AcquireBegin();
    }

    method AcquireBegin() returns (admission: Admission, w: nat, sandbox: PooledSandbox?)
      requires Refs(State()) && accepted == |leases|
      modifies this, all
      ensures all == old(all) && State() == Arrive(old(State()))
      ensures admission == Admit(old(State())) && w == |old(waiters)|
      ensures sandbox != null <==> admission == Served
      ensures admission == Served ==> sandbox == leases[|leases| - 1].sandbox
    {
      w, sandbox := |waiters|, null;
      if closed {
        admission := PoolClosed;
      } else if |pending| == 0 && ready != [] {
        admission := Served;
        assert ready[0] in ready;
        sandbox := AcquireLocked(w);
        waiters := waiters + [Waiter(false, Nothing, Leased(accepted - 1))];
      } else if |pending| >= queueDepth {
        admission := QueueFull;
      } else {
        admission := Queued;
        Enqueue();
      }
    }

    method Enqueue()
      modifies this`waiters, this`pending, this`highWater
      ensures var s := old(State());
              State() == s.(waiters := s.waiters + [Waiter(false, Nothing, Blocked)],
                            pending := s.pending + [|s.waiters|],
                            highWater := Max(s.highWater, s.executing + |s.pending| + 1))
    {
      pending := pending + [|waiters|];
      waiters := waiters + [Waiter(false, Nothing, Blocked)];
      highWater := Max(highWater, executing + |pending|);
    }

    /** A release as the sandbox sees it; `again` if its channel would be closed twice. */
    method Leave(sandbox: PooledSandbox) returns (again: bool)
      requires sandbox in all
      modifies sandbox`inFlight, sandbox`drained
      ensures var s := old(State());
              var o := s.objs[sandbox].(inFlight := s.objs[sandbox].inFlight - 1);
              var closing := !s.closed && o.draining && o.inFlight == 0 && o.drained != NoChannel;
              && State() == s.(objs := s.objs[sandbox := if closing then o.(drained := Closed) else o])
              && again == (closing && o.drained == Closed)
    {
      again := false;
      sandbox.inFlight := sandbox.inFlight - 1;
      if !closed && sandbox.draining && sandbox.inFlight == 0 && sandbox.drained != NoChannel {
        again := sandbox.drained == Closed;
        sandbox.drained := Closed;
      }
      assert forall o :: o in all && o != sandbox ==> o.Contents() == old(o.Contents());
      assert Objects() == old(Objects())[sandbox := sandbox.Contents()];
    }

    /** A release as the pool's counters see it. */
    method Settle(k: nat, again: bool)
      requires k < |leases|
      modifies this`executing, this`completed, this`leases, this`fault
      ensures var s := old(State());
              State() == s.(executing := s.executing - 1, completed := s.completed + 1, fault := s.fault || again,
                            leases := s.leases[k := s.leases[k].(released := true)])
    {
      executing := executing - 1;
      completed := completed + 1;
      leases := leases[k := leases[k].(released := true)];
      fault := fault || again;
    }

    method EndLeaseLocked(sandbox: PooledSandbox, k: nat)
      requires k < |leases| && leases[k].sandbox == sandbox && sandbox in all
      modifies this`executing, this`completed, this`leases, this`fault, sandbox
      ensures State() == EndLease(old(State()), k)
    {
      var again := Leave(sandbox);
      Settle(k, again);
    }

    method ReleaseLocked(sandbox: PooledSandbox, k: nat)
      requires Refs(State()) && accepted == |leases| && k < |leases| && leases[k].sandbox == sandbox && sandbox in all
      modifies this, all
      ensures all == old(all) && State() == M.Release(old(State()), k)
    {
      if sandbox.inFlight <= 0 {
        fault := true;
        return;
      }
      var id := sandbox.target.instanceId;
      var serve := !closed && !sandbox.draining && id in sandboxes && sandboxes[id] == sandbox;
      EndLeaseLocked(sandbox, k);
      if serve {
        RefreshReady(sandbox);
        DispatchLocked();
      }
    }

    /** The pool's release; the lease must be outstanding and its call returned. */
    method Release(sandbox: PooledSandbox, k: nat)
      requires Valid() && k < |leases| && leases[k].sandbox == sandbox && !leases[k].released
      requires leases[k].owner < |waiters| && waiters[leases[k].owner].phase != Blocked
      modifies this, all
      ensures Valid() && all == old(all) && State() == M.Release(old(State()), k)
    {
      ReleaseInv(State(), k);
      ReleaseLocked(sandbox, k);
    }

    method Return(w: nat, phase: CallPhase)
      requires w < |waiters|
      modifies this`waiters
      ensures State() == old(State()).(waiters := old(State()).waiters[w := old(State()).waiters[w].(phase := phase)])
    {
      waiters := waiters[w := waiters[w].(phase := phase)];
    }

    ghost predicate ResultResolves(w: nat)
      reads this, all
    {
      && Refs(State()) && accepted == |leases| && w < |waiters|
      && (waiters[w].sent.Grant? ==> waiters[w].sent.lease < |leases| && leases[waiters[w].sent.lease].sandbox in all)
    }

    method ReceiveLocked(w: nat)
      requires ResultResolves(w)
      modifies this, all
      ensures all == old(all) && State() == M.Receive(old(State()), w)
    {
      var result := waiters[w].sent;
      if result.Grant? && waiters[w].cancelled {
        Return(w, Errored);
        ReleaseLocked(leases[result.lease].sandbox, result.lease);
      } else if result.Grant? {
        Return(w, Leased(result.lease));
      } else {
        Return(w, Errored);
      }
    }

    /** Acquire receives its result; a grant that comes after cancellation is given back. */
    method Receive(w: nat)
      requires Valid() && w < |waiters| && waiters[w].phase == Blocked && waiters[w].sent != Nothing
      modifies this, all
      ensures ReceivableIn(old(State()), w)
      ensures Valid() && all == old(all) && State() == M.Receive(old(State()), w)
    {
      ReceiveInv(State(), w);
      ReceiveLocked(w);
    }

    method WithdrawLocked(w: nat)
      requires ResultResolves(w)
      modifies this, all
      ensures all == old(all) && State() == M.Withdraw(old(State()), w)
    {
      if w in pending {
        Unqueue(w);
      } else {
        var result := waiters[w].sent;
        Return(w, Errored);
        if result.Grant? {
          ReleaseLocked(leases[result.lease].sandbox, result.lease);
        }
      }
    }

    /** Acquire wakes up on ctx.Done: it leaves the queue or gives its grant back. */
    method Withdraw(w: nat)
      requires Valid() && w < |waiters| && waiters[w].phase == Blocked
      modifies this, all
      ensures ReceivableIn(old(State()), w)
      ensures Valid() && all == old(all) && State() == M.Withdraw(old(State()), w)
    {
      WithdrawInv(State(), w);
      WithdrawLocked(w);
    }

    method Unqueue(w: nat)
      requires w in pending && w < |waiters|
      modifies this`pending, this`waiters
      ensures var s := old(State());
              State() == s.(pending := Without(s.pending, w), waiters := s.waiters[w := s.waiters[w].(phase := Errored)])
    {
      pending := Without(pending, w);
      waiters := waiters[w := waiters[w].(phase := Errored)];
    }

    method Close()
      requires Valid()
      modifies this`closed, this`ready, this`pending, this`waiters, this`fault
      ensures Valid() && closed && State() == M.Close(old(State()))
    {
      CloseInv(State());
      CloseLocked();
    }

    method CloseLocked()
      requires Refs(State())
      modifies this`closed, this`ready, this`pending, this`waiters, this`fault
      ensures State() == M.Close(old(State()))
    {
      if !closed {
        closed, ready := true, [];
        FailPending();
      }
    }

    method FailPending()
      requires forall i :: 0 <= i < |pending| ==> pending[i] < |waiters|
      modifies this`pending, this`waiters, this`fault
      ensures State() == FailAll(old(State()))
    {
      ghost var start := State();
      while |pending| > 0
        invariant forall i :: 0 <= i < |pending| ==> pending[i] < |waiters|
        invariant FailAll(State()) == FailAll(start)
        decreases |pending|
      {
        FailFrontLocked();
      }
    }

    // -------------------------------------------------------------- reading

    method TakeHighWater() returns (high: int)
      requires Valid()
      modifies this`highWater
      ensures Valid() && (State(), high) == M.TakeHighWater(old(State()))
    {
      var current := executing + |pending|;
      high := Max(highWater, current);
      highWater := current;
    }

    /** Snapshot's loop over the members. */
    method CountFree() returns (available: int)
      requires Refs(State())
      ensures available == FreeSlots(State(), sandboxes.Keys)
    {
      available := 0;
      var todo := sandboxes.Keys;
      ghost var s := State();
      while todo != {}
        invariant todo <= sandboxes.Keys
        invariant available + FreeSlots(s, todo) == FreeSlots(s, sandboxes.Keys)
        decreases todo
      {
        var id :| id in todo;
        FreeSlotsSplit(s, todo, id);
        var sandbox := sandboxes[id];
        if !sandbox.draining && sandbox.inFlight < limit {
          available := available + (limit - sandbox.inFlight);
        }
        todo := todo - {id};
      }
    }

    /** Snapshot's view of the pool. Capacity is advertised exactly when a sandbox is
        ready, hence never while a request is queued. */
    method Snapshot() returns (readyInstances: int, available: int, inUse: int, queued: int, admitted: int, finished: int, mark: int)
      requires Valid()
      ensures readyInstances == active && inUse == executing && queued == |pending|
      ensures admitted == accepted && finished == completed && mark == highWater && inUse == admitted - finished
      ensures available == FreeSlots(State(), sandboxes.Keys)
      ensures !closed ==> available >= 0 && (available > 0 <==> ready != [])
      ensures queued > 0 ==> available == 0
    {
      available := CountFree();
      if !closed { FreeSlotsReady(State(), sandboxes.Keys); }
      readyInstances, inUse, queued := active, executing, |pending|;
      admitted, finished, mark := accepted, completed, highWater;
    }
  }

  /** A reserved slot. Release is safe to call more than once. */
  class Lease {
    const pool: SandboxPool
    const sandbox: PooledSandbox
    var released: bool
    /** The call it was granted to, and its number in the pool's history. */
    ghost const owner: nat
    const number: nat

    ghost predicate Valid()
      reads this, pool, pool.all
    {
      && pool.Valid()
      && owner < |pool.waiters| && pool.waiters[owner].phase == Leased(number)
      && number < |pool.leases| && pool.leases[number] == LeaseRecord(sandbox, owner, released)
    }

    constructor (pool: SandboxPool, sandbox: PooledSandbox, ghost owner: nat, number: nat)
      requires pool.Valid() && owner < |pool.waiters| && pool.waiters[owner].phase == Leased(number)
      requires number < |pool.leases| && pool.leases[number] == LeaseRecord(sandbox, owner, false)
      ensures Valid() && this.pool == pool && this.sandbox == sandbox && !released
    {
      this.pool, this.sandbox, released := pool, sandbox, false;
      this.owner, this.number := owner, number;
    }

    /** Only the first call releases the slot; every other call changes nothing. */
    method Release()
      requires Valid()
      modifies this`released, pool, pool.all
      ensures released && pool.Valid()
      ensures pool.State() == if old(released) then old(pool.State()) else M.Release(old(pool.State()), number)
    {
      if !released {
        released := true;
        assert pool.State() == old(pool.State());
        pool.Release(sandbox, number);
      }
    }
  }
}
