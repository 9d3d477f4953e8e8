/** Value-level model of the admission pool of `pkg/leaf/dataplane/pool.go`.

    `Pool<R>` is the state guarded by the pool's mutex; `R` is the type of sandbox
    references, so that sandboxes removed from the pool keep their identity while
    leases on them are outstanding. Every function below is one critical section
    (or one helper that runs inside one). `fault` records the three ways the code
    could panic or block while holding the lock.
 */
module PoolModel {

  const DEFAULT_SANDBOX_CONCURRENCY := 200
  const DEFAULT_QUEUE_DEPTH := 10_000

  /** The immutable request target of one sandbox. */
  datatype Sandbox = Sandbox(instanceId: nat, workerId: nat, address: string, protocol: string)

  /** The `drained` channel: absent, open, or closed. */
  datatype Channel = NoChannel | Open | Closed

  /** The goroutine that called Drain: waiting for leases, or holding the finish function. */
  datatype DrainSession = NoSession | Waiting | Returned

  datatype Record = Record(
    target: Sandbox,
    inFlight: int,
    draining: bool,
    drained: Channel,
    session: DrainSession)

  datatype LeaseRecord<R> = LeaseRecord(sandbox: R, owner: nat, released: bool)

  /** What was sent on a waiter's one-slot result channel, if anything. */
  datatype Result = Nothing | Grant(lease: nat) | Fail

  datatype CallPhase = Blocked | Leased(lease: nat) | Errored

  /** One Acquire call that was admitted: served at once or queued. */
  datatype Waiter = Waiter(cancelled: bool, sent: Result, phase: CallPhase)
  {
    predicate Granted() { sent.Grant? || phase.Leased? }
  }

  datatype Pool<R> = Pool(
    limit: int,
    queueDepth: int,
    members: map<nat, R>,
    objs: map<R, Record>,
    ready: seq<R>,
    pending: seq<nat>,
    waiters: seq<Waiter>,
    leases: seq<LeaseRecord<R>>,
    active: int,
    executing: int,
    accepted: int,
    completed: int,
    highWater: int,
    closed: bool,
    fault: bool)

  // ---------------------------------------------------------------- sequences

  ghost predicate NoDup<T>(q: seq<T>) {
    forall i, j :: 0 <= i < j < |q| ==> q[i] != q[j]
  }

  ghost predicate Increasing(q: seq<nat>) {
    forall i, j :: 0 <= i < j < |q| ==> q[i] < q[j]
  }

  /** Unlinks the first occurrence of `x`. */
  function Without<T(==)>(q: seq<T>, x: T): (r: seq<T>)
    ensures forall y :: y in r ==> y in q
  {
    if q == [] then []
    else if q[0] == x then q[1..]
    else [q[0]] + Without(q[1..], x)
  }

  lemma {:induction false} WithoutIsSlice<T>(q: seq<T>, x: T) returns (k: nat)
    ensures x in q ==> k < |q| && q[k] == x && Without(q, x) == q[..k] + q[k + 1..]
    ensures x !in q ==> Without(q, x) == q
  {
    k := 0;
    if q == [] || q[0] == x {
    } else {
      var j := WithoutIsSlice(q[1..], x);
      k := j + 1;
      assert x in q <==> x in q[1..];
      if x in q {
        assert q[..k] == [q[0]] + q[1..][..j] && q[k + 1..] == q[1..][j + 1..];
      } else {
        assert q == [q[0]] + q[1..];
      }
    }
  }

  lemma WithoutMembers<T>(q: seq<T>, x: T)
    requires NoDup(q)
    ensures NoDup(Without(q, x))
    ensures forall y :: y in Without(q, x) <==> y in q && y != x
  {
    var k := WithoutIsSlice(q, x);
  }

  lemma WithoutIncreasing(q: seq<nat>, x: nat)
    requires Increasing(q)
    ensures Increasing(Without(q, x))
    ensures forall y :: y in Without(q, x) <==> y in q && y != x
    ensures x !in q ==> Without(q, x) == q
  {
    var k := WithoutIsSlice(q, x);
  }

  // ------------------------------------------------------------------- leases

  /** The sandboxes of the leases that are still outstanding, with multiplicity. */
  ghost function Outstanding<R>(leases: seq<LeaseRecord<R>>): multiset<R> {
    if leases == [] then multiset{}
    else
      var last := leases[|leases| - 1];
      Outstanding(leases[..|leases| - 1]) + (if last.released then multiset{} else multiset{last.sandbox})
  }

  lemma OutstandingAppend<R>(leases: seq<LeaseRecord<R>>, l: LeaseRecord<R>)
    requires !l.released
    ensures Outstanding(leases + [l]) == Outstanding(leases) + multiset{l.sandbox}
  {
    assert (leases + [l])[..|leases|] == leases;
  }

  lemma {:induction false} OutstandingRelease<R>(leases: seq<LeaseRecord<R>>, k: nat)
    requires k < |leases| && !leases[k].released
    ensures leases[k].sandbox in Outstanding(leases)
    ensures Outstanding(leases[k := leases[k].(released := true)]) == Outstanding(leases) - multiset{leases[k].sandbox}
  {
    var n := |leases| - 1;
    var after := leases[k := leases[k].(released := true)];
    if k == n {
      assert after[..n] == leases[..n];
    } else {
      OutstandingRelease(leases[..n], k);
      assert after[..n] == leases[..n][k := leases[k].(released := true)];
    }
  }

  // --------------------------------------------------------- critical sections

  function Max(a: int, b: int): int { if a < b then b else a }

  /** Every reference held by the pool resolves. */
  ghost predicate Refs<R>(s: Pool<R>) {
    && (forall id :: id in s.members ==> s.members[id] in s.objs)
    && (forall r :: r in s.ready ==> r in s.objs)
    && (forall i :: 0 <= i < |s.pending| ==> s.pending[i] < |s.waiters|)
  }

  predicate IsMember<R(==)>(members: map<nat, R>, objs: map<R, Record>, r: R)
    requires r in objs
  {
    var id := objs[r].target.instanceId;
    id in members && members[id] == r
  }

  /** The ready list after unlinking `r`, or after bringing `r`'s place up to date. */
  function Refresh<R(==)>(s: Pool<R>, r: R): (ready: seq<R>)
    requires r in s.objs
    ensures forall x :: x in ready ==> x in s.ready || x == r
  {
    var available := !s.objs[r].draining && s.objs[r].inFlight < s.limit;
    if !available then Without(s.ready, r)
    else if r in s.ready then s.ready
    else s.ready + [r]
  }

  /** Leases the sandbox at the front of the ready list to call `w`. */
  function AcquireFront<R(==)>(s: Pool<R>, w: nat): (s': Pool<R>)
    requires s.ready != [] && s.ready[0] in s.objs
    ensures s'.objs.Keys == s.objs.Keys
    ensures forall x :: x in s'.ready ==> x in s.ready
  {
    var r := s.ready[0];
    var o := s.objs[r].(inFlight := s.objs[r].inFlight + 1);
    s.(objs := s.objs[r := o], executing := s.executing + 1, accepted := s.accepted + 1,
       leases := s.leases + [LeaseRecord(r, w, false)],
       highWater := Max(s.highWater, s.executing + 1 + |s.pending|),
       ready := s.ready[1..] + if o.inFlight >= s.limit then [] else [r])
  }

  /** A send on the waiter's one-slot channel; a second send would block under the lock. */
  function Send<R>(s: Pool<R>, w: nat, result: Result): (s': Pool<R>)
    requires w < |s.waiters|
  {
    if s.waiters[w].sent != Nothing then s.(fault := true)
    else s.(waiters := s.waiters[w := s.waiters[w].(sent := result)])
  }

  /** Grants the front waiter the front sandbox. */
  function GrantFront<R(==)>(s: Pool<R>): (s': Pool<R>)
    requires Refs(s) && s.pending != [] && s.ready != []
  {
    var w := s.pending[0];
    Send(AcquireFront(s, w).(pending := s.pending[1..]), w, Grant(|s.leases|))
  }

  /** Fails the front waiter, whose context is already done. */
  function FailFront<R>(s: Pool<R>): (s': Pool<R>)
    requires s.pending != [] && s.pending[0] < |s.waiters|
  {
    Send(s.(pending := s.pending[1..]), s.pending[0], Fail)
  }

  lemma FrontRefs<R>(s: Pool<R>)
    requires Refs(s) && s.pending != []
    ensures Refs(FailFront(s))
    ensures s.ready != [] ==> Refs(GrantFront(s))
  {
  }

  /** The dispatch loop: serves waiters in order while a sandbox is ready. */
  ghost function Dispatch<R>(s: Pool<R>): (s': Pool<R>)
    requires Refs(s)
    ensures Refs(s')
    decreases |s.pending|
  {
    if s.pending == [] then s
    else
      FrontRefs(s);
      if s.waiters[s.pending[0]].cancelled then Dispatch(FailFront(s))
      else if s.ready == [] then s
      else Dispatch(GrantFront(s))
  }

  function NormalizeLimit(limit: int): (r: int)
    ensures r > 0
  {
    if limit <= 0 then DEFAULT_SANDBOX_CONCURRENCY else limit
  }

  function NormalizeDepth(depth: int): (r: int)
    ensures r > 0
  {
    if depth <= 0 then DEFAULT_QUEUE_DEPTH else depth
  }

  ghost predicate MemberIds<R>(s: Pool<R>, ids: seq<nat>) {
    NoDup(ids) && forall id :: id in ids <==> id in s.members
  }

  /** Refreshes the members `ids`, in that order. */
  ghost function RefreshAll<R>(s: Pool<R>, ids: seq<nat>): (s': Pool<R>)
    requires Refs(s) && forall id :: id in ids ==> id in s.members
    ensures Refs(s') && s' == s.(ready := s'.ready)
    decreases |ids|
  {
    if ids == [] then s
    else
      RefreshAll(s.(ready := Refresh(s, s.members[ids[0]])), ids[1..])
  }

  /** Configure; `ids` is the order in which the member map was iterated. */
  ghost function Configure<R>(s: Pool<R>, limit: int, depth: int, ids: seq<nat>): (s': Pool<R>)
    requires Refs(s) && MemberIds(s, ids)
  {
    Dispatch(RefreshAll(s.(limit := NormalizeLimit(limit), queueDepth := NormalizeDepth(depth)), ids))
  }

  predicate Usable(target: Sandbox) {
    target.instanceId != 0 && target.address != ""
  }

  /** Inserts or retargets one sandbox; `alloc` is the object allocated for a new one. */
  function Put<R(==)>(s: Pool<R>, target: Sandbox, alloc: R): (s': Pool<R>)
    requires target.instanceId in s.members ==> s.members[target.instanceId] in s.objs
  {
    var known := target.instanceId in s.members;
    var r := if known then s.members[target.instanceId] else alloc;
    var s1 := s.(objs := s.objs[r := if known then s.objs[r].(target := target)
                                     else Record(target, 0, false, NoChannel, NoSession)],
                 members := s.members[target.instanceId := r],
                 active := if known then s.active else s.active + 1);
    s1.(ready := Refresh(s1, r))
  }

  lemma PutRefs<R>(s: Pool<R>, target: Sandbox, alloc: R)
    requires Refs(s)
    ensures Refs(Put(s, target, alloc))
    ensures alloc in s.objs || target.instanceId in s.members || alloc in Put(s, target, alloc).objs
  {
  }

  ghost function Add<R>(s: Pool<R>, target: Sandbox, alloc: R): (s': Pool<R>)
    requires Refs(s)
  {
    if !Usable(target) || s.closed then s
    else
      PutRefs(s, target, alloc);
      if target.instanceId in s.members then Put(s, target, alloc) else Dispatch(Put(s, target, alloc))
  }

  /** Remove: forgets a member; its outstanding leases stay counted. */
  function Forget<R(==)>(s: Pool<R>, id: nat): (s': Pool<R>)
    requires Refs(s)
  {
    if id !in s.members then s
    else
      var r := s.members[id];
      s.(ready := Without(s.ready, r), members := s.members - {id},
         active := if s.objs[r].draining then s.active else s.active - 1)
  }

  lemma ForgetRefs<R>(s: Pool<R>, id: nat)
    requires Refs(s)
    ensures Refs(Forget(s, id))
  {
  }

  /** The targets Sync keeps, by instance; a later duplicate wins. */
  function Wanted(targets: seq<Sandbox>): (m: map<nat, Sandbox>)
    ensures forall id :: id in m ==> m[id].instanceId == id && Usable(m[id])
  {
    if targets == [] then map[]
    else
      var last := targets[|targets| - 1];
      var m := Wanted(targets[..|targets| - 1]);
      if Usable(last) then m[last.instanceId := last] else m
  }

  /** Sync's first loop: drops members that are neither wanted nor draining. */
  ghost function SyncDrop<R>(s: Pool<R>, wanted: map<nat, Sandbox>, ids: seq<nat>): (s': Pool<R>)
    requires Refs(s)
    ensures Refs(s')
    decreases |ids|
  {
    if ids == [] then s
    else
      ForgetRefs(s, ids[0]);
      var keep := ids[0] in wanted || (ids[0] in s.members && s.objs[s.members[ids[0]]].draining);
      SyncDrop(if keep then s else Forget(s, ids[0]), wanted, ids[1..])
  }

  /** Sync's second loop: inserts or retargets every wanted sandbox. */
  ghost function SyncPut<R>(s: Pool<R>, wanted: map<nat, Sandbox>, alloc: map<nat, R>, ids: seq<nat>): (s': Pool<R>)
    requires Refs(s) && forall id :: id in ids ==> id in wanted && id in alloc
    ensures Refs(s')
    decreases |ids|
  {
    if ids == [] then s
    else
      PutRefs(s, wanted[ids[0]], alloc[ids[0]]);
      SyncPut(Put(s, wanted[ids[0]], alloc[ids[0]]), wanted, alloc, ids[1..])
  }

  /** The members that Sync inserts get new, distinct objects. */
  ghost predicate Fresh<R>(s: Pool<R>, alloc: map<nat, R>, put: seq<nat>)
    requires forall id :: id in put ==> id in alloc
  {
    && (forall id :: id in put && id !in s.members ==> alloc[id] !in s.objs)
    && (forall i, j :: i in put && j in put && i != j && i !in s.members && j !in s.members ==> alloc[i] != alloc[j])
  }

  ghost predicate SyncArgs<R>(s: Pool<R>, targets: seq<Sandbox>, drop: seq<nat>, put: seq<nat>, alloc: map<nat, R>) {
    && MemberIds(s, drop)
    && NoDup(put) && (forall id :: id in put <==> id in Wanted(targets))
    && (forall id :: id in put ==> id in alloc)
    && Fresh(s, alloc, put)
  }

  /** Sync; `drop` and `put` are the orders in which the two maps were iterated. */
  ghost function Sync<R>(s: Pool<R>, targets: seq<Sandbox>, drop: seq<nat>, put: seq<nat>, alloc: map<nat, R>): (s': Pool<R>)
    requires Refs(s) && SyncArgs(s, targets, drop, put, alloc)
  {
    if s.closed then s
    else
      var wanted := Wanted(targets);
      Dispatch(SyncPut(SyncDrop(s, wanted, drop), wanted, alloc, put))
  }

  datatype DrainStart = Started | DrainClosed | NoSuchSandbox

  /** Whether Drain begins, and which error it returns if not. */
  function DrainAdmission<R>(s: Pool<R>, id: nat): DrainStart
    requires Refs(s)
  {
    if s.closed then DrainClosed
    else if id !in s.members || s.objs[s.members[id]].draining then NoSuchSandbox
    else Started
  }

  /** Drain's critical section: the sandbox leaves the ready list and its channel is made. */
  function DrainBegin<R(==)>(s: Pool<R>, id: nat): (s': Pool<R>)
    requires Refs(s)
  {
    if s.closed || id !in s.members || s.objs[s.members[id]].draining then s
    else
      var r := s.members[id];
      var o := s.objs[r];
      s.(ready := Without(s.ready, r),
         objs := s.objs[r := o.(draining := true, session := Waiting,
                                drained := if o.inFlight == 0 then Closed else Open)],
         active := s.active - 1)
  }

  /** The goroutine in Drain observes the closed channel and returns the finish function. */
  function DrainReturn<R(==)>(s: Pool<R>, r: R): (s': Pool<R>)
    requires r in s.objs
  {
    s.(objs := s.objs[r := s.objs[r].(session := Returned)])
  }

  /** A drained sandbox is admitted again. */
  function Readmit<R(==)>(s: Pool<R>, r: R): (s': Pool<R>)
    requires r in s.objs
  {
    var s1 := s.(objs := s.objs[r := s.objs[r].(draining := false, drained := NoChannel)], active := s.active + 1);
    s1.(ready := Refresh(s1, r))
  }

  /** restore, and finish(false). */
  ghost function Restore<R>(s: Pool<R>, r: R): (s': Pool<R>)
    requires Refs(s) && r in s.objs
  {
    var s0 := s.(objs := s.objs[r := s.objs[r].(session := NoSession)]);
    if !IsMember(s.members, s.objs, r) || !s.objs[r].draining then s0
    else Dispatch(Readmit(s0, r))
  }

  /** finish(true): the stopped sandbox leaves the pool. */
  function FinishStopped<R(==)>(s: Pool<R>, r: R): (s': Pool<R>)
    requires r in s.objs
  {
    var s0 := s.(objs := s.objs[r := s.objs[r].(session := NoSession)]);
    if !IsMember(s.members, s.objs, r) || !s.objs[r].draining then s0
    else s0.(members := s0.members - {s.objs[r].target.instanceId})
  }

  datatype Admission = Served | Queued | QueueFull | PoolClosed

  function Admit<R>(s: Pool<R>): Admission {
    if s.closed then PoolClosed
    else if s.pending == [] && s.ready != [] then Served
    else if |s.pending| >= s.queueDepth then QueueFull
    else Queued
  }

  /** Acquire's first critical section. */
  function Arrive<R(==)>(s: Pool<R>): (s': Pool<R>)
    requires Refs(s)
  {
    match Admit(s)
    case Served =>
      AcquireFront(s, |s.waiters|).(waiters := s.waiters + [Waiter(false, Nothing, Leased(|s.leases|))])
    case Queued =>
      s.(waiters := s.waiters + [Waiter(false, Nothing, Blocked)],
         pending := s.pending + [|s.waiters|],
         highWater := Max(s.highWater, s.executing + |s.pending| + 1))
    case _ => s
  }

  /** The accounting of release(sandbox) for lease `k`, up to the draining branch. */
  function EndLease<R(==)>(s: Pool<R>, k: nat): (s': Pool<R>)
    requires k < |s.leases| && s.leases[k].sandbox in s.objs
  {
    var r := s.leases[k].sandbox;
    var o := s.objs[r].(inFlight := s.objs[r].inFlight - 1);
    var closing := !s.closed && o.draining && o.inFlight == 0 && o.drained != NoChannel;
    s.(leases := s.leases[k := s.leases[k].(released := true)],
       objs := s.objs[r := if closing then o.(drained := Closed) else o],
       executing := s.executing - 1, completed := s.completed + 1,
       fault := s.fault || (closing && o.drained == Closed))
  }

  /** release(sandbox), after the flag of lease `k` was flipped from 0 to 1. */
  ghost function Release<R>(s: Pool<R>, k: nat): (s': Pool<R>)
    requires Refs(s) && k < |s.leases| && s.leases[k].sandbox in s.objs
  {
    var r := s.leases[k].sandbox;
    if s.objs[r].inFlight <= 0 then s.(fault := true)
    else
      var s1 := EndLease(s, k);
      if !s.closed && !s.objs[r].draining && IsMember(s.members, s.objs, r) then
        Dispatch(s1.(ready := Refresh(s1, r)))
      else s1
  }

  /** A grant in the channel of call `w` resolves. */
  ghost predicate ReceivableIn<R>(s: Pool<R>, w: nat) {
    && Refs(s) && w < |s.waiters|
    && (s.waiters[w].sent.Grant? ==>
          s.waiters[w].sent.lease < |s.leases| && s.leases[s.waiters[w].sent.lease].sandbox in s.objs)
  }

  /** Acquire receives from its result channel. */
  ghost function Receive<R>(s: Pool<R>, w: nat): (s': Pool<R>)
    requires ReceivableIn(s, w)
  {
    var wt := s.waiters[w];
    if wt.sent.Grant? && wt.cancelled then
      Release(s.(waiters := s.waiters[w := wt.(phase := Errored)]), wt.sent.lease)
    else if wt.sent.Grant? then
      s.(waiters := s.waiters[w := wt.(phase := Leased(wt.sent.lease))])
    else
      s.(waiters := s.waiters[w := wt.(phase := Errored)])
  }

  /** Acquire wakes up on ctx.Done: leaves the queue, or else takes the result already sent. */
  ghost function Withdraw<R>(s: Pool<R>, w: nat): (s': Pool<R>)
    requires ReceivableIn(s, w)
  {
    if w in s.pending then
      s.(pending := Without(s.pending, w), waiters := s.waiters[w := s.waiters[w].(phase := Errored)])
    else
      var wt := s.waiters[w];
      var s1 := s.(waiters := s.waiters[w := wt.(phase := Errored)]);
      if wt.sent.Grant? then Release(s1, wt.sent.lease) else s1
  }

  /** Close's loop: every queued waiter fails. */
  function FailAll<R>(s: Pool<R>): (s': Pool<R>)
    requires forall i :: 0 <= i < |s.pending| ==> s.pending[i] < |s.waiters|
    decreases |s.pending|
  {
    if s.pending == [] then s else FailAll(FailFront(s))
  }

  function Close<R>(s: Pool<R>): (s': Pool<R>)
    requires forall i :: 0 <= i < |s.pending| ==> s.pending[i] < |s.waiters|
  {
    if s.closed then s else FailAll(s.(closed := true, ready := []))
  }

  function TakeHighWater<R>(s: Pool<R>): (r: (Pool<R>, int)) {
    var current := s.executing + |s.pending|;
    (s.(highWater := current), Max(s.highWater, current))
  }

  // ------------------------------------ the loops, extended by one iteration

  lemma {:induction false} RefreshAllAppend<R>(s: Pool<R>, ids: seq<nat>, id: nat)
    requires Refs(s) && (forall i :: i in ids ==> i in s.members) && id in s.members
    ensures forall i :: i in ids + [id] ==> i in s.members
    ensures var s' := RefreshAll(s, ids);
            RefreshAll(s, ids + [id]) == s'.(ready := Refresh(s', s.members[id]))
    decreases |ids|
  {
    if ids == [] {
    } else {
      assert (ids + [id])[1..] == ids[1..] + [id];
      RefreshAllAppend(s.(ready := Refresh(s, s.members[ids[0]])), ids[1..], id);
    }
  }

  lemma {:induction false} SyncDropAppend<R>(s: Pool<R>, wanted: map<nat, Sandbox>, ids: seq<nat>, id: nat)
    requires Refs(s)
    ensures var s' := SyncDrop(s, wanted, ids);
            SyncDrop(s, wanted, ids + [id]) ==
              if id in wanted || (id in s'.members && s'.objs[s'.members[id]].draining) then s' else Forget(s', id)
    decreases |ids|
  {
    if ids == [] {
    } else {
      assert (ids + [id])[1..] == ids[1..] + [id];
      ForgetRefs(s, ids[0]);
      var keep := ids[0] in wanted || (ids[0] in s.members && s.objs[s.members[ids[0]]].draining);
      SyncDropAppend(if keep then s else Forget(s, ids[0]), wanted, ids[1..], id);
    }
  }

  lemma {:induction false} SyncPutAppend<R>(s: Pool<R>, wanted: map<nat, Sandbox>, alloc: map<nat, R>, ids: seq<nat>, id: nat)
    requires Refs(s) && (forall i :: i in ids ==> i in wanted && i in alloc) && id in wanted && id in alloc
    ensures forall i :: i in ids + [id] ==> i in wanted && i in alloc
    ensures SyncPut(s, wanted, alloc, ids + [id]) == Put(SyncPut(s, wanted, alloc, ids), wanted[id], alloc[id])
    decreases |ids|
  {
    if ids == [] {
    } else {
      assert (ids + [id])[1..] == ids[1..] + [id];
      PutRefs(s, wanted[ids[0]], alloc[ids[0]]);
      SyncPutAppend(Put(s, wanted[ids[0]], alloc[ids[0]]), wanted, alloc, ids[1..], id);
    }
  }

  lemma {:induction false} SyncPutSame<R>(s: Pool<R>, wanted: map<nat, Sandbox>, alloc: map<nat, R>, alloc': map<nat, R>, ids: seq<nat>)
    requires Refs(s) && forall i :: i in ids ==> i in wanted && i in alloc && i in alloc' && alloc'[i] == alloc[i]
    ensures SyncPut(s, wanted, alloc, ids) == SyncPut(s, wanted, alloc', ids)
    decreases |ids|
  {
    if ids == [] {
    } else {
      PutRefs(s, wanted[ids[0]], alloc[ids[0]]);
      SyncPutSame(Put(s, wanted[ids[0]], alloc[ids[0]]), wanted, alloc, alloc', ids[1..]);
    }
  }

  lemma SyncPutExtend<R>(s: Pool<R>, wanted: map<nat, Sandbox>, alloc: map<nat, R>, ids: seq<nat>, id: nat, r: R)
    requires Refs(s) && (forall i :: i in ids ==> i in wanted && i in alloc) && id in wanted && id !in ids
    ensures forall i :: i in ids + [id] ==> i in wanted && i in alloc[id := r]
    ensures SyncPut(s, wanted, alloc[id := r], ids + [id]) == Put(SyncPut(s, wanted, alloc, ids), wanted[id], r)
  {
    SyncPutSame(s, wanted, alloc, alloc[id := r], ids);
    SyncPutAppend(s, wanted, alloc[id := r], ids, id);
  }

  /** The objects allocated so far: new, distinct, and now in use. */
  ghost predicate FreshSoFar<R>(members: set<nat>, alloc: map<nat, R>, put: seq<nat>, before: set<R>, now: set<R>) {
    && NoDup(put) && (forall id :: id in put <==> id in alloc) && before <= now
    && (forall id :: id in put && id !in members ==> alloc[id] in now && alloc[id] !in before)
    && (forall i, j :: i in put && j in put && i != j && i !in members && j !in members ==> alloc[i] != alloc[j])
  }

  lemma FreshExtend<R>(members: set<nat>, alloc: map<nat, R>, put: seq<nat>, before: set<R>, now: set<R>, id: nat, r: R)
    requires FreshSoFar(members, alloc, put, before, now) && id !in put
    requires id !in members ==> r !in now
    ensures FreshSoFar(members, alloc[id := r], put + [id], before, now + {r})
  {
  }

  lemma {:induction false} SyncDropKeeps<R>(s: Pool<R>, wanted: map<nat, Sandbox>, ids: seq<nat>)
    requires Refs(s)
    ensures var s' := SyncDrop(s, wanted, ids);
            && s' == s.(ready := s'.ready, members := s'.members, active := s'.active)
            && (forall id :: id in wanted ==> (id in s'.members <==> id in s.members))
    decreases |ids|
  {
    if ids == [] {
    } else {
      ForgetRefs(s, ids[0]);
      var keep := ids[0] in wanted || (ids[0] in s.members && s.objs[s.members[ids[0]]].draining);
      SyncDropKeeps(if keep then s else Forget(s, ids[0]), wanted, ids[1..]);
    }
  }

  lemma {:induction false} SyncPutKeeps<R>(s: Pool<R>, wanted: map<nat, Sandbox>, alloc: map<nat, R>, ids: seq<nat>)
    requires Refs(s) && forall id :: id in ids ==> id in wanted && id in alloc
    ensures var s' := SyncPut(s, wanted, alloc, ids);
            s' == s.(ready := s'.ready, members := s'.members, active := s'.active, objs := s'.objs)
    decreases |ids|
  {
    if ids == [] {
    } else {
      PutRefs(s, wanted[ids[0]], alloc[ids[0]]);
      SyncPutKeeps(Put(s, wanted[ids[0]], alloc[ids[0]]), wanted, alloc, ids[1..]);
    }
  }
}
