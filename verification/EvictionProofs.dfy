/** The invariant of the eviction protocol, kept by every operation. */
module EvictionProofs {
  import opened ActuatorModel
  import opened Tallies
  import opened ActuatorProofs
  import opened EvictionModel

  // ------------------------------------------------------------------- workers

  /** The map is the history's live part, and revisions order the history. */
  ghost predicate NodeOk(n: Node) {
    && (forall id :: id in n.created ==> 1 <= n.created[id] <= n.revision)
    && (forall id :: id in n.removed ==> id in n.created && n.created[id] < n.removed[id] <= n.revision)
    && (forall id :: id in n.instances <==> id in n.created && id !in n.removed)
    && (forall id :: id in n.instances ==> n.instances[id] == n.created[id])
    && (forall id :: id in n.exited ==> id in n.created)
  }

  /** The sandboxes in the map when it had revision `r`. */
  ghost function LiveAt(n: Node, r: nat): set<nat> {
    set id | id in n.created && n.created[id] <= r && (id in n.removed ==> r < n.removed[id])
  }

  /** History only grows, and what it gains is newer than the old revision. */
  ghost predicate Grows(n: Node, n': Node) {
    && n.revision <= n'.revision && n.exited <= n'.exited
    && (forall id :: id in n.created ==> id in n'.created && n'.created[id] == n.created[id])
    && (forall id :: id in n'.created && id !in n.created ==> n.revision < n'.created[id])
    && (forall id :: id in n.removed ==> id in n'.removed && n'.removed[id] == n.removed[id])
    && (forall id :: id in n'.removed && id !in n.removed ==> n.revision < n'.removed[id])
  }

  ghost predicate AllGrow(nodes: seq<Node>, nodes': seq<Node>) {
    |nodes'| == |nodes| && forall w :: 0 <= w < |nodes| ==> Grows(nodes[w], nodes'[w])
  }

  lemma ExitOk(n: Node, id: nat)
    requires NodeOk(n) && id in n.instances
    ensures NodeOk(n.(exited := n.exited + {id})) && Grows(n, n.(exited := n.exited + {id}))
  {
  }

  lemma ReregisterOk(n: Node, id: nat)
    requires NodeOk(n)
    ensures NodeOk(Register(n, id)) <==> id !in n.removed
  {
    if id in n.removed { assert n.removed[id] <= n.revision; }
  }

  lemma RegisterOk(n: Node, id: nat)
    requires NodeOk(n) && id !in n.created
    ensures NodeOk(Register(n, id)) && Grows(n, Register(n, id))
  {
  }

  lemma UnregisterOk(n: Node, id: nat)
    requires NodeOk(n)
    ensures NodeOk(Unregister(n, id)) && Grows(n, Unregister(n, id))
  {
  }

  /** What was live at an earlier revision never changes. */
  lemma LiveAtStable(n: Node, n': Node, r: nat)
    requires NodeOk(n) && NodeOk(n') && Grows(n, n') && r <= n.revision
    ensures LiveAt(n', r) == LiveAt(n, r)
  {
  }

  // ------------------------------------------------------------------- network

  /** What a message proves about its worker, however late it is read. */
  ghost predicate Proves(n: Node, m: Message) {
    match m
    case Snapshot(_, p) => p.revision <= n.revision && p.ids == LiveAt(n, p.revision)
    case Removal(_, id, revision) => id in n.removed && n.removed[id] == revision
    case Created(_, id, r, _) => id in n.created && n.created[id] == r
  }

  ghost predicate MessageOk(nodes: seq<Node>, m: Message) {
    m.worker < |nodes| && Proves(nodes[m.worker], m)
  }

  ghost predicate NetOk(nodes: seq<Node>, net: set<Message>) {
    && (forall w :: 0 <= w < |nodes| ==> NodeOk(nodes[w]))
    && (forall m :: m in net ==> MessageOk(nodes, m))
  }

  lemma Reports(n: Node, w: nat)
    requires NodeOk(n)
    ensures Proves(n, Snapshot(w, Presence(n.revision, n.instances.Keys)))
  {
  }

  // ---------------------------------------------------------------------- leaf

  /** Every tracked instance was created on its worker at the revision the leaf remembers, and has an
      address if the pool ever admitted it. */
  ghost predicate ListOk(n: Node, admitted: set<nat>, ws: seq<Tracked>) {
    forall t :: t in ws ==>
      t.id in n.created && t.revision == n.created[t.id] && (t.id in admitted ==> t.address != "")
  }

  ghost predicate TrackedOk(nodes: seq<Node>, admitted: set<nat>, workers: seq<Worker>) {
    |workers| == |nodes| && forall w :: 0 <= w < |nodes| ==> ListOk(nodes[w], admitted, workers[w].instances)
  }

  /** Whatever left was gone, its stop was recorded, and it had an address if the leaf stopped it. */
  ghost predicate DepartureOk(nodes: seq<Node>, d: Departure) {
    && d.worker < |nodes| && (d.id in nodes[d.worker].removed || (d.cause == Stop && d.id in nodes[d.worker].exited))
    && d.recorded && (d.cause == Stop ==> d.address != "")
  }

  ghost predicate DeparturesOk(nodes: seq<Node>, ds: seq<Departure>) {
    forall d :: d in ds ==> DepartureOk(nodes, d)
  }

  lemma LeafGrows(nodes: seq<Node>, nodes': seq<Node>, admitted: set<nat>, a: Actuator)
    requires TrackedOk(nodes, admitted, a.workers) && DeparturesOk(nodes, a.departures) && AllGrow(nodes, nodes')
    ensures TrackedOk(nodes', admitted, a.workers) && DeparturesOk(nodes', a.departures)
  {
  }

  lemma {:induction false} KeptMembers(ws: seq<Tracked>, p: Presence)
    ensures forall t :: t in Kept(ws, p) <==> t in ws && Keeps(t, p)
    ensures forall t :: t in Evicted(ws, p) <==> t in ws && !Keeps(t, p)
  {
    if ws == [] {
    } else {
      var n := |ws| - 1;
      KeptMembers(ws[..n], p);
      assert ws == ws[..n] + [ws[n]];
    }
  }

  lemma {:induction false} RecordedMembers(w: nat, ws: seq<Tracked>, cause: Cause)
    ensures forall d :: d in Recorded(w, ws, cause) ==> exists t :: t in ws && d == Departure(w, t.id, t.address, cause, true)
  {
    if ws == [] {
    } else {
      var n := |ws| - 1;
      RecordedMembers(w, ws[..n], cause);
      assert ws == ws[..n] + [ws[n]];
      assert ws[n] in ws;
    }
  }

  /** A relist evicts only what its worker had removed when the snapshot was taken. */
  lemma RelistIsSound(n: Node, admitted: set<nat>, ws: seq<Tracked>, p: Presence, t: Tracked)
    requires NodeOk(n) && ListOk(n, admitted, ws) && p.revision <= n.revision && p.ids == LiveAt(n, p.revision)
    requires t in ws && !Keeps(t, p)
    ensures t.id in n.removed && n.removed[t.id] <= p.revision
  {
  }

  /** A relist at the worker's current revision leaves only live instances. */
  lemma RelistIsComplete(n: Node, admitted: set<nat>, ws: seq<Tracked>, p: Presence, t: Tracked)
    requires NodeOk(n) && ListOk(n, admitted, ws) && p.revision == n.revision && p.ids == LiveAt(n, p.revision)
    requires t in Kept(ws, p)
    ensures t.id in n.instances
  {
  }

  ghost predicate LeafOk(nodes: seq<Node>, admitted: set<nat>, a: Actuator) {
    Inv(a) && TrackedOk(nodes, admitted, a.workers) && DeparturesOk(nodes, a.departures)
  }

  /** A step of the leaf that neither begins nor ends a start. */
  ghost predicate Steady(a: Actuator, a': Actuator) {
    && SamePopulation(a, a') && a.departures <= a'.departures && |a'.workers| == |a.workers|
    && (forall w :: 0 <= w < |a.workers| ==> a'.workers[w].pendingStarts == a.workers[w].pendingStarts)
  }

  /** What a message makes leave names the kind of message as the cause, and was removed. */
  ghost predicate Sound(nodes: seq<Node>, a: Actuator, a': Actuator, m: Message)
    requires a.departures <= a'.departures
  {
    forall d :: d in a'.departures[|a.departures|..] ==>
      d.worker == m.worker < |nodes| && d.cause == (if m.Snapshot? then Relist else Event) && d.id in nodes[d.worker].removed
  }

  lemma RelistOk(nodes: seq<Node>, admitted: set<nat>, a: Actuator, m: Message)
    requires LeafOk(nodes, admitted, a) && MessageOk(nodes, m) && NodeOk(nodes[m.worker]) && m.Snapshot?
    ensures LeafOk(nodes, admitted, Handle(a, m)) && Steady(a, Handle(a, m)) && Sound(nodes, a, Handle(a, m), m)
  {
    var w, p, n := m.worker, m.presence, nodes[m.worker];
    var ws := a.workers[w].instances;
    var a' := Reconcile(a, w, p);
    ReconcileOk(a, w, p);
    KeptMembers(ws, p);
    RecordedMembers(w, Evicted(ws, p), Relist);
    assert ListOk(n, admitted, ws) && ListOk(n, admitted, Kept(ws, p));
    assert a'.departures[|a.departures|..] == Recorded(w, Evicted(ws, p), Relist);
    forall d | d in Recorded(w, Evicted(ws, p), Relist) ensures d.worker == w && d.id in n.removed && d.recorded && d.cause == Relist {
      var t :| t in Evicted(ws, p) && d == Departure(w, t.id, t.address, Relist, true);
      RelistIsSound(n, admitted, ws, p, t);
    }
  }

  lemma RemovalOk(nodes: seq<Node>, admitted: set<nat>, a: Actuator, m: Message)
    requires LeafOk(nodes, admitted, a) && MessageOk(nodes, m) && m.Removal?
    ensures LeafOk(nodes, admitted, Handle(a, m)) && Steady(a, Handle(a, m)) && Sound(nodes, a, Handle(a, m), m)
  {
    var ws := a.workers[m.worker].instances;
    var k := Find(ws, m.id);
    HandleRemovedOk(a, m.worker, m.id, m.revision);
    if k < |ws| && !Stale(ws[k], m.revision) {
    }
  }

  lemma HandleOk(nodes: seq<Node>, admitted: set<nat>, net: set<Message>, a: Actuator, m: Message)
    requires LeafOk(nodes, admitted, a) && NetOk(nodes, net) && m in net
    ensures LeafOk(nodes, admitted, Handle(a, m)) && Steady(a, Handle(a, m)) && Sound(nodes, a, Handle(a, m), m)
  {
    assert MessageOk(nodes, m);
    match m
    case Snapshot(_, _) => RelistOk(nodes, admitted, a, m);
    case Removal(_, _, _) => RemovalOk(nodes, admitted, a, m);
    case Created(_, _, _, _) =>
  }

  /** The worker has confirmed that the sandbox is gone. */
  ghost predicate Gone(nodes: seq<Node>, v: Victim) {
    v.worker < |nodes| && (v.id in nodes[v.worker].removed || v.id in nodes[v.worker].exited)
  }

  /** The end of a stop removes an instance that is gone and, as Drain knew it, has an address. */
  lemma RemoveOk(nodes: seq<Node>, admitted: set<nat>, a: Actuator, v: Victim)
    requires LeafOk(nodes, admitted, a) && Gone(nodes, v) && v.id in admitted
    ensures LeafOk(nodes, admitted, RemoveStopped(a, v.worker, v.id)) && Steady(a, RemoveStopped(a, v.worker, v.id))
  {
    var ws := a.workers[v.worker].instances;
    var k := Find(ws, v.id);
    RemoveStoppedOk(a, v.worker, v.id);
    if k < |ws| { assert ListOk(nodes[v.worker], admitted, ws) && ws[k] in ws; }
  }

  // ---------------------------------------------------------------- stop flags

  /** Only stopping flags differ. */
  ghost predicate SameEntries(ws: seq<Tracked>, ws': seq<Tracked>) {
    |ws'| == |ws| && forall k :: 0 <= k < |ws| ==> ws'[k] == ws[k].(stopping := ws'[k].stopping)
  }

  lemma {:induction false} MarkEntries(w: nat, ws: seq<Tracked>, count: int)
    ensures SameEntries(ws, Mark(w, ws, count).0)
  {
    if ws == [] {
    } else {
      MarkEntries(w, ws[..|ws| - 1], count);
    }
  }

  lemma {:induction false} MarkAllEntries(workers: seq<Worker>, count: int)
    ensures forall j :: 0 <= j < |workers| ==> SameEntries(workers[j].instances, MarkAll(workers, count).0[j].instances)
  {
    if workers == [] {
    } else {
      var n := |workers| - 1;
      MarkAllEntries(workers[..n], count);
      MarkEntries(n, workers[n].instances, count - |MarkAll(workers[..n], count).1|);
    }
  }

  lemma StopOk(nodes: seq<Node>, admitted: set<nat>, a: Actuator, count: int)
    requires LeafOk(nodes, admitted, a)
    ensures LeafOk(nodes, admitted, StopVictims(a, count).0) && Steady(a, StopVictims(a, count).0)
  {
    StopVictimsOk(a, count);
    if count > 0 {
      MarkAllEntries(a.workers, count);
      MarkAllKeeps(a.workers, count);
    }
  }

  lemma TargetOk(nodes: seq<Node>, admitted: set<nat>, a: Actuator, target: int)
    requires LeafOk(nodes, admitted, a)
    ensures LeafOk(nodes, admitted, a.(target := target)) && Steady(a, a.(target := target))
  {
    assert forall id :: Population(a.(target := target), id) == Population(a, id);
  }

  lemma CancelOk(nodes: seq<Node>, admitted: set<nat>, a: Actuator, w: int, id: nat)
    requires LeafOk(nodes, admitted, a)
    ensures LeafOk(nodes, admitted, CancelStop(a, w, id)) && Steady(a, CancelStop(a, w, id))
  {
    CancelStopOk(a, w, id);
  }

  lemma DecideOk(nodes: seq<Node>, admitted: set<nat>, a: Actuator, d: Decision)
    requires LeafOk(nodes, admitted, a)
    ensures LeafOk(nodes, admitted, Decide(a, d).0) && Steady(a, Decide(a, d).0)
  {
    match d
    case SetTarget(target) => TargetOk(nodes, admitted, a, target);
    case StopSome(count) => StopOk(nodes, admitted, a, count);
    case StopExcess(count) => StopOk(nodes, admitted, a, Min(count, Future(a) - a.target));
  }

  // --------------------------------------------------------------------- stops

  /** A stop is of an instance that is or was tracked. Drain let it pass only if the pool had admitted
      the instance, which then has an address; and the worker has confirmed it if the phase says so. */
  ghost predicate CallOk(nodes: seq<Node>, a: Actuator, admitted: set<nat>, c: StopCall) {
    && Population(a, c.victim.id) >= 1
    && (c.phase.Drained? || c.phase.Confirmed? || c.phase.Removed? ==> c.victim.id in admitted)
    && (c.victim.id in admitted ==> c.victim.address != "")
    && (c.phase.Confirmed? ==> Gone(nodes, c.victim))
  }

  ghost predicate StopsOk(nodes: seq<Node>, a: Actuator, pool: set<nat>, admitted: set<nat>, stops: seq<StopCall>) {
    && pool <= admitted && (forall id :: id in admitted ==> Population(a, id) >= 1)
    && (forall k :: 0 <= k < |stops| ==> CallOk(nodes, a, admitted, stops[k]))
  }

  ghost predicate MorePopulation(a: Actuator, a': Actuator) {
    forall id :: Population(a, id) <= Population(a', id)
  }

  lemma StopsKept(nodes: seq<Node>, a: Actuator, a': Actuator, pool: set<nat>, pool': set<nat>, admitted: set<nat>, stops: seq<StopCall>)
    requires StopsOk(nodes, a, pool, admitted, stops) && MorePopulation(a, a') && pool' <= pool
    ensures StopsOk(nodes, a', pool', admitted, stops)
  {
    forall k | 0 <= k < |stops| ensures CallOk(nodes, a', admitted, stops[k]) {
      assert CallOk(nodes, a, admitted, stops[k]);
    }
  }

  lemma StopsGrow(nodes: seq<Node>, nodes': seq<Node>, a: Actuator, pool: set<nat>, admitted: set<nat>, stops: seq<StopCall>)
    requires StopsOk(nodes, a, pool, admitted, stops) && AllGrow(nodes, nodes')
    ensures StopsOk(nodes', a, pool, admitted, stops)
  {
    forall k | 0 <= k < |stops| ensures CallOk(nodes', a, admitted, stops[k]) {
      assert CallOk(nodes, a, admitted, stops[k]);
    }
  }

  /** The pool admits an instance that no earlier instance shares its id with. */
  lemma StopsAdmit(nodes: seq<Node>, a: Actuator, a': Actuator, pool: set<nat>, admitted: set<nat>, stops: seq<StopCall>, id: nat)
    requires StopsOk(nodes, a, pool, admitted, stops) && MorePopulation(a, a') && Population(a, id) == 0 && Population(a', id) >= 1
    ensures StopsOk(nodes, a', pool + {id}, admitted + {id}, stops)
  {
    forall k | 0 <= k < |stops| ensures CallOk(nodes, a', admitted + {id}, stops[k]) {
      assert CallOk(nodes, a, admitted, stops[k]);
    }
  }

  lemma TrackedCounts(a: Actuator, w: nat, t: Tracked)
    requires w < |a.workers| && t in a.workers[w].instances
    ensures Population(a, t.id) >= 1
  {
    var ws := a.workers[w].instances;
    var k :| 0 <= k < |ws| && ws[k] == t;
    Facts(ws, t.id);
    assert HasId(t.id)(ws[k]) == 1;
    forall j | 0 <= j < |a.workers| ensures Over(HasId(t.id))(a.workers[j]) >= 0 { Facts(a.workers[j].instances, t.id); }
    TallyBound(a.workers, Over(HasId(t.id)));
    assert Over(HasId(t.id))(a.workers[w]) <= Tally(a.workers, Over(HasId(t.id)));
    TallyBound(a.departures, IsDeparture(t.id));
  }

  /** A victim is a tracked instance. */
  ghost predicate IsTracked(workers: seq<Worker>, v: Victim) {
    v.worker < |workers| && exists t :: t in workers[v.worker].instances && t.id == v.id && t.address == v.address
  }

  lemma {:induction false} MarkTracks(w: nat, ws: seq<Tracked>, count: int)
    ensures forall v :: v in Mark(w, ws, count).1 ==> v.worker == w && exists t :: t in ws && t.id == v.id && t.address == v.address
  {
    if ws == [] {
    } else {
      var n := |ws| - 1;
      MarkTracks(w, ws[..n], count);
      assert ws == ws[..n] + [ws[n]] && ws[n] in ws;
    }
  }

  lemma {:induction false} MarkAllTracks(workers: seq<Worker>, count: int)
    ensures forall v :: v in MarkAll(workers, count).1 ==> IsTracked(workers, v)
  {
    if workers == [] {
    } else {
      var n := |workers| - 1;
      MarkAllTracks(workers[..n], count);
      var out := MarkAll(workers[..n], count).1;
      MarkTracks(n, workers[n].instances, count - |out|);
      forall v | v in MarkAll(workers, count).1 ensures IsTracked(workers, v) {
        if v in out { assert IsTracked(workers[..n], v); }
      }
    }
  }

  lemma VictimsTracked(a: Actuator, d: Decision)
    ensures forall v :: v in Decide(a, d).1 ==> IsTracked(a.workers, v)
  {
    match d
    case SetTarget(_) =>
    case StopSome(count) => MarkAllTracks(a.workers, count);
    case StopExcess(count) => MarkAllTracks(a.workers, Min(count, Future(a) - a.target));
  }

  lemma StopsBegin(nodes: seq<Node>, a: Actuator, pool: set<nat>, admitted: set<nat>, stops: seq<StopCall>, victims: seq<Victim>)
    requires StopsOk(nodes, a, pool, admitted, stops) && TrackedOk(nodes, admitted, a.workers)
    requires forall v :: v in victims ==> IsTracked(a.workers, v)
    ensures StopsOk(nodes, a, pool, admitted, stops + Calls(victims))
  {
    forall k | 0 <= k < |victims| ensures CallOk(nodes, a, admitted, Calls(victims)[k]) {
      var v := victims[k];
      assert v in victims;
      var t :| t in a.workers[v.worker].instances && t.id == v.id && t.address == v.address;
      TrackedCounts(a, v.worker, t);
      assert ListOk(nodes[v.worker], admitted, a.workers[v.worker].instances);
    }
  }

  lemma StopsAdvance(nodes: seq<Node>, a: Actuator, pool: set<nat>, admitted: set<nat>, stops: seq<StopCall>, k: nat, phase: StopPhase)
    requires StopsOk(nodes, a, pool, admitted, stops) && k < |stops|
    requires CallOk(nodes, a, admitted, stops[k].(phase := phase))
    ensures StopsOk(nodes, a, pool, admitted, stops[k := stops[k].(phase := phase)])
  {
  }

  // ---------------------------------------------------------------------- jobs

  /** A start on worker `w` that still waits for its end. */
  function Waiting(w: nat): Job -> int { (j: Job) => if j.worker == w && j.waiting then 1 else 0 }

  /** Ids are used once: only ended starts are in the population. */
  ghost predicate IdsOk(jobs: seq<Job>, a: Actuator) {
    && (forall i, j :: 0 <= i < j < |jobs| ==> jobs[i].id != jobs[j].id)
    && (forall k :: 0 <= k < |jobs| && jobs[k].waiting ==> Population(a, jobs[k].id) == 0)
    && (forall id :: (forall k :: 0 <= k < |jobs| ==> jobs[k].id != id) ==> Population(a, id) == 0)
  }

  ghost predicate StartsOk(jobs: seq<Job>, workers: seq<Worker>) {
    forall w :: 0 <= w < |workers| ==> workers[w].pendingStarts == Tally(jobs, Waiting(w))
  }

  ghost predicate SystemInv(s: System) {
    && NetOk(s.nodes, s.net) && LeafOk(s.nodes, s.admitted, s.leaf) && IdsOk(s.jobs, s.leaf) && StartsOk(s.jobs, s.leaf.workers)
    && StopsOk(s.nodes, s.leaf, s.pool, s.admitted, s.stops)
  }

  lemma SteadyOk(s: System, a: Actuator, pool: set<nat>)
    requires SystemInv(s) && LeafOk(s.nodes, s.admitted, a) && Steady(s.leaf, a) && pool <= s.pool
    ensures SystemInv(s.(leaf := a, pool := pool))
  {
    StopsKept(s.nodes, s.leaf, a, s.pool, pool, s.admitted, s.stops);
  }

  lemma StartIds(jobs: seq<Job>, a: Actuator, a': Actuator, w: nat, id: nat)
    requires IdsOk(jobs, a) && SamePopulation(a, a') && forall k :: 0 <= k < |jobs| ==> jobs[k].id != id
    ensures IdsOk(jobs + [Job(w, id, true)], a')
  {
    var jobs' := jobs + [Job(w, id, true)];
    forall x | forall k :: 0 <= k < |jobs'| ==> jobs'[k].id != x ensures Population(a', x) == 0 {
      assert forall k :: 0 <= k < |jobs| ==> jobs'[k] == jobs[k];
    }
  }

  lemma StartStarts(jobs: seq<Job>, workers: seq<Worker>, w: nat, id: nat)
    requires StartsOk(jobs, workers) && w < |workers|
    ensures StartsOk(jobs + [Job(w, id, true)], workers[w := workers[w].(pendingStarts := workers[w].pendingStarts + 1)])
  {
  }

  lemma StartJobOk(s: System, w: nat, id: nat, a: Actuator)
    requires SystemInv(s) && w < |s.leaf.workers| && (forall k :: 0 <= k < |s.jobs| ==> s.jobs[k].id != id)
    requires Inv(a) && SamePopulation(s.leaf, a) && a.departures == s.leaf.departures
    requires a.workers == s.leaf.workers[w := s.leaf.workers[w].(pendingStarts := s.leaf.workers[w].pendingStarts + 1)]
    ensures SystemInv(s.(leaf := a, jobs := s.jobs + [Job(w, id, true)]))
  {
    StopsKept(s.nodes, s.leaf, a, s.pool, s.pool, s.admitted, s.stops);
    StartIds(s.jobs, s.leaf, a, w, id);
    StartStarts(s.jobs, s.leaf.workers, w, id);
  }

  lemma EndIds(jobs: seq<Job>, k: nat, a: Actuator, a': Actuator)
    requires IdsOk(jobs, a) && k < |jobs| && jobs[k].waiting
    requires forall id :: id != jobs[k].id ==> Population(a', id) == Population(a, id)
    ensures IdsOk(jobs[k := jobs[k].(waiting := false)], a')
  {
    var jobs' := jobs[k := jobs[k].(waiting := false)];
    assert forall j :: 0 <= j < |jobs| ==> jobs'[j].id == jobs[j].id;
    forall x | forall j :: 0 <= j < |jobs'| ==> jobs'[j].id != x ensures Population(a', x) == 0 {
      assert jobs'[k].id != x;
      assert forall j :: 0 <= j < |jobs| ==> jobs[j].id != x;
    }
  }

  lemma EndStarts(jobs: seq<Job>, k: nat, a: Actuator, started: seq<Tracked>)
    requires k < |jobs| && jobs[k].waiting && jobs[k].worker < |a.workers| && StartsOk(jobs, a.workers) && |started| <= 1
    ensures StartsOk(jobs[k := jobs[k].(waiting := false)], EndStart(a, jobs[k].worker, started).workers)
    ensures a.workers[jobs[k].worker].pendingStarts > 0
  {
    var a' := EndStart(a, jobs[k].worker, started);
    var jobs' := jobs[k := jobs[k].(waiting := false)];
    TallyBound(jobs, Waiting(jobs[k].worker));
    assert Waiting(jobs[k].worker)(jobs[k]) == 1;
    forall j | 0 <= j < |a'.workers| ensures a'.workers[j].pendingStarts == Tally(jobs', Waiting(j)) {
      TallyUpdate(jobs, k, jobs'[k], Waiting(j));
    }
  }

  lemma EndEntries(nodes: seq<Node>, admitted: set<nat>, workers: seq<Worker>, w: nat, started: seq<Tracked>, starts: int)
    requires TrackedOk(nodes, admitted, workers) && w < |nodes| && ListOk(nodes[w], admitted, started)
    ensures TrackedOk(nodes, admitted, workers[w := Worker(workers[w].instances + started, starts)])
  {
  }

  /** Admitting a new id says nothing about the instances tracked before. */
  lemma AdmitEntries(nodes: seq<Node>, admitted: set<nat>, a: Actuator, ids: set<nat>)
    requires TrackedOk(nodes, admitted, a.workers) && forall id :: id in ids ==> Population(a, id) == 0
    ensures TrackedOk(nodes, admitted + ids, a.workers)
  {
    forall w | 0 <= w < |nodes| ensures ListOk(nodes[w], admitted + ids, a.workers[w].instances) {
      assert ListOk(nodes[w], admitted, a.workers[w].instances);
      forall t | t in a.workers[w].instances ensures t.id !in ids { TrackedCounts(a, w, t); }
    }
  }

  lemma EndPopulations(a: Actuator, w: nat, started: seq<Tracked>, id: nat)
    requires Inv(a) && w < |a.workers| && a.workers[w].pendingStarts > 0 && |started| <= 1 && Population(a, id) == 0
    requires forall t :: t in started ==> !t.stopping && t.id == id
    ensures Inv(EndStart(a, w, started)) && MorePopulation(a, EndStart(a, w, started))
    ensures forall other :: other != id ==> Population(EndStart(a, w, started), other) == Population(a, other)
    ensures started != [] ==> Population(EndStart(a, w, started), id) == 1
  {
    EndStartOk(a, w, started);
    if started != [] {
      assert started == [started[0]] && started[0] in started;
      forall other ensures Tally(started, HasId(other)) == if other == id then 1 else 0 { TallySingle(started[0], other); }
    }
  }

  /** The end of a start, with or without an instance; `ids` holds its id if the pool admits it. */
  lemma EndJobOk(s: System, k: nat, started: seq<Tracked>, ids: set<nat>)
    requires SystemInv(s) && k < |s.jobs| && s.jobs[k].waiting && s.jobs[k].worker < |s.leaf.workers| && |started| <= 1
    requires ListOk(s.nodes[s.jobs[k].worker], s.admitted + ids, started)
    requires (forall t :: t in started ==> !t.stopping && t.id == s.jobs[k].id) && (ids == {} || (ids == {s.jobs[k].id} && started != []))
    ensures SystemInv(EndJob(s, k, started).(pool := s.pool + ids, admitted := s.admitted + ids))
  {
    var w, id := s.jobs[k].worker, s.jobs[k].id;
    var a' := EndStart(s.leaf, w, started);
    EndStarts(s.jobs, k, s.leaf, started);
    EndPopulations(s.leaf, w, started, id);
    EndIds(s.jobs, k, s.leaf, a');
    AdmitEntries(s.nodes, s.admitted, s.leaf, ids);
    EndEntries(s.nodes, s.admitted + ids, s.leaf.workers, w, started, s.leaf.workers[w].pendingStarts - 1);
    if ids == {} {
      assert s.pool + ids == s.pool && s.admitted + ids == s.admitted;
      StopsKept(s.nodes, s.leaf, a', s.pool, s.pool, s.admitted, s.stops);
    } else {
      StopsAdmit(s.nodes, s.leaf, a', s.pool, s.admitted, s.stops, id);
    }
  }

  // --------------------------------------------------------------------- steps

  lemma ProvesStill(n: Node, n': Node, m: Message)
    requires NodeOk(n) && NodeOk(n') && Grows(n, n') && Proves(n, m)
    ensures Proves(n', m)
  {
    if m.Snapshot? { LiveAtStable(n, n', m.presence.revision); }
  }

  lemma NetGrows(nodes: seq<Node>, net: set<Message>, w: nat, n: Node, sent: set<Message>)
    requires NetOk(nodes, net) && w < |nodes| && NodeOk(n) && Grows(nodes[w], n)
    requires forall m :: m in sent ==> m.worker == w && Proves(n, m)
    ensures NetOk(nodes[w := n], net + sent) && AllGrow(nodes, nodes[w := n])
  {
    forall m | m in net ensures MessageOk(nodes[w := n], m) {
      assert MessageOk(nodes, m);
      if m.worker == w { ProvesStill(nodes[w], n, m); }
    }
  }

  /** A change of one worker, with the messages it sends. */
  lemma NodeStepOk(s: System, w: nat, n: Node, sent: set<Message>)
    requires SystemInv(s) && w < |s.nodes| && NodeOk(n) && Grows(s.nodes[w], n)
    requires forall m :: m in sent ==> m.worker == w && Proves(n, m)
    ensures SystemInv(s.(nodes := s.nodes[w := n], net := s.net + sent)) && AllGrow(s.nodes, s.nodes[w := n])
  {
    var nodes' := s.nodes[w := n];
    NetGrows(s.nodes, s.net, w, n, sent);
    LeafGrows(s.nodes, nodes', s.admitted, s.leaf);
    StopsGrow(s.nodes, nodes', s.leaf, s.pool, s.admitted, s.stops);
  }

  lemma CreateStepOk(s: System, w: nat, id: nat, address: string)
    requires SystemInv(s) && w < |s.nodes| && id !in s.nodes[w].created
    ensures var nodes' := s.nodes[w := Register(s.nodes[w], id)];
            && SystemInv(s.(nodes := nodes', net := s.net + {Created(w, id, s.nodes[w].revision + 1, address)}))
            && AllGrow(s.nodes, nodes')
  {
    RegisterOk(s.nodes[w], id);
    NodeStepOk(s, w, Register(s.nodes[w], id), {Created(w, id, s.nodes[w].revision + 1, address)});
  }

  lemma RemoveStepOk(s: System, w: nat, id: nat, notify: bool)
    requires SystemInv(s) && w < |s.nodes|
    ensures var n := s.nodes[w];
            var nodes' := s.nodes[w := Unregister(n, id)];
            && SystemInv(s.(nodes := nodes',
                            net := if notify && id in n.instances then s.net + {Removal(w, id, n.revision + 1)} else s.net))
            && AllGrow(s.nodes, nodes')
  {
    var n := s.nodes[w];
    UnregisterOk(n, id);
    assert s.net + {} == s.net;
    NodeStepOk(s, w, Unregister(n, id), if notify && id in n.instances then {Removal(w, id, n.revision + 1)} else {});
  }

  lemma ExitStepOk(s: System, w: nat, id: nat)
    requires SystemInv(s) && w < |s.nodes| && id in s.nodes[w].instances
    ensures var nodes' := s.nodes[w := s.nodes[w].(exited := s.nodes[w].exited + {id})];
            SystemInv(s.(nodes := nodes')) && AllGrow(s.nodes, nodes')
  {
    ExitOk(s.nodes[w], id);
    assert s.net + {} == s.net;
    NodeStepOk(s, w, s.nodes[w].(exited := s.nodes[w].exited + {id}), {});
  }

  predicate AtNode(op: Op) { op.CreateSandbox? || op.RemoveSandbox? || op.ProcessExit? }

  lemma NodeStepInv(s: System, op: Op)
    requires SystemInv(s) && Enabled(s, op) && AtNode(op)
    ensures SystemInv(Apply(s, op)) && AllGrow(s.nodes, Apply(s, op).nodes)
  {
    match op
    case CreateSandbox(k, address) => CreateStepOk(s, s.jobs[k].worker, s.jobs[k].id, address);
    case RemoveSandbox(w, id, notify) => RemoveStepOk(s, w, id, notify);
    case ProcessExit(w, id) => ExitStepOk(s, w, id);
  }

  lemma StartStepInv(s: System, op: Op)
    requires SystemInv(s) && Enabled(s, op) && op.StartJob?
    ensures SystemInv(Apply(s, op))
  {
    ReserveStartOk(s.leaf, op.index, op.limits, op.enforceTarget, op.coldStart, op.maxInstances);
    StartJobOk(s, op.index, op.id, Apply(s, op).leaf);
  }

  lemma ChooseOk(s: System, d: Decision)
    requires SystemInv(s)
    ensures SystemInv(Apply(s, Choose(d)))
  {
    DecideOk(s.nodes, s.admitted, s.leaf, d);
    VictimsTracked(s.leaf, d);
    StopsBegin(s.nodes, s.leaf, s.pool, s.admitted, s.stops, Decide(s.leaf, d).1);
    SteadyOk(s.(stops := s.stops + Calls(Decide(s.leaf, d).1)), Decide(s.leaf, d).0, s.pool);
  }

  /** The steps of a stop. */
  predicate OfStop(op: Op) { op.DrainReturns? || op.ConfirmStop? || op.FinishStop? || op.FailStop? }

  lemma AdvanceOk(s: System, k: nat, phase: StopPhase)
    requires SystemInv(s) && k < |s.stops| && CallOk(s.nodes, s.leaf, s.admitted, s.stops[k].(phase := phase))
    ensures SystemInv(Advance(s, k, phase))
  {
    StopsAdvance(s.nodes, s.leaf, s.pool, s.admitted, s.stops, k, phase);
  }

  lemma StopStepInv(s: System, op: Op)
    requires SystemInv(s) && Enabled(s, op) && OfStop(op)
    ensures SystemInv(Apply(s, op)) && Steady(s.leaf, Apply(s, op).leaf)
  {
    var v := s.stops[op.k].victim;
    assert CallOk(s.nodes, s.leaf, s.admitted, s.stops[op.k]);
    match op
    case DrainReturns(k) => AdvanceOk(s, k, Drained);
    case ConfirmStop(k) =>
      assert NodeOk(s.nodes[v.worker]);
      AdvanceOk(s, k, Confirmed);
    case FinishStop(k) =>
      RemoveOk(s.nodes, s.admitted, s.leaf, v);
      AdvanceOk(s, k, StopPhase.Removed);
      var a := RemoveStopped(s.leaf, v.worker, v.id);
      SteadyOk(Advance(s, k, StopPhase.Removed), a, s.pool - DepartedIds(a));
    case FailStop(k) =>
      CancelOk(s.nodes, s.admitted, s.leaf, v.worker, v.id);
      AdvanceOk(s, k, TakenBack);
      SteadyOk(Advance(s, k, TakenBack), CancelStop(s.leaf, v.worker, v.id), s.pool);
  }

  lemma ReceiveOk(s: System, m: Message)
    requires SystemInv(s) && m in s.net
    ensures SystemInv(Evict(s, Handle(s.leaf, m)))
  {
    HandleOk(s.nodes, s.admitted, s.net, s.leaf, m);
    SteadyOk(s, Handle(s.leaf, m), s.pool - DepartedIds(Handle(s.leaf, m)));
  }

  lemma FinishJobOk(s: System, op: Op)
    requires SystemInv(s) && Enabled(s, op) && op.FinishJob?
    ensures SystemInv(Apply(s, op))
  {
    var m := op.m;
    assert MessageOk(s.nodes, m);
    var ids := if op.open && Admissible(m.id, m.address) then {m.id} else {};
    assert m.id !in s.admitted;
    EndJobOk(s, op.k, [Tracked(m.id, m.address, false, m.revision)], ids);
    assert s.pool + {} == s.pool && s.admitted + {} == s.admitted;
  }

  lemma FailJobOk(s: System, k: nat)
    requires SystemInv(s) && Enabled(s, FailJob(k))
    ensures SystemInv(Apply(s, FailJob(k)))
  {
    EndJobOk(s, k, [], {});
    assert s.pool + {} == s.pool && s.admitted + {} == s.admitted;
  }

  lemma StepInv(s: System, op: Op)
    requires SystemInv(s) && Enabled(s, op)
    ensures SystemInv(Apply(s, op))
  {
    match op
    case Choose(d) => ChooseOk(s, d);
    case Receive(m) => ReceiveOk(s, m);
    case StartJob(_, _, _, _, _, _) => StartStepInv(s, op);
    case FinishJob(_, _, _) => FinishJobOk(s, op);
    case FailJob(k) => FailJobOk(s, k);
    case TakeSnapshot(w) => Reports(s.nodes[w], w);
    case _ => if OfStop(op) { StopStepInv(s, op); } else { NodeStepInv(s, op); }
  }

  lemma GrowsNot(nodes: seq<Node>)
    requires forall w :: 0 <= w < |nodes| ==> NodeOk(nodes[w])
    ensures AllGrow(nodes, nodes)
  {
  }

  lemma NodesGrow(s: System, op: Op)
    requires SystemInv(s) && Enabled(s, op)
    ensures AllGrow(s.nodes, Apply(s, op).nodes)
  {
    if AtNode(op) { NodeStepInv(s, op); } else { GrowsNot(s.nodes); }
  }

  lemma DeparturesGrow(s: System, op: Op)
    requires SystemInv(s) && Enabled(s, op)
    ensures s.leaf.departures <= Apply(s, op).leaf.departures
  {
    if op.Choose? {
      DecideOk(s.nodes, s.admitted, s.leaf, op.d);
    } else if op.Receive? {
      HandleOk(s.nodes, s.admitted, s.net, s.leaf, op.m);
    } else if OfStop(op) {
      StopStepInv(s, op);
    }
  }

  /** History grows with every step. */
  lemma StepGrows(s: System, op: Op)
    requires SystemInv(s) && Enabled(s, op)
    ensures AllGrow(s.nodes, Apply(s, op).nodes) && s.leaf.departures <= Apply(s, op).leaf.departures
  {
    NodesGrow(s, op);
    DeparturesGrow(s, op);
  }

  lemma InitialInv(s: System)
    requires Initial(s)
    ensures SystemInv(s)
  {
    NoInstances(s.leaf);
  }

  /** The invariant holds in every state of every run. */
  lemma {:induction false} RunInv(ss: seq<System>, ops: seq<Op>, i: nat)
    requires IsRun(ss, ops) && i < |ss|
    ensures SystemInv(ss[i])
  {
    if i == 0 {
      InitialInv(ss[0]);
    } else {
      RunInv(ss, ops, i - 1);
      assert Stepped(ss, ops, i - 1);
      StepInv(ss[i - 1], ops[i - 1]);
    }
  }

  lemma StepAt(ss: seq<System>, ops: seq<Op>, i: nat)
    requires IsRun(ss, ops) && i < |ops|
    ensures AllGrow(ss[i].nodes, ss[i].nodes) && AllGrow(ss[i].nodes, ss[i + 1].nodes)
    ensures ss[i].leaf.departures <= ss[i + 1].leaf.departures
  {
    RunInv(ss, ops, i);
    assert Stepped(ss, ops, i);
    StepGrows(ss[i], ops[i]);
    GrowsNot(ss[i].nodes);
  }

  lemma {:induction false} RunGrows(ss: seq<System>, ops: seq<Op>, i: nat, j: nat)
    requires IsRun(ss, ops) && i < j < |ss|
    ensures AllGrow(ss[i].nodes, ss[j].nodes) && ss[i].leaf.departures <= ss[j].leaf.departures
    decreases j
  {
    StepAt(ss, ops, j - 1);
    if i == j - 1 {
    } else {
      RunGrows(ss, ops, i, j - 1);
    }
  }
}
