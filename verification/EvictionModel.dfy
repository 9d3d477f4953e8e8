/** Workers, the leaf's actuator and the network between them. A worker stamps every change
    of its sandbox map with a revision (`pkg/worker/sandbox.go`); snapshots, removal events and
    start responses stay in the network and may be handled late, in any order, repeatedly or
    never. A stop is a goroutine of the leaf: it drains the sandbox out of the admission pool,
    asks the worker to stop it, and ends by removing the instance or taking the stop back. */
module EvictionModel {
  import opened ActuatorModel

  /** A worker's sandbox map with its revision. `created`, `removed` and `exited` are history:
      the revision of each registration and removal, and the sandboxes whose process ended. */
  datatype Node = Node(
    instances: map<nat, nat>,
    revision: nat,
    created: map<nat, nat>,
    removed: map<nat, nat>,
    exited: set<nat>)

  /** The registration at the end of a successful runtime start in CreateSandbox. */
  function Register(n: Node, id: nat): Node {
    n.(revision := n.revision + 1, instances := n.instances[id := n.revision + 1], created := n.created[id := n.revision + 1])
  }

  /** removeInstanceInternal. */
  function Unregister(n: Node, id: nat): Node {
    if id !in n.instances then n
    else n.(revision := n.revision + 1, instances := n.instances - {id}, removed := n.removed[id := n.revision + 1])
  }

  datatype Message =
    | Snapshot(worker: nat, presence: Presence)
    | Removal(worker: nat, id: nat, revision: nat)
    | Created(worker: nat, id: nat, revision: nat, address: string)

  /** A start the leaf has dispatched; `waiting` until its response or failure is handled. */
  datatype Job = Job(worker: nat, id: nat, waiting: bool)

  /** Where the goroutine of one stop is: before Drain has returned, before and after the worker has
      confirmed, and its two ends. */
  datatype StopPhase = Draining | Drained | Confirmed | TakenBack | Removed

  datatype StopCall = StopCall(victim: Victim, phase: StopPhase)
  {
    predicate Running() { phase.Draining? || phase.Drained? || phase.Confirmed? }
  }

  /** `pool` are the instances the admission pool knows; `admitted`, as history, those it ever knew. */
  datatype System = System(
    leaf: Actuator, nodes: seq<Node>, net: set<Message>, jobs: seq<Job>,
    pool: set<nat>, admitted: set<nat>, stops: seq<StopCall>)

  /** What the leaf decides by itself, and the instances it decides to stop. */
  datatype Decision =
    | SetTarget(target: int)
    | StopSome(count: int)
    | StopExcess(count: int)

  function Decide(a: Actuator, d: Decision): (Actuator, seq<Victim>) {
    match d
    case SetTarget(target) => (a.(target := target), [])
    case StopSome(count) => StopVictims(a, count)
    case StopExcess(count) => StopWithinTarget(a, count)
  }

  function Calls(victims: seq<Victim>): (r: seq<StopCall>)
    ensures |r| == |victims| && forall k :: 0 <= k < |r| ==> r[k] == StopCall(victims[k], Draining)
  {
    seq(|victims|, k requires 0 <= k < |victims| => StopCall(victims[k], Draining))
  }

  /** The pool refuses an instance without an id or an address. */
  predicate Admissible(id: nat, address: string) { id != 0 && address != "" }

  function DepartedIds(a: Actuator): set<nat> { set d | d in a.departures :: d.id }

  /** What the leaf does with a message about an instance it may track. */
  function Handle(a: Actuator, m: Message): Actuator {
    match m
    case Snapshot(w, presence) => Reconcile(a, w, presence)
    case Removal(w, id, revision) => HandleRemoved(a, w, id, revision).0
    case Created(_, _, _, _) => a
  }

  datatype Op =
    | Choose(d: Decision)
    | Receive(m: Message)
    | StartJob(index: int, id: nat, limits: Limits, enforceTarget: bool, coldStart: bool, maxInstances: int)
    | FinishJob(k: nat, m: Message, open: bool)
    | FailJob(k: nat)
    | CreateSandbox(k: nat, address: string)
    | RemoveSandbox(w: nat, id: nat, notify: bool)
    | ProcessExit(w: nat, id: nat)
    | TakeSnapshot(w: nat)
    | DrainReturns(k: nat)
    | ConfirmStop(k: nat)
    | FinishStop(k: nat)
    | FailStop(k: nat)

  /** Instance ids are drawn at random and are taken to be unused; a worker receives each start
      once. Drain returns only for an instance the pool knows. The worker confirms a stop once the
      sandbox is out of its map, or when the runtime no longer knows it. Drain and the request to
      the worker may fail at any time, also after the worker has confirmed. */
  ghost predicate Enabled(s: System, op: Op) {
    match op
    case Choose(_) => true
    case Receive(m) => m in s.net
    case StartJob(w, id, limits, enforceTarget, coldStart, maxInstances) =>
      && ReserveStart(s.leaf, w, limits, enforceTarget, coldStart, maxInstances).Reserved?
      && forall k :: 0 <= k < |s.jobs| ==> s.jobs[k].id != id
    case FinishJob(k, m, _) =>
      && k < |s.jobs| && s.jobs[k].waiting && s.jobs[k].worker < |s.leaf.workers|
      && m in s.net && m.Created? && m.worker == s.jobs[k].worker && m.id == s.jobs[k].id
    case FailJob(k) => k < |s.jobs| && s.jobs[k].waiting && s.jobs[k].worker < |s.leaf.workers|
    case CreateSandbox(k, _) =>
      k < |s.jobs| && s.jobs[k].worker < |s.nodes| && s.jobs[k].id !in s.nodes[s.jobs[k].worker].created
    case RemoveSandbox(w, _, _) => w < |s.nodes|
    case ProcessExit(w, id) => w < |s.nodes| && id in s.nodes[w].instances
    case TakeSnapshot(w) => w < |s.nodes|
    case DrainReturns(k) => k < |s.stops| && s.stops[k].phase == Draining && s.stops[k].victim.id in s.pool
    case ConfirmStop(k) =>
      && k < |s.stops| && s.stops[k].phase == Drained
      && var v := s.stops[k].victim;
         && v.worker < |s.nodes| && v.id in s.nodes[v.worker].created
         && (v.id !in s.nodes[v.worker].instances || v.id in s.nodes[v.worker].exited)
    case FinishStop(k) => k < |s.stops| && s.stops[k].phase == Confirmed
    case FailStop(k) => k < |s.stops| && s.stops[k].Running()
  }

  ghost function Apply(s: System, op: Op): System
    requires Enabled(s, op)
  {
    match op
    case Choose(d) => s.(leaf := Decide(s.leaf, d).0, stops := s.stops + Calls(Decide(s.leaf, d).1))
    case Receive(m) => Evict(s, Handle(s.leaf, m))
    case StartJob(w, id, limits, enforceTarget, coldStart, maxInstances) =>
      s.(leaf := ReserveStart(s.leaf, w, limits, enforceTarget, coldStart, maxInstances).a, jobs := s.jobs + [Job(w, id, true)])
    case FinishJob(k, m, open) =>
      var s' := EndJob(s, k, [Tracked(m.id, m.address, false, m.revision)]);
      if open && Admissible(m.id, m.address) then s'.(pool := s.pool + {m.id}, admitted := s.admitted + {m.id}) else s'
    case FailJob(k) => EndJob(s, k, [])
    case CreateSandbox(k, address) =>
      var w := s.jobs[k].worker;
      s.(nodes := s.nodes[w := Register(s.nodes[w], s.jobs[k].id)],
         net := s.net + {Created(w, s.jobs[k].id, s.nodes[w].revision + 1, address)})
    case RemoveSandbox(w, id, notify) =>
      s.(nodes := s.nodes[w := Unregister(s.nodes[w], id)],
         net := if notify && id in s.nodes[w].instances then s.net + {Removal(w, id, s.nodes[w].revision + 1)} else s.net)
    case ProcessExit(w, id) => s.(nodes := s.nodes[w := s.nodes[w].(exited := s.nodes[w].exited + {id})])
    case TakeSnapshot(w) => s.(net := s.net + {Snapshot(w, Presence(s.nodes[w].revision, s.nodes[w].instances.Keys))})
    case DrainReturns(k) => Advance(s, k, Drained)
    case ConfirmStop(k) => Advance(s, k, Confirmed)
    case FinishStop(k) =>
      Evict(Advance(s, k, StopPhase.Removed), RemoveStopped(s.leaf, s.stops[k].victim.worker, s.stops[k].victim.id))
    case FailStop(k) => Advance(s, k, TakenBack).(leaf := CancelStop(s.leaf, s.stops[k].victim.worker, s.stops[k].victim.id))
  }

  function Advance(s: System, k: nat, phase: StopPhase): System
    requires k < |s.stops|
  {
    s.(stops := s.stops[k := s.stops[k].(phase := phase)])
  }

  /** What has left the leaf has left the pool too. */
  function Evict(s: System, leaf: Actuator): System {
    s.(leaf := leaf, pool := s.pool - DepartedIds(leaf))
  }

  function EndJob(s: System, k: nat, started: seq<Tracked>): System
    requires k < |s.jobs| && s.jobs[k].worker < |s.leaf.workers| && |started| <= 1
  {
    s.(leaf := EndStart(s.leaf, s.jobs[k].worker, started), jobs := s.jobs[k := s.jobs[k].(waiting := false)])
  }

  ghost predicate Initial(s: System) {
    && s.leaf.total == 0 && s.leaf.pendingStarts == 0 && s.leaf.pendingStops == 0 && s.leaf.departures == []
    && |s.nodes| == |s.leaf.workers| && s.net == {} && s.jobs == [] && s.pool == {} && s.admitted == {} && s.stops == []
    && (forall w :: 0 <= w < |s.leaf.workers| ==> s.leaf.workers[w] == Worker([], 0))
    && (forall w :: 0 <= w < |s.nodes| ==> s.nodes[w] == Node(map[], 0, map[], map[], {}))
  }

  ghost predicate Stepped(ss: seq<System>, ops: seq<Op>, i: nat)
    requires i < |ops| && |ss| == |ops| + 1
  {
    Enabled(ss[i], ops[i]) && ss[i + 1] == Apply(ss[i], ops[i])
  }

  /** A run: an initial state, and one enabled operation between any two neighbours. */
  ghost predicate IsRun(ss: seq<System>, ops: seq<Op>) {
    |ss| == |ops| + 1 && Initial(ss[0]) && forall i :: 0 <= i < |ops| ==> Stepped(ss, ops, i)
  }
}
