/** What the routing controller publishes (`pkg/ingress/routing/controller.go`) for the two
    ring policies (`consistent.go`, `boundedloads.go`): frames, disconnects and reloads in any order. */
module Publication {
  import opened Chbl
  import opened Membership
  import opened Options
  import opened Sorting

  datatype Policy = ConsistentHashing | BoundedLoads(bound: real, maxChainLen: int)

  /** The static part: leaf ids in ascending order, and the ring over all of them. */
  datatype Topology = Topology(ids: seq<nat>, template: Ring)

  ghost predicate TopologyOk(t: Topology) {
    Valid(t.template) && t.template.ids == t.ids && forall i, j :: 0 <= i < j < |t.ids| ==> t.ids[i] < t.ids[j]
  }

  /** A policy's model: leaf health, one load per topology slot, and a cached ring. */
  datatype Model = Model(policy: Policy, topology: Topology, healthy: map<nat, bool>, loads: seq<real>, ring: Option<Ring>, dirty: bool)

  function NewModel(policy: Policy, t: Topology): Model {
    Model(policy, t, map[], seq(|t.ids|, _ => 0.0), None, false)
  }

  /** What requests use; the bounded-loads picker also knows the load slot of each ring id. */
  datatype Picker = Picker(leaves: seq<nat>, ring: Ring, slots: seq<nat>)

  function SlotOf(ids: seq<nat>, id: nat): (k: nat)
    ensures k <= |ids| && (k < |ids| ==> ids[k] == id) && (k == |ids| ==> id !in ids)
  {
    if ids == [] then 0 else if ids[0] == id then 0 else 1 + SlotOf(ids[1..], id)
  }

  function SlotsOf(ids: seq<nat>, ring: seq<nat>): (s: seq<nat>)
    ensures |s| == |ring| && forall i :: 0 <= i < |ring| ==> s[i] == SlotOf(ids, ring[i])
  {
    seq(|ring|, i requires 0 <= i < |ring| => SlotOf(ids, ring[i]))
  }

  /** The picker a model would build from scratch. */
  function Rebuilt(m: Model): Picker {
    var ring := SubsetOf(m.topology.template, m.healthy);
    Picker(Filter(m.topology.ids, HealthyId(m.healthy)), ring,
           if m.policy.BoundedLoads? then SlotsOf(m.topology.ids, ring.ids) else [])
  }

  /** The picker it does build, reusing the cached ring unless health has changed since. */
  function BuildPicker(m: Model): (Model, Picker) {
    var ring := if m.ring.None? || m.dirty then SubsetOf(m.topology.template, m.healthy) else m.ring.value;
    (m.(ring := Some(ring), dirty := false),
     Picker(Filter(m.topology.ids, HealthyId(m.healthy)), ring, if m.policy.BoundedLoads? then SlotsOf(m.topology.ids, ring.ids) else []))
  }

  datatype Frame = Frame(version: nat, leafID: nat, revision: nat, full: bool, healthyWorkers: nat, load: Option<real>)

  /** ReplaceLeaf and Apply, which are the same for both policies. */
  function Update(m: Model, f: Frame): (Model, UpdateResult) {
    var up := f.healthyWorkers > 0;
    var changed := IsHealthy(m.healthy, f.leafID) != up;
    var k := SlotOf(m.topology.ids, f.leafID);
    var load := if f.load.Some? then f.load.value else 0.0;
    var store := m.policy.BoundedLoads? && (f.full || f.load.Some?) && k < |m.loads| && m.loads[k] != load;
    (m.(healthy := m.healthy[f.leafID := up], dirty := m.dirty || changed, loads := if store then m.loads[k := load] else m.loads),
     if changed then PublishPicker else if store then ChangedInPlace else NoChange)
  }

  function Disconnected(m: Model, id: nat): (Model, UpdateResult) {
    var changed := IsHealthy(m.healthy, id);
    (m.(healthy := m.healthy[id := false], dirty := m.dirty || changed), if changed then PublishPicker else NoChange)
  }

  ghost predicate ModelOk(m: Model) {
    && TopologyOk(m.topology) && |m.loads| == |m.topology.ids|
    && (m.ring.Some? && !m.dirty ==> m.ring.value == SubsetOf(m.topology.template, m.healthy))
  }

  lemma {:induction false} FilterSame<T(!new)>(s: seq<T>, p: T -> bool, q: T -> bool)
    requires forall x :: p(x) == q(x)
    ensures Filter(s, p) == Filter(s, q)
  {
    if s == [] {
    } else {
      FilterSame(s[..|s| - 1], p, q);
    }
  }

  ghost predicate SameHealth(a: map<nat, bool>, b: map<nat, bool>) {
    forall id :: IsHealthy(a, id) == IsHealthy(b, id)
  }

  /** Only who is healthy matters, not how the map says it. */
  lemma SameHealthSameRing(t: Topology, a: map<nat, bool>, b: map<nat, bool>)
    requires SameHealth(a, b)
    ensures SubsetOf(t.template, a) == SubsetOf(t.template, b) && Filter(t.ids, HealthyId(a)) == Filter(t.ids, HealthyId(b))
  {
    FilterSame(t.template.nodes, HealthyNode(a), HealthyNode(b));
    FilterSame(t.template.ids, HealthyId(a), HealthyId(b));
    FilterSame(t.ids, HealthyId(a), HealthyId(b));
  }

  /** An update keeps the cache honest; and unless it asks for a new picker, the old one still is
      what a rebuild would give. */
  lemma UpdateOk(m: Model, f: Frame)
    requires ModelOk(m)
    ensures var (m', result) := Update(m, f);
            ModelOk(m') && (result != PublishPicker ==> Rebuilt(m') == Rebuilt(m))
  {
    UpdateHealth(m, f);
    if IsHealthy(m.healthy, f.leafID) == (f.healthyWorkers > 0) { SameHealthSameRing(m.topology, m.healthy, Update(m, f).0.healthy); }
  }

  lemma UpdateHealth(m: Model, f: Frame)
    ensures var (m', result) := Update(m, f);
            && m'.topology == m.topology && m'.policy == m.policy && m'.ring == m.ring && |m'.loads| == |m.loads|
            && (IsHealthy(m.healthy, f.leafID) == (f.healthyWorkers > 0) ==> SameHealth(m.healthy, m'.healthy) && m'.dirty == m.dirty)
            && (IsHealthy(m.healthy, f.leafID) != (f.healthyWorkers > 0) ==> m'.dirty && result == PublishPicker)
  {
    var healthy := Update(m, f).0.healthy;
    assert forall id :: id != f.leafID ==> IsHealthy(healthy, id) == IsHealthy(m.healthy, id);
  }

  lemma DisconnectedOk(m: Model, id: nat)
    requires ModelOk(m)
    ensures var (m', result) := Disconnected(m, id);
            ModelOk(m') && (result != PublishPicker ==> Rebuilt(m') == Rebuilt(m))
  {
    var m' := Disconnected(m, id).0;
    if !IsHealthy(m.healthy, id) { SameHealthSameRing(m.topology, m.healthy, m'.healthy); }
  }

  lemma BuildPickerOk(m: Model)
    requires ModelOk(m)
    ensures var (m', p) := BuildPicker(m);
            ModelOk(m') && p == Rebuilt(m) && Rebuilt(m') == Rebuilt(m)
  {
  }

  // ---------------------------------------------------------------- controller

  datatype Active = Active(version: nat, picker: Picker)

  /** The controller and its engine; `pending` are the ApplyConfig calls between their two
      critical sections, and `fault` records that one of them called a model that Stop had dropped. */
  datatype Controller = Controller(
    topology: Topology, model: Option<Model>, version: nat, serving: bool, revisions: map<nat, nat>,
    engine: Option<Active>, pending: set<nat>, fault: bool)

  datatype Op =
    | Begin(policy: Policy, version: nat)
    | Finish(version: nat)
    | Abandon(version: nat)
    | OnFrame(f: Frame)
    | MarkUnhealthy(leafID: nat, version: nat)
    | Stop

  function Install(c: Controller, version: nat): Controller
    requires c.model.Some?
  {
    var (m, p) := BuildPicker(c.model.value);
    c.(model := Some(m), engine := Some(Active(version, p)))
  }

  function Published(c: Controller, updated: (Model, UpdateResult)): Controller {
    var c' := c.(model := Some(updated.0));
    if c.serving && updated.1 == PublishPicker then Install(c', c.version) else c'
  }

  predicate Accepts(c: Controller, f: Frame) {
    c.model.Some? && f.version == c.version && !(f.leafID in c.revisions && f.revision <= c.revisions[f.leafID])
  }

  function Apply(c: Controller, op: Op): Controller {
    match op
    case Begin(policy, version) =>
      c.(engine := None, model := Some(NewModel(policy, c.topology)), version := version, serving := false, revisions := map[],
         pending := c.pending + {version})
    case Finish(version) =>
      if c.model.None? then c.(serving := true, fault := true)
      else Install(c.(serving := true, pending := c.pending - {version}), version)
    case Abandon(version) => c.(pending := c.pending - {version})
    case OnFrame(f) =>
      if !Accepts(c, f) then c
      else Published(c.(revisions := c.revisions[f.leafID := f.revision]), Update(c.model.value, f))
    case MarkUnhealthy(leafID, version) =>
      if c.model.None? || version != c.version then c else Published(c, Disconnected(c.model.value, leafID))
    case Stop => c.(engine := None, serving := false, model := None)
  }

  /** Reloads are serialized by the goroutine that delivers configurations, newest last. A fault
      ends the run. */
  predicate Enabled(c: Controller, op: Op) {
    && !c.fault
    && match op
       case Begin(_, version) => c.pending == {} && version > c.version
       case Finish(version) => version in c.pending
       case Abandon(version) => version in c.pending
       case _ => true
  }

  /** The contract: the engine answers exactly while serving, with the controller's own version
      and a picker that a rebuild from the model, now, would give again. */
  ghost predicate Contract(c: Controller) {
    && (c.engine.Some? <==> c.serving)
    && (c.serving ==> c.model.Some? && c.engine.value == Active(c.version, Rebuilt(c.model.value)))
  }

  ghost predicate Inv(c: Controller) {
    && TopologyOk(c.topology) && (c.model.Some? ==> ModelOk(c.model.value) && c.model.value.topology == c.topology)
    && (if c.fault then c.model.None? && c.engine.None?
        else Contract(c) && (c.pending != {} ==> c.pending == {c.version} && !c.serving))
  }

  lemma StepInv(c: Controller, op: Op)
    requires Inv(c) && Enabled(c, op)
    ensures Inv(Apply(c, op))
  {
    match op
    case Finish(_) => if c.model.Some? { BuildPickerOk(c.model.value); }
    case OnFrame(f) =>
      if Accepts(c, f) {
        UpdateOk(c.model.value, f);
      }
    case MarkUnhealthy(leafID, version) =>
      if c.model.Some? && version == c.version {
        DisconnectedOk(c.model.value, leafID);
      }
    case _ =>
  }

  ghost predicate Stepped(cs: seq<Controller>, ops: seq<Op>, i: nat)
    requires i < |ops| && |cs| == |ops| + 1
  {
    Enabled(cs[i], ops[i]) && cs[i + 1] == Apply(cs[i], ops[i])
  }

  ghost predicate IsRun(cs: seq<Controller>, ops: seq<Op>) {
    && |cs| == |ops| + 1 && TopologyOk(cs[0].topology) && cs[0] == Controller(cs[0].topology, None, 0, false, map[], None, {}, false)
    && forall i :: 0 <= i < |ops| ==> Stepped(cs, ops, i)
  }

  lemma {:induction false} RunInv(cs: seq<Controller>, ops: seq<Op>, i: nat)
    requires IsRun(cs, ops) && i < |cs|
    ensures Inv(cs[i]) && cs[i].topology == cs[0].topology
  {
    if i == 0 {
    } else {
      RunInv(cs, ops, i - 1);
      assert Stepped(cs, ops, i - 1);
      StepInv(cs[i - 1], ops[i - 1]);
    }
  }

  ghost predicate NoBegin(ops: seq<Op>, i: nat, j: nat)
    requires j <= |ops|
  {
    forall k :: i <= k < j ==> !ops[k].Begin?
  }

  ghost predicate StopAmong(ops: seq<Op>, i: nat, j: nat)
    requires j <= |ops|
  {
    exists k :: i <= k < j && ops[k].Stop?
  }

  /** While a call is pending its Begin, step `b`, is the latest; and the model is gone exactly if a
      Stop came since. */
  lemma {:induction false} PendingSince(cs: seq<Controller>, ops: seq<Op>, i: nat) returns (b: nat)
    requires IsRun(cs, ops) && i < |cs| && !cs[i].fault && cs[i].pending != {}
    ensures b < i && ops[b].Begin? && ops[b].version == cs[i].version && NoBegin(ops, b + 1, i)
    ensures cs[i].model.None? <==> StopAmong(ops, b + 1, i)
  {
    b := i - 1;
    assert Stepped(cs, ops, i - 1);
    RunInv(cs, ops, i - 1);
    if ops[i - 1].Begin? {
    } else {
      b := PendingSince(cs, ops, i - 1);
      assert StopAmong(ops, b + 1, i) <==> StopAmong(ops, b + 1, i - 1) || ops[i - 1].Stop?;
    }
  }

  /** The second half of a reload calls a missing model if and only if a Stop came since its first
      half, step `b`. */
  lemma FinishFaults(cs: seq<Controller>, ops: seq<Op>, i: nat) returns (b: nat)
    requires IsRun(cs, ops) && i < |ops| && ops[i].Finish?
    ensures b < i && ops[b].Begin? && ops[b].version == ops[i].version && NoBegin(ops, b + 1, i)
    ensures cs[i + 1].fault <==> StopAmong(ops, b + 1, i)
  {
    RunInv(cs, ops, i);
    assert Stepped(cs, ops, i);
    b := PendingSince(cs, ops, i);
  }

  /** After any sequence of frames, disconnects, reloads and stops the contract holds, unless the last
      step was a faulty Finish; so a request finds no picker of another version, and none at all
      between a reload's two halves. */
  lemma PublicationContract(cs: seq<Controller>, ops: seq<Op>, i: nat)
    requires IsRun(cs, ops) && i < |cs|
    ensures cs[i].fault ==> i == |ops| > 0 && ops[i - 1].Finish? && cs[i].engine.None?
    ensures !cs[i].fault ==> Contract(cs[i])
    ensures cs[i].pending != {} ==> cs[i].engine.None?
  {
    RunInv(cs, ops, i);
    if i > 0 { assert Stepped(cs, ops, i - 1); }
    if i < |ops| { assert Stepped(cs, ops, i); }
  }

  /** A Stop between the two halves of a reload does make the second half fault. */
  lemma StopDuringReload(t: Topology, policy: Policy) returns (cs: seq<Controller>, ops: seq<Op>)
    requires TopologyOk(t)
    ensures IsRun(cs, ops) && ops == [Begin(policy, 1), Stop, Finish(1)] && cs[3].fault
  {
    var c := Controller(t, None, 0, false, map[], None, {}, false);
    ops := [Begin(policy, 1), Stop, Finish(1)];
    cs := [c, Apply(c, ops[0]), Apply(Apply(c, ops[0]), ops[1]), Apply(Apply(Apply(c, ops[0]), ops[1]), ops[2])];
    assert Stepped(cs, ops, 0) && Stepped(cs, ops, 1) && Stepped(cs, ops, 2);
  }

  /** Without the serialization it fails, exactly if the call that finishes is not the one that
      began last: its picker is the newer policy's under the older version. */
  lemma OverlappingReloads(c: Controller, version: nat)
    requires TopologyOk(c.topology) && c.model.Some? && ModelOk(c.model.value) && c.model.value.topology == c.topology
    ensures Contract(Apply(c, Finish(version))) <==> version == c.version
  {
    BuildPickerOk(c.model.value);
  }

  lemma OverlapHappens(t: Topology, p: Policy, q: Policy)
    requires TopologyOk(t)
    ensures var c0 := Controller(t, None, 0, false, map[], None, {}, false);
            var c := Apply(Apply(Apply(c0, Begin(p, 1)), Begin(q, 2)), Finish(1));
            c.engine == Some(Active(1, Rebuilt(NewModel(q, t)))) && c.version == 2
  {
    BuildPickerOk(NewModel(q, t));
  }

  /** After any run that has not faulted a pending reload can be abandoned, and then a newer one can run through; the
      engine then answers under its version, from a model that knows no leaf to be healthy yet. */
  lemma ReloadCanFinish(cs: seq<Controller>, ops: seq<Op>, policy: Policy, version: nat)
    requires IsRun(cs, ops) && !cs[|ops|].fault && version > cs[|ops|].version
    ensures var c := cs[|ops|];
            && (c.pending != {} ==> Enabled(c, Abandon(c.version)) && Apply(c, Abandon(c.version)) == c.(pending := {}))
            && var c1 := c.(pending := {});
               && Enabled(c1, Begin(policy, version)) && Enabled(Apply(c1, Begin(policy, version)), Finish(version))
               && var c2 := Apply(Apply(c1, Begin(policy, version)), Finish(version));
                  && c2.serving && !c2.fault && c2.pending == {} && c2.version == version
                  && c2.engine == Some(Active(version, Rebuilt(NewModel(policy, c.topology))))
                  && c2.model.Some? && c2.model.value.policy == policy && forall id :: !(id in c2.model.value.healthy && c2.model.value.healthy[id])
  {
    RunInv(cs, ops, |ops|);
    var c := cs[|ops|];
    assert c.pending != {} ==> c.pending - {c.version} == {};
    assert {} + {version} - {version} == {};
    BuildPickerOk(NewModel(policy, c.topology));
  }
}
