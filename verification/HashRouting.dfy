/** The ring policies as classes: `consistent.go`, `boundedloads.go` and the membership of
    `topology.go` under `pkg/ingress/routing`. */
module HashRouting {
  import opened Chbl
  import opened Membership
  import opened Options
  import opened Publication
  import opened Sorting

  /** NewTopology: the configured ids in ascending order. */
  method NewTopology(hash: (nat, nat) -> nat, configured: set<nat>) returns (t: Topology)
    ensures TopologyOk(t) && (forall id :: id in t.ids <==> id in configured) && t.template == RingOf(hash, t.ids)
  {
    var ids: seq<nat> := [];
    var rest := configured;
    while rest != {}
      invariant rest <= configured && (forall id :: id in ids <==> id in configured && id !in rest)
      invariant forall i, j :: 0 <= i < j < |ids| ==> ids[i] != ids[j]
      decreases |rest|
    {
      var id :| id in rest;
      ids := ids + [id];
      rest := rest - {id};
    }
    var ordered := Sort(ids, IdLe);
    SortDistinct(ids);
    var ring := NewRing(hash, ordered);
    RingIsValid(hash, ordered);
    SortedAlready(ordered);
    t := Topology(ordered, ring);
  }

  lemma SortDistinct(ids: seq<nat>)
    requires forall i, j :: 0 <= i < j < |ids| ==> ids[i] != ids[j]
    ensures var s := Sort(ids, IdLe);
            (forall i, j :: 0 <= i < j < |s| ==> s[i] < s[j]) && forall id :: id in s <==> id in ids
  {
    SortSorts(ids, IdLe);
    var s := Sort(ids, IdLe);
    forall id ensures id in s <==> id in ids { SameBagSameMembers(s, ids, id); }
    DistinctBag(ids);
    forall i, j | 0 <= i < j < |s| ensures s[i] < s[j] {
      assert IdLe(s[i], s[j]);
      if s[i] == s[j] {
        TwiceInBag(s, i, j);
        assert false;
      }
    }
  }

  lemma TwiceInBag(s: seq<nat>, i: nat, j: nat)
    requires i < j < |s| && s[i] == s[j]
    ensures multiset(s)[s[j]] >= 2
  {
    assert s == s[..j] + [s[j]] + s[j + 1..];
    assert s[..j][i] in multiset(s[..j]);
  }

  lemma {:induction false} DistinctBag(ids: seq<nat>)
    requires forall i, j :: 0 <= i < j < |ids| ==> ids[i] != ids[j]
    ensures forall id :: multiset(ids)[id] <= 1
  {
    if ids == [] {
    } else {
      var n := |ids| - 1;
      DistinctBag(ids[..n]);
      assert ids == ids[..n] + [ids[n]];
      assert ids[n] !in ids[..n];
      assert ids[n] !in multiset(ids[..n]);
    }
  }

  lemma SortedAlready(ids: seq<nat>)
    requires forall i, j :: 0 <= i < j < |ids| ==> ids[i] < ids[j]
    ensures Sort(ids, IdLe) == ids
  {
    SortSorts(ids, IdLe);
    SortedUnique(Sort(ids, IdLe), ids, IdLe);
  }

  /** membership.healthyLeaves. */
  method HealthyLeaves(ids: seq<nat>, healthy: map<nat, bool>) returns (out: seq<nat>)
    ensures out == Filter(ids, HealthyId(healthy))
  {
    out := [];
    var i := 0;
    while i < |ids|
      invariant i <= |ids| && out == Filter(ids[..i], HealthyId(healthy))
    {
      assert ids[..i + 1][..i] == ids[..i];
      if IsHealthy(healthy, ids[i]) { out := out + [ids[i]]; }
      i := i + 1;
    }
    assert ids[..|ids|] == ids;
  }

  class RingModel {
    const policy: Policy
    const topology: Topology
    var healthy: map<nat, bool>
    var loads: array<real>
    var ring: Option<Ring>
    var dirty: bool

    ghost function State(): Model
      reads this, loads
    {
      Model(policy, topology, healthy, loads[..], ring, dirty)
    }

    ghost predicate Valid()
      reads this, loads
    {
      ModelOk(State())
    }

    constructor (p: Policy, t: Topology)
      requires TopologyOk(t)
      ensures Valid() && State() == NewModel(p, t) && fresh(loads)
    {
      policy, topology, healthy, ring, dirty := p, t, map[], None, false;
      loads := new real[|t.ids|](_ => 0.0);
    }

    /** ReplaceLeaf and Apply: only a health change asks for a new picker. */
    method ReplaceLeaf(f: Frame) returns (result: UpdateResult)
      requires Valid()
      modifies `healthy, `dirty, loads
      ensures Valid() && (State(), result) == Update(old(State()), f)
      ensures healthy == old(healthy)[f.leafID := f.healthyWorkers > 0]
      ensures forall k :: 0 <= k < loads.Length ==>
                loads[k] == if policy.BoundedLoads? && topology.ids[k] == f.leafID && (f.full || f.load.Some?)
                            then (if f.load.Some? then f.load.value else 0.0) else old(loads[k])
      ensures result == PublishPicker <==> (f.leafID in old(healthy) && old(healthy)[f.leafID]) != (f.healthyWorkers > 0)
    {
      UpdateOk(State(), f);
      var up := f.healthyWorkers > 0;
      var healthChanged := IsHealthy(healthy, f.leafID) != up;
      healthy := healthy[f.leafID := up];
      if healthChanged { dirty := true; }
      var valueChanged := false;
      if policy.BoundedLoads? && (f.full || f.load.Some?) {
        var k := SlotOf(topology.ids, f.leafID);
        if k < loads.Length {
          var load := if f.load.Some? then f.load.value else 0.0;
          if loads[k] != load {
            loads[k] := load;
            valueChanged := true;
          }
        }
      }
      result := if healthChanged then PublishPicker else if valueChanged then ChangedInPlace else NoChange;
    }

    method LeafDisconnected(id: nat) returns (result: UpdateResult)
      requires Valid()
      modifies `healthy, `dirty
      ensures Valid() && (State(), result) == Disconnected(old(State()), id) && healthy == old(healthy)[id := false]
      ensures result == PublishPicker <==> id in old(healthy) && old(healthy)[id]
    {
      DisconnectedOk(State(), id);
      var changed := IsHealthy(healthy, id);
      healthy := healthy[id := false];
      if changed { dirty := true; }
      result := if changed then PublishPicker else NoChange;
    }

    /** Picker: the ring is taken from the cache unless health has changed since it was made. */
    method MakePicker() returns (p: Picker)
      requires Valid()
      modifies `ring, `dirty
      ensures Valid() && (State(), p) == BuildPicker(old(State())) && p == Rebuilt(old(State()))
      ensures !dirty && ring == Some(p.ring)
    {
      BuildPickerOk(State());
      var leaves := HealthyLeaves(topology.ids, healthy);
      if ring.None? || dirty {
        var r := Subset(topology.template, healthy);
        ring, dirty := Some(r), false;
      }
      p := Picker(leaves, ring.value, if policy.BoundedLoads? then SlotsOf(topology.ids, ring.value.ids) else []);
    }
  }

  /** A ring over exactly the healthy leaves, with as many nodes as that needs. */
  lemma RebuiltRing(m: Model)
    requires ModelOk(m)
    ensures var p := Rebuilt(m);
            && Valid(p.ring) && p.ring.ids == p.leaves && (p.leaves != [] ==> p.ring.nodes != [])
            && (forall id :: id in p.leaves <==> id in m.topology.ids && id in m.healthy && m.healthy[id])
            && (forall i, j :: 0 <= i < j < |p.leaves| ==> p.leaves[i] < p.leaves[j])
  {
    FilterMembers(m.topology.ids, HealthyId(m.healthy));
    FilterSorted(m.topology.ids, HealthyId(m.healthy), IdLt);
    SubsetValid(m.topology.template, m.healthy);
    var p := Rebuilt(m);
    if p.leaves != [] {
      assert p.ring.ids[0] in p.ring.ids;
    }
  }

  lemma SubsetValid(r: Ring, healthy: map<nat, bool>)
    requires Valid(r)
    ensures Valid(SubsetOf(r, healthy))
  {
    var s := SubsetOf(r, healthy);
    FilterSorted(r.ids, HealthyId(healthy), IdLe);
    FilterSorted(r.nodes, HealthyNode(healthy), NodeLe);
    FilterMembers(r.ids, HealthyId(healthy));
    FilterMembers(r.nodes, HealthyNode(healthy));
    forall id | id in s.ids ensures exists x :: x in s.nodes && x.id == id {
      var x :| x in r.nodes && x.id == id;
      assert x in s.nodes;
    }
  }

  predicate IdLt(a: nat, b: nat) { a < b }

  datatype Target = NoHealthyLeaves | Leaf(id: nat, reason: Reason)

  /** Pick of consistent hashing: the home on the healthy ring, never the fallback. */
  method PickConsistent(p: Picker, ghost m: Model, position: nat) returns (t: Target)
    requires ModelOk(m) && p == Rebuilt(m)
    ensures t.NoHealthyLeaves? <==> p.leaves == []
    ensures t.Leaf? ==> t == Leaf(HomeOf(p.ring.nodes, position), AtHome) && t.id in p.leaves
  {
    if |p.leaves| == 0 { return NoHealthyLeaves; }
    RebuiltRing(m);
    var home := Home(p.ring, position);
    t := Leaf(home, AtHome);
  }

  /** The load of an id as the picker reads it, through its slot. */
  function Loaded(t: Topology, loads: seq<real>): nat -> real {
    (id: nat) => if SlotOf(t.ids, id) < |loads| then loads[SlotOf(t.ids, id)] else 0.0
  }

  /** Pick of bounded loads over the loads of the moment: the rule's answer, never the fallback. */
  method PickBounded(p: Picker, model: RingModel, position: nat) returns (t: Target)
    requires model.Valid() && model.policy.BoundedLoads? && p == Rebuilt(model.State())
    ensures t.NoHealthyLeaves? <==> p.leaves == []
    ensures t.Leaf? ==>
              && t.id in p.leaves
              && Decides(p.ring, Loaded(model.topology, model.loads[..]), if model.policy.bound <= 0.0 then 1.0 else model.policy.bound,
                         if model.policy.maxChainLen <= 0 then 3 else model.policy.maxChainLen, HomeOf(p.ring.nodes, position), t.id, t.reason)
  {
    if |p.leaves| == 0 { return NoHealthyLeaves; }
    RebuiltRing(model.State());
    var home := Home(p.ring, position);
    var read := Loaded(model.topology, model.loads[..]);
    FilterMembers(model.topology.ids, HealthyId(model.healthy));
    var layout := Scanned(Slots(p.ring.ids, p.slots, model.loads[..]));
    assert Aligned(layout.s, read) by {
      forall i | 0 <= i < |p.ring.ids| ensures SlotOf(model.topology.ids, p.ring.ids[i]) < |model.topology.ids| {
        assert p.ring.ids[i] in p.leaves;
      }
    }
    var id, reason := ForwardBy(p.ring, read, layout, model.policy.bound, model.policy.maxChainLen, home);
    DecisionOnRing(p.ring, read, NormalizeBound(model.policy.bound), NormalizeMaxChainLen(model.policy.maxChainLen), home, id, reason);
    t := Leaf(id, reason);
  }
}
