/** The consistent-hashing ring with bounded loads of `pkg/chbl/chbl.go`. The hash is a parameter. */
module Chbl {
  import opened Membership
  import opened Rotation
  import opened Sorting

  const REPLICAS: nat := 128
  const DEFAULT_BOUND: real := 1.0
  const DEFAULT_MAX_CHAIN_LEN: nat := 3

  datatype Node = Node(position: nat, id: nat)

  datatype Ring = Ring(nodes: seq<Node>, ids: seq<nat>, first: map<nat, nat>)

  predicate IdLe(a: nat, b: nat) { a <= b }

  predicate NodeLe(a: Node, b: Node) { a.position < b.position || (a.position == b.position && a.id <= b.id) }

  // ---------------------------------------------------------------- the ring

  function Replicas(hash: (nat, nat) -> nat, id: nat): seq<Node> {
    seq(REPLICAS, (i: nat) => Node(hash(id, i), id))
  }

  function Placed(hash: (nat, nat) -> nat, ids: seq<nat>): seq<Node> {
    if ids == [] then [] else Placed(hash, ids[..|ids| - 1]) + Replicas(hash, ids[|ids| - 1])
  }

  /** The first position of every id. */
  function FirstOf(nodes: seq<Node>): map<nat, nat> {
    if nodes == [] then map[]
    else
      var n := |nodes| - 1;
      var m := FirstOf(nodes[..n]);
      if nodes[n].id in m then m else m[nodes[n].id := n]
  }

  function RingOf(hash: (nat, nat) -> nat, ids: seq<nat>): Ring {
    var uniq := Sort(ids, IdLe);
    var nodes := Sort(Placed(hash, uniq), NodeLe);
    Ring(nodes, uniq, FirstOf(nodes))
  }

  /** What every ring built here satisfies. */
  ghost predicate Valid(r: Ring) {
    && Sorted(r.ids, IdLe) && Sorted(r.nodes, NodeLe) && r.first == FirstOf(r.nodes)
    && (forall x :: x in r.nodes ==> x.id in r.ids)
    && (forall id :: id in r.ids ==> exists x :: x in r.nodes && x.id == id)
  }

  lemma {:induction false} FirstOfOk(nodes: seq<Node>)
    ensures forall id :: id in FirstOf(nodes) <==> exists x :: x in nodes && x.id == id
    ensures forall id :: id in FirstOf(nodes) ==>
              FirstOf(nodes)[id] < |nodes| && nodes[FirstOf(nodes)[id]].id == id
              && forall k :: 0 <= k < FirstOf(nodes)[id] ==> nodes[k].id != id
  {
    if nodes == [] {
    } else {
      var n := |nodes| - 1;
      FirstOfOk(nodes[..n]);
      assert nodes == nodes[..n] + [nodes[n]];
      forall k, id | 0 <= k < n && id !in FirstOf(nodes[..n]) ensures nodes[k].id != id { assert nodes[k] in nodes[..n]; }
      assert nodes[n] in nodes;
    }
  }

  lemma {:induction false} PlacedIds(hash: (nat, nat) -> nat, ids: seq<nat>)
    ensures forall x :: x in Placed(hash, ids) ==> x.id in ids
    ensures forall id :: id in ids ==> exists x :: x in Placed(hash, ids) && x.id == id
  {
    if ids == [] {
    } else {
      var n := |ids| - 1;
      PlacedIds(hash, ids[..n]);
      assert ids == ids[..n] + [ids[n]];
      assert Replicas(hash, ids[n])[0] in Placed(hash, ids);
      forall id | id in ids[..n] ensures exists x :: x in Placed(hash, ids) && x.id == id {
        var x :| x in Placed(hash, ids[..n]) && x.id == id;
        assert x in Placed(hash, ids);
      }
    }
  }

  lemma SameBagSameMembers<T>(a: seq<T>, b: seq<T>, x: T)
    requires multiset(a) == multiset(b)
    ensures x in a <==> x in b
  {
    assert x in a <==> x in multiset(a);
    assert x in b <==> x in multiset(b);
  }

  lemma RingIsValid(hash: (nat, nat) -> nat, ids: seq<nat>)
    ensures Valid(RingOf(hash, ids)) && multiset(RingOf(hash, ids).ids) == multiset(ids)
  {
    var r := RingOf(hash, ids);
    SortSorts(ids, IdLe);
    SortSorts(Placed(hash, r.ids), NodeLe);
    PlacedIds(hash, r.ids);
    forall x: Node ensures x in r.nodes <==> x in Placed(hash, r.ids) { SameBagSameMembers(r.nodes, Placed(hash, r.ids), x); }
  }

  /** How often a node lies on a ring: once for each of the 128 hashes of its id that gives its position,
      for each time the id was given. */
  lemma RingPositions(hash: (nat, nat) -> nat, ids: seq<nat>, x: Node)
    ensures multiset(RingOf(hash, ids).nodes)[x] == multiset(ids)[x.id] * |set i | 0 <= i < 128 && hash(x.id, i) == x.position|
  {
    var uniq := Sort(ids, IdLe);
    SortSorts(ids, IdLe);
    SortSorts(Placed(hash, uniq), NodeLe);
    forall id ensures multiset(Replicas(hash, id))[x] == if x.id == id then |set i | 0 <= i < 128 && hash(x.id, i) == x.position| else 0 {
      ReplicaCount(hash, id, x, 128);
      assert Replicas(hash, id)[..128] == Replicas(hash, id);
    }
    PlacedCount(hash, uniq, x, |set i | 0 <= i < 128 && hash(x.id, i) == x.position|);
  }

  lemma {:induction false} PlacedCount(hash: (nat, nat) -> nat, ids: seq<nat>, x: Node, hits: nat)
    requires forall id :: multiset(Replicas(hash, id))[x] == if x.id == id then hits else 0
    ensures multiset(Placed(hash, ids))[x] == multiset(ids)[x.id] * hits
  {
    if ids == [] {
    } else {
      var n := |ids| - 1;
      var m := multiset(ids[..n])[x.id];
      PlacedCount(hash, ids[..n], x, hits);
      assert multiset(ids)[x.id] == if x.id == ids[n] then m + 1 else m by { assert ids == ids[..n] + [ids[n]]; }
      assert Placed(hash, ids) == Placed(hash, ids[..n]) + Replicas(hash, ids[n]);
      assert multiset(Placed(hash, ids))[x] == m * hits + multiset(Replicas(hash, ids[n]))[x];
      OneMoreTime(m, hits);
    }
  }

  lemma OneMoreTime(m: nat, hits: nat)
    ensures (m + 1) * hits == m * hits + hits
  {
  }

  lemma {:induction false} ReplicaCount(hash: (nat, nat) -> nat, id: nat, x: Node, n: nat)
    requires n <= 128
    ensures multiset(Replicas(hash, id)[..n])[x] == if x.id == id then |set i | 0 <= i < n && hash(x.id, i) == x.position| else 0
  {
    var own := Replicas(hash, id);
    if n == 0 {
    } else {
      ReplicaCount(hash, id, x, n - 1);
      assert own[..n] == own[..n - 1] + [own[n - 1]];
      var before := set i | 0 <= i < n - 1 && hash(x.id, i) == x.position;
      var after := set i | 0 <= i < n && hash(x.id, i) == x.position;
      assert after == if hash(x.id, n - 1) == x.position then before + {n - 1} else before;
    }
  }

  /** The replicas of one id. */
  method Replicate(hash: (nat, nat) -> nat, id: nat) returns (own: seq<Node>)
    ensures own == Replicas(hash, id)
  {
    own := [];
    var i := 0;
    while i < REPLICAS
      invariant i <= REPLICAS && own == Replicas(hash, id)[..i]
    {
      own := own + [Node(hash(id, i), id)];
      i := i + 1;
    }
  }

  method IndexFirst(nodes: seq<Node>) returns (first: map<nat, nat>)
    ensures first == FirstOf(nodes)
  {
    first := map[];
    var k := 0;
    while k < |nodes|
      invariant k <= |nodes| && first == FirstOf(nodes[..k])
    {
      assert nodes[..k + 1][..k] == nodes[..k];
      if nodes[k].id !in first { first := first[nodes[k].id := k]; }
      k := k + 1;
    }
    assert nodes[..|nodes|] == nodes;
  }

  /** NewRing. */
  method NewRing(hash: (nat, nat) -> nat, ids: seq<nat>) returns (r: Ring)
    ensures r == RingOf(hash, ids)
  {
    var uniq := Sort(ids, IdLe);
    var nodes: seq<Node> := [];
    var k := 0;
    while k < |uniq|
      invariant k <= |uniq| && nodes == Placed(hash, uniq[..k])
    {
      assert uniq[..k + 1][..k] == uniq[..k];
      var own := Replicate(hash, uniq[k]);
      nodes := nodes + own;
      k := k + 1;
    }
    assert uniq[..|uniq|] == uniq;
    nodes := Sort(nodes, NodeLe);
    var first := IndexFirst(nodes);
    r := Ring(nodes, uniq, first);
  }

  // ------------------------------------------------------------------- subset

  function HealthyId(healthy: map<nat, bool>): nat -> bool { (id: nat) => IsHealthy(healthy, id) }
  function HealthyNode(healthy: map<nat, bool>): Node -> bool { (x: Node) => IsHealthy(healthy, x.id) }

  function SubsetOf(r: Ring, healthy: map<nat, bool>): Ring {
    var nodes := Filter(r.nodes, HealthyNode(healthy));
    Ring(nodes, Filter(r.ids, HealthyId(healthy)), FirstOf(nodes))
  }

  /** The second half of Subset: one pass over the nodes. */
  method SubsetNodes(all: seq<Node>, healthy: map<nat, bool>) returns (nodes: seq<Node>, first: map<nat, nat>)
    ensures nodes == Filter(all, HealthyNode(healthy)) && first == FirstOf(nodes)
  {
    nodes, first := [], map[];
    var k := 0;
    while k < |all|
      invariant k <= |all| && nodes == Filter(all[..k], HealthyNode(healthy)) && first == FirstOf(nodes)
    {
      assert all[..k + 1][..k] == all[..k];
      if IsHealthy(healthy, all[k].id) {
        if all[k].id !in first { first := first[all[k].id := |nodes|]; }
        assert (nodes + [all[k]])[..|nodes|] == nodes;
        nodes := nodes + [all[k]];
      }
      k := k + 1;
    }
    assert all[..|all|] == all;
  }

  /** Subset: nothing to do if every id is healthy. */
  method Subset(r: Ring, healthy: map<nat, bool>) returns (s: Ring)
    requires Valid(r)
    ensures s == SubsetOf(r, healthy)
  {
    var ids: seq<nat> := [];
    var k := 0;
    while k < |r.ids|
      invariant k <= |r.ids| && ids == Filter(r.ids[..k], HealthyId(healthy))
    {
      assert r.ids[..k + 1][..k] == r.ids[..k];
      if IsHealthy(healthy, r.ids[k]) { ids := ids + [r.ids[k]]; }
      k := k + 1;
    }
    assert r.ids[..|r.ids|] == r.ids;
    if |ids| == |r.ids| {
      EveryIdHealthy(r, healthy);
      return r;
    }
    var nodes, first := SubsetNodes(r.nodes, healthy);
    s := Ring(nodes, ids, first);
  }

  lemma EveryIdHealthy(r: Ring, healthy: map<nat, bool>)
    requires Valid(r) && |Filter(r.ids, HealthyId(healthy))| == |r.ids|
    ensures SubsetOf(r, healthy) == r
  {
    forall i | 0 <= i < |r.ids| ensures IsHealthy(healthy, r.ids[i]) {
      if !IsHealthy(healthy, r.ids[i]) { FilterDrops(r.ids, HealthyId(healthy), i); }
    }
    FilterAll(r.ids, HealthyId(healthy));
    forall i | 0 <= i < |r.nodes| ensures HealthyNode(healthy)(r.nodes[i]) {
      assert r.nodes[i] in r.nodes;
    }
    FilterAll(r.nodes, HealthyNode(healthy));
  }

  lemma FilterReplicas(hash: (nat, nat) -> nat, id: nat, healthy: map<nat, bool>)
    ensures Filter(Replicas(hash, id), HealthyNode(healthy)) == if IsHealthy(healthy, id) then Replicas(hash, id) else []
  {
    if IsHealthy(healthy, id) {
      FilterAll(Replicas(hash, id), HealthyNode(healthy));
    } else {
      FilterNone(Replicas(hash, id), HealthyNode(healthy));
    }
  }

  lemma {:induction false} FilterPlaced(hash: (nat, nat) -> nat, ids: seq<nat>, healthy: map<nat, bool>)
    ensures Filter(Placed(hash, ids), HealthyNode(healthy)) == Placed(hash, Filter(ids, HealthyId(healthy)))
  {
    if ids == [] {
    } else {
      var rest, id := ids[..|ids| - 1], ids[|ids| - 1];
      FilterPlaced(hash, rest, healthy);
      var kept := Filter(rest, HealthyId(healthy));
      assert Filter(Placed(hash, ids), HealthyNode(healthy))
          == Placed(hash, kept) + if IsHealthy(healthy, id) then Replicas(hash, id) else [] by {
        FilterConcat(Placed(hash, rest), Replicas(hash, id), HealthyNode(healthy));
        FilterReplicas(hash, id, healthy);
      }
      assert Filter(ids, HealthyId(healthy)) == if IsHealthy(healthy, id) then kept + [id] else kept;
    }
  }

  /** The subset ring is the ring built afresh from the healthy ids: same nodes, ids and first. */
  lemma SubsetIsRebuild(hash: (nat, nat) -> nat, ids: seq<nat>, healthy: map<nat, bool>)
    ensures SubsetOf(RingOf(hash, ids), healthy) == RingOf(hash, Filter(ids, HealthyId(healthy)))
  {
    var r := RingOf(hash, ids);
    var s := RingOf(hash, Filter(ids, HealthyId(healthy)));
    SortCommutes(ids, HealthyId(healthy), IdLe);
    SortCommutes(Placed(hash, r.ids), HealthyNode(healthy), NodeLe);
    FilterPlaced(hash, r.ids, healthy);
  }

  /** Filtering a sorted sequence is sorting the filtered one. */
  lemma SortCommutes<T(!new)>(s: seq<T>, p: T -> bool, le: (T, T) -> bool)
    requires TotalOrder(le)
    ensures Filter(Sort(s, le), p) == Sort(Filter(s, p), le)
  {
    SortSorts(s, le);
    SortSorts(Filter(s, p), le);
    FilterSorted(Sort(s, le), p, le);
    FilterBag(Sort(s, le), s, p);
    SortedUnique(Filter(Sort(s, le), p), Sort(Filter(s, p), le), le);
  }

  // --------------------------------------------------------------------- home

  function AtOrAfter(position: nat): Node -> bool { (x: Node) => x.position >= position }
  function Before(position: nat): Node -> bool { (x: Node) => x.position < position }

  /** The nodes in clockwise order from a position. */
  function Clockwise(nodes: seq<Node>, position: nat): seq<Node> {
    Filter(nodes, AtOrAfter(position)) + Filter(nodes, Before(position))
  }

  function HomeOf(nodes: seq<Node>, position: nat): nat {
    if Clockwise(nodes, position) == [] then 0 else Clockwise(nodes, position)[0].id
  }

  lemma ClockwiseSplit(nodes: seq<Node>, position: nat, i: nat)
    requires i <= |nodes| && (forall k :: 0 <= k < i ==> nodes[k].position < position)
    requires forall k :: i <= k < |nodes| ==> nodes[k].position >= position
    ensures Clockwise(nodes, position) == nodes[i..] + nodes[..i]
  {
    assert nodes == nodes[..i] + nodes[i..];
    FilterConcat(nodes[..i], nodes[i..], AtOrAfter(position));
    FilterConcat(nodes[..i], nodes[i..], Before(position));
    FilterNone(nodes[..i], AtOrAfter(position));
    FilterAll(nodes[i..], AtOrAfter(position));
    FilterAll(nodes[..i], Before(position));
    FilterNone(nodes[i..], Before(position));
  }

  /** The binary search of Home. */
  method SearchPosition(nodes: seq<Node>, position: nat) returns (lo: nat)
    requires Sorted(nodes, NodeLe)
    ensures lo <= |nodes| && (forall k :: 0 <= k < lo ==> nodes[k].position < position)
    ensures forall k :: lo <= k < |nodes| ==> nodes[k].position >= position
  {
    lo := 0;
    var hi := |nodes|;
    while lo < hi
      invariant 0 <= lo <= hi <= |nodes|
      invariant forall k :: 0 <= k < lo ==> nodes[k].position < position
      invariant forall k :: hi <= k < |nodes| ==> nodes[k].position >= position
    {
      var mid := (lo + hi) / 2;
      if nodes[mid].position >= position {
        forall k | mid < k < |nodes| ensures nodes[k].position >= position { assert NodeLe(nodes[mid], nodes[k]); }
        hi := mid;
      } else {
        forall k | 0 <= k < mid ensures nodes[k].position < position { assert NodeLe(nodes[k], nodes[mid]); }
        lo := mid + 1;
      }
    }
  }

  /** `id` has the first node at or after the position, or there is none and it has the first of all. */
  ghost predicate IsHome(nodes: seq<Node>, position: nat, id: nat) {
    exists k :: 0 <= k < |nodes| && nodes[k].id == id && FirstFrom(nodes, position, k)
  }

  ghost predicate FirstFrom(nodes: seq<Node>, position: nat, k: nat)
    requires k < |nodes|
  {
    if nodes[k].position >= position then forall j :: 0 <= j < k ==> nodes[j].position < position
    else k == 0 && forall j :: 0 <= j < |nodes| ==> nodes[j].position < position
  }

  /** Home: the first node at or after the position, wrapping to the start. */
  method Home(r: Ring, position: nat) returns (id: nat)
    requires Valid(r)
    ensures id == HomeOf(r.nodes, position)
    ensures if r.nodes == [] then id == 0 else id in r.ids && IsHome(r.nodes, position, id)
  {
    var idx := SearchPosition(r.nodes, position);
    ClockwiseSplit(r.nodes, position, idx);
    if |r.nodes| == 0 { return 0; }
    if idx == |r.nodes| { idx := 0; }
    assert r.nodes[idx] in r.nodes;
    id := r.nodes[idx].id;
    assert FirstFrom(r.nodes, position, idx);
  }

  /** So the home has node `k`: the first at or after the position, or the first of all where there is none. */
  lemma HomeExactly(nodes: seq<Node>, position: nat, id: nat) returns (k: nat)
    requires IsHome(nodes, position, id)
    ensures k < |nodes| && nodes[k].id == id && (forall j :: 0 <= j < k ==> nodes[j].position < position)
    ensures nodes[k].position >= position || (k == 0 && forall j :: 0 <= j < |nodes| ==> nodes[j].position < position)
  {
    k :| 0 <= k < |nodes| && nodes[k].id == id && FirstFrom(nodes, position, k);
  }

  lemma ClockwiseSubset(nodes: seq<Node>, position: nat, healthy: map<nat, bool>)
    ensures Clockwise(Filter(nodes, HealthyNode(healthy)), position) == Filter(Clockwise(nodes, position), HealthyNode(healthy))
  {
    FilterSwap(nodes, HealthyNode(healthy), AtOrAfter(position));
    FilterSwap(nodes, HealthyNode(healthy), Before(position));
    FilterConcat(Filter(nodes, AtOrAfter(position)), Filter(nodes, Before(position)), HealthyNode(healthy));
  }

  lemma {:induction false} FilterFirst<T>(s: seq<T>, p: T -> bool, k: nat)
    requires k < |s| && p(s[k]) && forall j :: 0 <= j < k ==> !p(s[j])
    ensures Filter(s, p) != [] && Filter(s, p)[0] == s[k]
  {
    assert s == s[..k] + ([s[k]] + s[k + 1..]);
    FilterConcat(s[..k], [s[k]] + s[k + 1..], p);
    FilterConcat([s[k]], s[k + 1..], p);
    FilterNone(s[..k], p);
    FilterAll([s[k]], p);
  }

  /** The home on the healthy ring is the first healthy node clockwise on the full ring. */
  lemma HomeMovesToFirstHealthy(r: Ring, position: nat, healthy: map<nat, bool>, k: nat)
    requires k < |Clockwise(r.nodes, position)| && IsHealthy(healthy, Clockwise(r.nodes, position)[k].id)
    requires forall j :: 0 <= j < k ==> !IsHealthy(healthy, Clockwise(r.nodes, position)[j].id)
    ensures HomeOf(SubsetOf(r, healthy).nodes, position) == Clockwise(r.nodes, position)[k].id
  {
    ClockwiseSubset(r.nodes, position, healthy);
    FilterFirst(Clockwise(r.nodes, position), HealthyNode(healthy), k);
  }

  /** The home on a healthy ring is healthy, and is the first healthy node clockwise. */
  lemma HomeIsFirst(r: Ring, position: nat, healthy: map<nat, bool>)
    requires SubsetOf(r, healthy).nodes != []
    ensures var firsts := Filter(Clockwise(r.nodes, position), HealthyNode(healthy));
            firsts != [] && HomeOf(SubsetOf(r, healthy).nodes, position) == firsts[0].id && IsHealthy(healthy, firsts[0].id)
  {
    ClockwiseSubset(r.nodes, position, healthy);
    ClockwiseKeepsSize(SubsetOf(r, healthy).nodes, position);
    var firsts := Filter(Clockwise(r.nodes, position), HealthyNode(healthy));
    FilterMembers(Clockwise(r.nodes, position), HealthyNode(healthy));
    assert firsts[0] in firsts;
  }

  /** Minimal disruption: between any two healthy sets a function keeps its home exactly if its old home
      is still healthy and its new home was healthy before. */
  lemma HomeIsStable(r: Ring, position: nat, before: map<nat, bool>, after: map<nat, bool>)
    requires SubsetOf(r, before).nodes != [] && SubsetOf(r, after).nodes != []
    ensures var was, now := HomeOf(SubsetOf(r, before).nodes, position), HomeOf(SubsetOf(r, after).nodes, position);
            was == now <==> IsHealthy(after, was) && IsHealthy(before, now)
  {
    HomeIsFirst(r, position, before);
    HomeIsFirst(r, position, after);
    var was, now := HomeOf(SubsetOf(r, before).nodes, position), HomeOf(SubsetOf(r, after).nodes, position);
    if IsHealthy(after, was) && IsHealthy(before, now) {
      FirstKept(Clockwise(r.nodes, position), HealthyNode(before), HealthyNode(after));
    }
  }

  /** So a function whose home stays healthy keeps it when others leave. */
  lemma HomeSurvivesLeaving(r: Ring, position: nat, before: map<nat, bool>, after: map<nat, bool>)
    requires SubsetOf(r, before).nodes != [] && IsHealthy(after, HomeOf(SubsetOf(r, before).nodes, position))
    requires forall id :: IsHealthy(after, id) ==> IsHealthy(before, id)
    ensures HomeOf(SubsetOf(r, after).nodes, position) == HomeOf(SubsetOf(r, before).nodes, position)
  {
    var c := Clockwise(r.nodes, position);
    HomeIsFirst(r, position, before);
    FilterMembers(c, HealthyNode(before));
    FilterMembers(c, HealthyNode(after));
    assert Filter(c, HealthyNode(before))[0] in Filter(c, HealthyNode(after));
    ClockwiseSubset(r.nodes, position, after);
    ClockwiseKeepsSize(SubsetOf(r, after).nodes, position);
    HomeIsFirst(r, position, after);
    HomeIsStable(r, position, before, after);
  }

  lemma {:induction false} ClockwiseKeepsSize(nodes: seq<Node>, position: nat)
    ensures |Clockwise(nodes, position)| == |nodes|
  {
    if nodes == [] {
    } else {
      ClockwiseKeepsSize(nodes[..|nodes| - 1], position);
    }
  }

  /** Two filters whose first elements both pass the other filter start with the same one. */
  lemma FirstKept<T(!new)>(s: seq<T>, p: T -> bool, q: T -> bool)
    requires Filter(s, p) != [] && Filter(s, q) != [] && q(Filter(s, p)[0]) && p(Filter(s, q)[0])
    ensures Filter(s, q)[0] == Filter(s, p)[0]
  {
    FilterMembers(s, p);
    FilterMembers(s, q);
    assert Filter(s, p)[0] in s && Filter(s, q)[0] in s;
    var i, j := FirstIndex(s, p), FirstIndex(s, q);
    FilterFirst(s, p, i);
    FilterFirst(s, q, j);
  }

  ghost function FirstIndex<T(!new)>(s: seq<T>, p: T -> bool): (k: nat)
    requires exists x :: x in s && p(x)
    ensures k < |s| && p(s[k]) && forall j :: 0 <= j < k ==> !p(s[j])
  {
    if p(s[0]) then 0
    else
      var x :| x in s && p(x);
      assert s == [s[0]] + s[1..];
      1 + FirstIndex(s[1..], p)
  }

  // ------------------------------------------------------------------- chains

  /** The first node after position `idx`, from step `i` on, that is not `id`'s; or `id`. */
  function NextFrom(nodes: seq<Node>, idx: nat, i: nat, id: nat): nat
    decreases |nodes| + 1 - i
  {
    if i > |nodes| || nodes == [] then id
    else if nodes[Turn(idx, i, |nodes|)].id != id then nodes[Turn(idx, i, |nodes|)].id
    else NextFrom(nodes, idx, i + 1, id)
  }

  function NextOf(r: Ring, id: nat): nat {
    if id in r.first then NextFrom(r.nodes, r.first[id], 1, id) else id
  }

  method Next(r: Ring, id: nat) returns (next: nat)
    ensures next == NextOf(r, id)
  {
    if |r.nodes| == 0 { return id; }
    if id !in r.first { return id; }
    var idx := r.first[id];
    var i := 1;
    while i <= |r.nodes|
      invariant 1 <= i <= |r.nodes| + 1 && NextOf(r, id) == NextFrom(r.nodes, idx, i, id)
    {
      var node := r.nodes[Turn(idx, i, |r.nodes|)];
      if node.id != id { return node.id; }
      i := i + 1;
    }
    next := id;
  }

  lemma {:induction false} NextFromOk(nodes: seq<Node>, idx: nat, i: nat, id: nat, x: nat)
    requires 1 <= i <= |nodes| + 1 && x < |nodes| && nodes[x].id != id && exists k :: i <= k <= |nodes| && Turn(idx, k, |nodes|) == x
    ensures NextFrom(nodes, idx, i, id) != id && exists y :: y in nodes && y.id == NextFrom(nodes, idx, i, id)
    decreases |nodes| + 1 - i
  {
    var y := nodes[Turn(idx, i, |nodes|)];
    assert y in nodes;
    if y.id != id {
    } else {
      var k :| i <= k <= |nodes| && Turn(idx, k, |nodes|) == x;
      assert k != i;
      NextFromOk(nodes, idx, i + 1, id, x);
    }
  }

  lemma OnRing(r: Ring, id: nat)
    requires Valid(r) && id in r.ids
    ensures id in r.first && exists k :: 0 <= k < |r.nodes| && r.nodes[k].id == id
  {
    FirstOfOk(r.nodes);
    var x :| x in r.nodes && x.id == id;
    var k :| 0 <= k < |r.nodes| && r.nodes[k] == x;
  }

  lemma NextLeaves(nodes: seq<Node>, idx: nat, id: nat, k: nat)
    requires k < |nodes| && nodes[k].id != id
    ensures NextFrom(nodes, idx, 1, id) != id && exists y :: y in nodes && y.id == NextFrom(nodes, idx, 1, id)
  {
    TurnCovers(idx + 1, |nodes|, k);
    var offset :| 0 <= offset < |nodes| && Turn(idx + 1, offset, |nodes|) == k;
    assert Turn(idx, offset + 1, |nodes|) == k;
    NextFromOk(nodes, idx, 1, id, k);
  }

  /** Next stays on the ring, and moves on exactly if the ring has another id. */
  lemma NextMoves(r: Ring, id: nat)
    requires Valid(r) && id in r.ids
    ensures NextOf(r, id) in r.ids
    ensures NextOf(r, id) != id <==> exists other :: other in r.ids && other != id
  {
    OnRing(r, id);
    if other :| other in r.ids && other != id {
      OnRing(r, other);
      var k :| 0 <= k < |r.nodes| && r.nodes[k].id == other;
      NextLeaves(r.nodes, r.first[id], id, k);
    } else {
      NextFromStays(r.nodes, r.first[id], 1, id, r.ids);
    }
  }

  /** The walk passes over the id's own nodes and stops at the first other one. */
  lemma {:induction false} NextFromFirst(nodes: seq<Node>, idx: nat, i: nat, id: nat) returns (k: nat)
    requires 1 <= i && nodes != [] && NextFrom(nodes, idx, i, id) != id
    ensures i <= k <= |nodes| && nodes[Turn(idx, k, |nodes|)].id == NextFrom(nodes, idx, i, id)
    ensures forall j :: i <= j < k ==> nodes[Turn(idx, j, |nodes|)].id == id
    decreases |nodes| + 1 - i
  {
    k := i;
    if nodes[Turn(idx, i, |nodes|)].id != id {
    } else {
      k := NextFromFirst(nodes, idx, i + 1, id);
    }
  }

  lemma TurnIsWalk(nodes: seq<Node>, p: nat, j: nat)
    requires p < |nodes| && j <= |nodes|
    ensures nodes[Turn(p, j, |nodes|)] == if j == |nodes| then nodes[p] else (nodes[p..] + nodes[..p])[j]
  {
    if j < |nodes| {
      TurnFrom(0, p, j, |nodes|);
    } else {
      ModPlus(1, |nodes|, p);
    }
  }

  /** Next is the first other id clockwise from the id's first position `p`: `k` steps on, with nothing but
      the id's own nodes before. */
  lemma NextIsFirstOther(r: Ring, id: nat, p: nat) returns (k: nat)
    requires Valid(r) && id in r.ids && exists other :: other in r.ids && other != id
    requires p < |r.nodes| && r.nodes[p].id == id && forall j :: 0 <= j < p ==> r.nodes[j].id != id
    ensures var walk := r.nodes[p..] + r.nodes[..p];
            1 <= k < |walk| && NextOf(r, id) == walk[k].id != id && forall j :: 0 <= j < k ==> walk[j].id == id
  {
    NextMoves(r, id);
    OnRing(r, id);
    FirstOfOk(r.nodes);
    assert r.first[id] == p;
    k := NextFromFirst(r.nodes, p, 1, id);
    TurnIsWalk(r.nodes, p, k);
    var walk := r.nodes[p..] + r.nodes[..p];
    forall j | 0 <= j < k ensures walk[j].id == id {
      if j > 0 { TurnIsWalk(r.nodes, p, j); }
    }
  }

  lemma {:induction false} NextFromStays(nodes: seq<Node>, idx: nat, i: nat, id: nat, ids: seq<nat>)
    requires (forall x :: x in nodes ==> x.id in ids) && forall other :: other in ids ==> other == id
    ensures NextFrom(nodes, idx, i, id) == id
    decreases |nodes| + 1 - i
  {
    if i > |nodes| || nodes == [] {
    } else {
      assert nodes[Turn(idx, i, |nodes|)] in nodes;
      NextFromStays(nodes, idx, i + 1, id, ids);
    }
  }

  /** The forwarding chain from a home. */
  function Chain(r: Ring, home: nat, k: nat): nat {
    if k == 0 then home else NextOf(r, Chain(r, home, k - 1))
  }

  lemma {:induction false} ChainOnRing(r: Ring, home: nat, k: nat)
    requires Valid(r) && home in r.ids
    ensures Chain(r, home, k) in r.ids
  {
    if k == 0 {
    } else {
      ChainOnRing(r, home, k - 1);
      NextMoves(r, Chain(r, home, k - 1));
    }
  }

  // ------------------------------------------------------------ bounded loads

  datatype Reason = AtHome | Forwarded | LeastLoadedNode

  function NormalizeBound(bound: real): real { if bound <= 0.0 then DEFAULT_BOUND else bound }

  function NormalizeMaxChainLen(len: int): nat { if len <= 0 then DEFAULT_MAX_CHAIN_LEN else len }

  /** `id` has the lowest load of the list, and the lowest id among those. */
  ghost predicate LeastOf(ids: seq<nat>, load: nat -> real, id: nat) {
    id in ids && forall x :: x in ids ==> load(id) < load(x) || (load(id) == load(x) && id <= x)
  }

  /** The rule: the first node of the chain below the bound, within the chain length, or else
      the least loaded node of the whole ring. */
  ghost predicate UnderAt(r: Ring, load: nat -> real, bound: real, home: nat, k: nat) {
    load(Chain(r, home, k)) < bound && forall j :: 0 <= j < k ==> load(Chain(r, home, j)) >= bound
  }

  ghost predicate Decides(r: Ring, load: nat -> real, bound: real, len: nat, home: nat, id: nat, reason: Reason) {
    if r.ids == [] then id == home && reason == AtHome
    else match reason
      case AtHome => id == home && load(home) < bound
      case Forwarded => exists k :: 0 < k <= len && UnderAt(r, load, bound, home, k) && id == Chain(r, home, k)
      case LeastLoadedNode => (forall k :: 0 <= k <= len ==> load(Chain(r, home, k)) >= bound) && LeastOf(r.ids, load, id)
  }

  /** The rule determines its answer. */
  lemma DecisionIsUnique(r: Ring, load: nat -> real, bound: real, len: nat, home: nat, a: nat, x: Reason, b: nat, y: Reason)
    requires Decides(r, load, bound, len, home, a, x) && Decides(r, load, bound, len, home, b, y)
    ensures a == b && x == y
  {
    if r.ids != [] {
      assert Chain(r, home, 0) == home;
      if x == Forwarded && y == Forwarded {
        var i :| 0 < i <= len && UnderAt(r, load, bound, home, i) && a == Chain(r, home, i);
        var j :| 0 < j <= len && UnderAt(r, load, bound, home, j) && b == Chain(r, home, j);
        assert i == j;
      } else if x == LeastLoadedNode && y == LeastLoadedNode {
      }
    }
  }

  /** Its answer is on the ring. */
  lemma DecisionOnRing(r: Ring, load: nat -> real, bound: real, len: nat, home: nat, id: nat, reason: Reason)
    requires Valid(r) && home in r.ids && Decides(r, load, bound, len, home, id, reason)
    ensures id in r.ids
  {
    if reason == Forwarded {
      var k :| 0 < k <= len && UnderAt(r, load, bound, home, k) && id == Chain(r, home, k);
      ChainOnRing(r, home, k);
    }
  }

  /** The rule on the walk `c` from the home, node by node: the first one below the bound, if there is one
      within the chain length; else the least loaded id, the lowest of those with that load. */
  lemma DecisionOnWalk(r: Ring, load: nat -> real, bound: real, len: nat, home: nat, id: nat, reason: Reason, c: seq<nat>)
    requires r.ids != [] && Decides(r, load, bound, len, home, id, reason)
    requires |c| == len + 1 && c[0] == home && forall k :: 0 <= k < len ==> c[k + 1] == NextOf(r, c[k])
    ensures forall k :: 0 <= k <= len && load(c[k]) < bound && (forall j :: 0 <= j < k ==> load(c[j]) >= bound) ==>
              id == c[k] && reason == if k == 0 then AtHome else Forwarded
    ensures (forall k :: 0 <= k <= len ==> load(c[k]) >= bound) ==>
              && reason == LeastLoadedNode && id in r.ids
              && forall x :: x in r.ids ==> load(id) < load(x) || (load(id) == load(x) && id <= x)
  {
    forall k | 0 <= k <= len ensures Chain(r, home, k) == c[k] { WalkIsChain(r, home, len, c, k); }
    if reason == Forwarded {
      var n :| 0 < n <= len && UnderAt(r, load, bound, home, n) && id == Chain(r, home, n);
      assert forall j :: 0 <= j < n ==> load(c[j]) >= bound;
    }
  }

  lemma {:induction false} WalkIsChain(r: Ring, home: nat, len: nat, c: seq<nat>, k: nat)
    requires |c| == len + 1 && c[0] == home && (forall k :: 0 <= k < len ==> c[k + 1] == NextOf(r, c[k])) && k <= len
    ensures Chain(r, home, k) == c[k]
  {
    if k == 0 {
    } else {
      WalkIsChain(r, home, len, c, k - 1);
    }
  }

  /** A map of loads, read with the default for missing keys. */
  function Reading(loads: map<nat, real>): nat -> real { (id: nat) => if id in loads then loads[id] else 0.0 }

  method LeastLoaded(ids: seq<nat>, loads: map<nat, real>) returns (best: nat)
    ensures if ids == [] then best == 0 else LeastOf(ids, Reading(loads), best)
    ensures ids != [] ==> best in ids && forall x :: x in ids ==>
              var b, l := if best in loads then loads[best] else 0.0, if x in loads then loads[x] else 0.0;
              b < l || (b == l && best <= x)
  {
    if |ids| == 0 { return 0; }
    best := ids[0];
    var bestLoad := Reading(loads)(best);
    var i := 1;
    while i < |ids|
      invariant 1 <= i <= |ids| && bestLoad == Reading(loads)(best) && LeastOf(ids[..i], Reading(loads), best)
    {
      var load := Reading(loads)(ids[i]);
      assert ids[..i + 1] == ids[..i] + [ids[i]];
      if load < bestLoad || (load == bestLoad && ids[i] < best) { best, bestLoad := ids[i], load; }
      i := i + 1;
    }
    assert ids[..|ids|] == ids;
  }

  method LeastLoadedBy(ids: seq<nat>, read: nat -> real) returns (best: nat)
    ensures if ids == [] then best == 0 else LeastOf(ids, read, best)
  {
    if |ids| == 0 { return 0; }
    best := ids[0];
    var bestLoad := read(best);
    var i := 1;
    while i < |ids|
      invariant 1 <= i <= |ids| && bestLoad == read(best) && LeastOf(ids[..i], read, best)
    {
      var load := read(ids[i]);
      assert ids[..i + 1] == ids[..i] + [ids[i]];
      if load < bestLoad || (load == bestLoad && ids[i] < best) { best, bestLoad := ids[i], load; }
      i := i + 1;
    }
    assert ids[..|ids|] == ids;
  }

  /** A picker's slot layout: the ring ids with the load slot of each. */
  datatype Slots = Slots(ids: seq<nat>, slots: seq<nat>, loads: seq<real>)

  ghost predicate Aligned(s: Slots, read: nat -> real) {
    |s.slots| == |s.ids| && forall i :: 0 <= i < |s.ids| ==> s.slots[i] < |s.loads| && s.loads[s.slots[i]] == read(s.ids[i])
  }

  /** LeastLoadedID of the bounded-loads picker: the scan through the slots. */
  method LeastLoadedID(s: Slots, ghost read: nat -> real) returns (best: nat)
    requires Aligned(s, read)
    ensures if s.ids == [] then best == 0 else LeastOf(s.ids, read, best)
  {
    if |s.ids| == 0 { return 0; }
    best := s.ids[0];
    var bestLoad := s.loads[s.slots[0]];
    var i := 1;
    while i < |s.ids|
      invariant 1 <= i <= |s.ids| && bestLoad == read(best) && LeastOf(s.ids[..i], read, best)
    {
      var load := s.loads[s.slots[i]];
      assert s.ids[..i + 1] == s.ids[..i] + [s.ids[i]];
      if load < bestLoad || (load == bestLoad && s.ids[i] < best) { best, bestLoad := s.ids[i], load; }
      i := i + 1;
    }
    assert s.ids[..|s.ids|] == s.ids;
  }

  /** The chain walk of Forward over a map of loads. */
  method Forward(r: Ring, loads: map<nat, real>, bound: real, maxChainLen: int, home: nat) returns (id: nat, reason: Reason)
    ensures Decides(r, Reading(loads), if bound <= 0.0 then 1.0 else bound, if maxChainLen <= 0 then 3 else maxChainLen, home, id, reason)
  {
    var b, len := NormalizeBound(bound), NormalizeMaxChainLen(maxChainLen);
    if |r.ids| == 0 { return home, AtHome; }
    id := home;
    var step := 0;
    while step <= len
      invariant step <= len + 1 && id == Chain(r, home, step)
      invariant forall k :: 0 <= k < step ==> Reading(loads)(Chain(r, home, k)) >= b
    {
      if Reading(loads)(id) < b {
        assert UnderAt(r, Reading(loads), b, home, step);
        return id, if step == 0 then AtHome else Forwarded;
      }
      id := Next(r, id);
      step := step + 1;
    }
    id := LeastLoaded(r.ids, loads);
    reason := LeastLoadedNode;
  }

  /** How ForwardBy's caller keeps its loads. */
  datatype Layout = Plain | Scanned(s: Slots)

  /** The walk of ForwardBy: to the first node of the chain below the bound, or past its end. */
  method WalkBy(r: Ring, read: nat -> real, b: real, len: nat, home: nat) returns (id: nat, step: nat)
    ensures step <= len + 1 && id == Chain(r, home, step)
    ensures step <= len ==> read(id) < b
    ensures forall k :: 0 <= k < step ==> read(Chain(r, home, k)) >= b
  {
    id, step := home, 0;
    while step <= len
      invariant step <= len + 1 && id == Chain(r, home, step)
      invariant forall k :: 0 <= k < step ==> read(Chain(r, home, k)) >= b
    {
      if read(id) < b { return; }
      id := Next(r, id);
      step := step + 1;
    }
  }

  /** ForwardBy: the same walk over a caller's reader, with the caller's scan if it has one. */
  method ForwardBy(r: Ring, read: nat -> real, layout: Layout, bound: real, maxChainLen: int, home: nat) returns (id: nat, reason: Reason)
    requires layout.Scanned? ==> layout.s.ids == r.ids && Aligned(layout.s, read)
    ensures Decides(r, read, if bound <= 0.0 then 1.0 else bound, if maxChainLen <= 0 then 3 else maxChainLen, home, id, reason)
  {
    var b, len := NormalizeBound(bound), NormalizeMaxChainLen(maxChainLen);
    if |r.ids| == 0 { return home, AtHome; }
    var step;
    id, step := WalkBy(r, read, b, len, home);
    if step <= len {
      assert UnderAt(r, read, b, home, step);
      return id, if step == 0 then AtHome else Forwarded;
    }
    if layout.Scanned? {
      id := LeastLoadedID(layout.s, read);
    } else {
      id := LeastLoadedBy(r.ids, read);
    }
    reason := LeastLoadedNode;
  }
}
