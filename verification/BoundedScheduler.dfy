/** Worker placement by bounded loads (`pkg/leaf/scheduler/bounded.go`). */
module BoundedScheduler {
  import opened Chbl
  import opened Sorting

  datatype WorkerState = NoWorker | WorkerState(id: nat, healthy: bool, schedulable: bool, instances: nat, load: real)

  /** eligibleByInstanceCount. */
  predicate Eligible(w: WorkerState, maxInstances: int) {
    w.WorkerState? && w.id != 0 && w.healthy && w.schedulable && (maxInstances <= 0 || w.instances < maxInstances)
  }

  predicate Named(w: WorkerState) { w.WorkerState? && w.id != 0 }

  /** The last report of every named worker, and the load the ring is to see for it. */
  function ById(ws: seq<WorkerState>): (m: map<nat, WorkerState>)
    ensures forall id :: id in m ==> m[id] in ws && Named(m[id]) && m[id].id == id
  {
    if ws == [] then map[]
    else
      var n := |ws| - 1;
      if Named(ws[n]) then ById(ws[..n])[ws[n].id := ws[n]] else ById(ws[..n])
  }

  function Loads(ws: seq<WorkerState>, maxInstances: int, bound: real): map<nat, real> {
    if ws == [] then map[]
    else
      var n := |ws| - 1;
      var m := Loads(ws[..n], maxInstances, bound);
      if !Named(ws[n]) then m
      else m[ws[n].id := if Eligible(ws[n], maxInstances) then ws[n].load else bound + 1.0]
  }

  /** The last report of a worker decides: it is the one filed, and the ring sees its load if it is healthy,
      schedulable and below the instance limit, and a load above the bound otherwise. */
  lemma {:induction false} LastReportCounts(ws: seq<WorkerState>, maxInstances: int, bound: real, i: nat)
    requires i < |ws| && ws[i].WorkerState? && ws[i].id != 0
    requires forall j :: i < j < |ws| ==> ws[j].NoWorker? || ws[j].id != ws[i].id
    ensures ws[i].id in ById(ws) && ById(ws)[ws[i].id] == ws[i] && ws[i].id in Loads(ws, maxInstances, bound)
    ensures Loads(ws, maxInstances, bound)[ws[i].id]
              == if ws[i].healthy && ws[i].schedulable && (maxInstances <= 0 || ws[i].instances < maxInstances) then ws[i].load else bound + 1.0
  {
    if i == |ws| - 1 {
    } else {
      assert forall j :: 0 <= j < |ws| - 1 ==> ws[..|ws| - 1][j] == ws[j];
      LastReportCounts(ws[..|ws| - 1], maxInstances, bound, i);
    }
  }

  /** A worker without a report is not known. */
  lemma {:induction false} UnreportedIsUnknown(ws: seq<WorkerState>, maxInstances: int, bound: real, id: nat)
    requires forall j :: 0 <= j < |ws| ==> ws[j].NoWorker? || ws[j].id == 0 || ws[j].id != id
    ensures id !in ById(ws) && id !in Loads(ws, maxInstances, bound)
  {
    if ws == [] {
    } else {
      UnreportedIsUnknown(ws[..|ws| - 1], maxInstances, bound, id);
    }
  }

  /** Which ids a pick may choose, by the report filed. */
  lemma EligibleExactly(byID: map<nat, WorkerState>, maxInstances: int, id: nat)
    ensures EligibleIn(byID, maxInstances, id) <==>
            && id in byID && byID[id].WorkerState? && byID[id].id != 0 && byID[id].healthy && byID[id].schedulable
            && (maxInstances <= 0 || byID[id].instances < maxInstances)
  {
  }

  predicate EligibleIn(byID: map<nat, WorkerState>, maxInstances: int, id: nat) {
    id in byID && Eligible(byID[id], maxInstances)
  }

  function EligibleId(byID: map<nat, WorkerState>, maxInstances: int): nat -> bool {
    (id: nat) => EligibleIn(byID, maxInstances, id)
  }

  /** leastLoadedEligible: the least loaded id among the eligible ones of the ring, if any. */
  method LeastLoadedEligible(ids: seq<nat>, loads: map<nat, real>, byID: map<nat, WorkerState>, maxInstances: int) returns (best: nat)
    ensures var able := Filter(ids, EligibleId(byID, maxInstances));
            if able == [] then best == 0 else LeastOf(able, Reading(loads), best)
  {
    best := 0;
    var found := false;
    var i := 0;
    while i < |ids|
      invariant i <= |ids|
      invariant var able := Filter(ids[..i], EligibleId(byID, maxInstances));
                found == (able != []) && if found then LeastOf(able, Reading(loads), best) else best == 0
    {
      assert ids[..i + 1][..i] == ids[..i];
      var id := ids[i];
      if EligibleIn(byID, maxInstances, id) {
        if !found || Reading(loads)(id) < Reading(loads)(best) || (Reading(loads)(id) == Reading(loads)(best) && id < best) {
          best, found := id, true;
        }
      }
      i := i + 1;
    }
    assert ids[..|ids|] == ids;
  }

  datatype Choice = NoWorkers | NoCapacity | Chosen(id: nat, reason: Reason, score: real)

  /** The two maps PickWorker fills in one pass over the workers. */
  method Index(ws: seq<WorkerState>, maxInstances: int, bound: real) returns (byID: map<nat, WorkerState>, loads: map<nat, real>)
    ensures byID == ById(ws) && loads == Loads(ws, maxInstances, bound)
  {
    byID, loads := map[], map[];
    var i := 0;
    while i < |ws|
      invariant i <= |ws| && byID == ById(ws[..i]) && loads == Loads(ws[..i], maxInstances, bound)
    {
      assert ws[..i + 1][..i] == ws[..i];
      if Named(ws[i]) {
        byID := byID[ws[i].id := ws[i]];
        loads := loads[ws[i].id := if Eligible(ws[i], maxInstances) then ws[i].load else bound + 1.0];
      }
      i := i + 1;
    }
    assert ws[..|ws|] == ws;
  }

  /** What PickWorker may answer, with the scheduler's bound and chain length: it chooses a worker exactly if
      the ring has an eligible one; the ring's own decision if that is eligible, and otherwise the
      least loaded eligible worker. */
  ghost predicate Answers(r: Ring, ws: seq<WorkerState>, maxInstances: int, b: real, len: nat, position: nat, c: Choice) {
    && (c.NoWorkers? <==> ById(ws) == map[])
    && (c.Chosen? <==> exists id :: id in r.ids && EligibleIn(ById(ws), maxInstances, id))
    && (c.Chosen? ==> c.id in r.ids && EligibleIn(ById(ws), maxInstances, c.id) && c.score == ById(ws)[c.id].load)
    && (c.Chosen? ==> exists id, reason :: Follows(r, ws, maxInstances, b, len, position, c, id, reason))
  }

  ghost predicate Follows(r: Ring, ws: seq<WorkerState>, maxInstances: int, b: real, len: nat, position: nat, c: Choice, id: nat, reason: Reason)
    requires c.Chosen?
  {
    && Decides(r, Reading(Loads(ws, maxInstances, b)), b, len, HomeOf(r.nodes, position), id, reason)
    && if EligibleIn(ById(ws), maxInstances, id) then c.id == id && c.reason == reason
       else c.reason == LeastLoadedNode
            && LeastOf(Filter(r.ids, EligibleId(ById(ws), maxInstances)), Reading(Loads(ws, maxInstances, b)), c.id)
  }

  /** A chosen worker is the one the ring decides for, or if that is not eligible the eligible one with the least
      load, the lowest id of several; its score is the load it reported. */
  lemma AnswersExactly(r: Ring, ws: seq<WorkerState>, maxInstances: int, b: real, len: nat, position: nat, c: Choice, id: nat, reason: Reason)
    requires Answers(r, ws, maxInstances, b, len, position, c) && c.Chosen?
    requires Decides(r, Reading(Loads(ws, maxInstances, b)), b, len, HomeOf(r.nodes, position), id, reason)
    ensures var load, able := Reading(Loads(ws, maxInstances, b)), (x: nat) => x in r.ids && EligibleIn(ById(ws), maxInstances, x);
            && able(c.id) && c.score == ById(ws)[c.id].load
            && if EligibleIn(ById(ws), maxInstances, id) then c.id == id && c.reason == reason
               else c.reason == LeastLoadedNode && forall x :: able(x) ==> load(c.id) < load(x) || (load(c.id) == load(x) && c.id <= x)
  {
    var first, why :| Follows(r, ws, maxInstances, b, len, position, c, first, why);
    DecisionIsUnique(r, Reading(Loads(ws, maxInstances, b)), b, len, HomeOf(r.nodes, position), id, reason, first, why);
    FilterMembers(r.ids, EligibleId(ById(ws), maxInstances));
  }

  method PickWorker(r: Ring, ws: seq<WorkerState>, maxInstances: int, bound: real, maxChainLen: int, position: nat) returns (c: Choice)
    requires Valid(r)
    ensures Answers(r, ws, maxInstances, if bound <= 0.0 then 1.0 else bound, if maxChainLen <= 0 then 3 else maxChainLen, position, c)
  {
    c := PickOn(r, ws, maxInstances, NormalizeBound(bound), NormalizeMaxChainLen(maxChainLen), position);
  }

  /** PickWorker on the settings the scheduler was made with. */
  method PickOn(r: Ring, ws: seq<WorkerState>, maxInstances: int, b: real, len: nat, position: nat) returns (c: Choice)
    requires Valid(r) && b > 0.0 && len > 0
    ensures Answers(r, ws, maxInstances, b, len, position, c)
  {
    var byID, loads := Index(ws, maxInstances, b);
    FilterMembers(r.ids, EligibleId(byID, maxInstances));
    ghost var able := Filter(r.ids, EligibleId(byID, maxInstances));
    if |byID| == 0 { return NoWorkers; }
    var home := Home(r, position);
    var id, reason := Forward(r, loads, b, len, home);
    ghost var first, why := id, reason;
    assert Decides(r, Reading(loads), b, len, HomeOf(r.nodes, position), first, why);
    EligibleOnRing(r, byID, maxInstances, Reading(loads), b, len, home, id, reason);
    if !EligibleIn(byID, maxInstances, id) {
      id := LeastLoadedEligible(r.ids, loads, byID, maxInstances);
      reason := LeastLoadedNode;
    }
    if !EligibleIn(byID, maxInstances, id) { return NoCapacity; }
    c := Chosen(id, reason, byID[id].load);
    assert Follows(r, ws, maxInstances, b, len, position, c, first, why);
  }

  /** The ring's decision is a ring member whenever it is a worker the ring can name. */
  lemma EligibleOnRing(r: Ring, byID: map<nat, WorkerState>, maxInstances: int, load: nat -> real, bound: real, len: nat,
                       home: nat, id: nat, reason: Reason)
    requires Valid(r) && (r.nodes != [] ==> home in r.ids) && Decides(r, load, bound, len, home, id, reason)
    requires r.nodes == [] ==> home == 0
    requires forall x :: x in byID ==> x != 0
    ensures EligibleIn(byID, maxInstances, id) ==> id in r.ids
  {
    if r.ids != [] {
      assert r.ids[0] in r.ids;
      var x :| x in r.nodes && x.id == r.ids[0];
      DecisionOnRing(r, load, bound, len, home, id, reason);
    }
  }
}
