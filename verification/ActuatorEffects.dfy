/** What each actuator operation does to the tracked instances, in the entries themselves. */
module ActuatorEffects {
  import opened ActuatorModel
  import opened ActuatorProofs
  import opened EvictionProofs
  import opened Tallies

  /** Only worker `w`'s list, and what follows from it, differs. */
  ghost predicate OnlyAt(a: Actuator, a': Actuator, w: nat) {
    && w < |a.workers| == |a'.workers| && a'.workers[w].pendingStarts == a.workers[w].pendingStarts
    && (forall j :: 0 <= j < |a.workers| && j != w ==> a'.workers[j] == a.workers[j])
    && a'.pendingStarts == a.pendingStarts && a'.target == a.target
  }

  /** A relist keeps an instance exactly if the snapshot lists it, if either of the two has no revision, or
      if the snapshot is older than the instance; every other one leaves and is recorded. */
  lemma ReconcileEffect(a: Actuator, w: nat, p: Presence)
    requires w < |a.workers|
    ensures var a' := Reconcile(a, w, p);
            var ws := a.workers[w].instances;
            && OnlyAt(a, a', w)
            && (forall t :: t in a'.workers[w].instances <==>
                  t in ws && (t.id in p.ids || t.revision == 0 || p.revision == 0 || p.revision < t.revision))
            && a.departures <= a'.departures
            && |a'.departures| - |a.departures| == |ws| - |a'.workers[w].instances|
            && (forall t :: t in ws && t !in a'.workers[w].instances ==>
                  Departure(w, t.id, t.address, Relist, true) in a'.departures[|a.departures|..])
  {
    var ws := a.workers[w].instances;
    var a' := Reconcile(a, w, p);
    KeptMembers(ws, p);
    Partition(ws, p, One());
    RecordedAll(w, Evicted(ws, p), Relist);
    assert a'.departures[|a.departures|..] == Recorded(w, Evicted(ws, p), Relist);
  }

  lemma {:induction false} RecordedAll(w: nat, ws: seq<Tracked>, cause: Cause)
    ensures |Recorded(w, ws, cause)| == |ws|
    ensures forall k :: 0 <= k < |ws| ==> Recorded(w, ws, cause)[k] == Departure(w, ws[k].id, ws[k].address, cause, true)
  {
    if ws == [] {
    } else {
      RecordedAll(w, ws[..|ws| - 1], cause);
    }
  }

  /** At most one entry of a list has a given id. */
  lemma OneEntry(a: Actuator, w: nat, i: nat, j: nat)
    requires Inv(a) && w < |a.workers| && i < j < |a.workers[w].instances|
    ensures a.workers[w].instances[i].id != a.workers[w].instances[j].id
  {
    var ws := a.workers[w].instances;
    var id := ws[j].id;
    if ws[i].id == id {
      TallyGap(ws, j, HasId(id));
      var rest := ws[..j] + ws[j + 1..];
      Facts(rest, id);
      assert HasId(id)(rest[i]) == 1;
      assert Population(a, id) <= 1;
      forall k | 0 <= k < |a.workers| ensures Over(HasId(id))(a.workers[k]) >= 0 { Facts(a.workers[k].instances, id); }
      TallyBound(a.workers, Over(HasId(id)));
      TallyBound(a.departures, IsDeparture(id));
      assert false;
    }
  }

  lemma FoundEntry(a: Actuator, w: nat, t: Tracked)
    requires Inv(a) && w < |a.workers| && t in a.workers[w].instances
    ensures var ws := a.workers[w].instances;
            Find(ws, t.id) < |ws| && ws[Find(ws, t.id)] == t
  {
    var ws := a.workers[w].instances;
    var i :| 0 <= i < |ws| && ws[i] == t;
    var k := Find(ws, t.id);
    if k != i { OneEntry(a, w, if k < i then k else i, if k < i then i else k); }
  }

  /** Everything but entry `k` is still there, and entry `k` is not. */
  lemma CutMembers(a: Actuator, w: nat, k: nat, ws': seq<Tracked>)
    requires Inv(a) && w < |a.workers| && k < |a.workers[w].instances|
    requires var ws := a.workers[w].instances;
             ws' == ws[..k] + ws[k + 1..] || ws' == ws[k := ws[|ws| - 1]][..|ws| - 1]
    ensures var ws := a.workers[w].instances;
            forall t :: t in ws' <==> t in ws && t.id != ws[k].id
  {
    var ws := a.workers[w].instances;
    forall i | 0 <= i < |ws| && i != k ensures ws[i].id != ws[k].id {
      OneEntry(a, w, if i < k then i else k, if i < k then k else i);
    }
    forall t ensures t in ws' <==> t in ws && t.id != ws[k].id {
      if t in ws && t.id != ws[k].id {
        var i :| 0 <= i < |ws| && ws[i] == t;
        if ws' == ws[..k] + ws[k + 1..] {
          assert ws'[if i < k then i else i - 1] == t;
        } else if i == |ws| - 1 {
          assert ws'[k] == t;
        } else {
          assert ws'[i] == t;
        }
      }
    }
  }

  /** A removal event is of an instance the leaf tracks exactly if the entry or the event has no revision, or
      the event is not older than the entry; then that entry leaves, recorded, and no other. */
  lemma HandleRemovedEffect(a: Actuator, w: nat, id: nat, revision: nat)
    requires Inv(a) && w < |a.workers|
    ensures var (a', known) := HandleRemoved(a, w, id, revision);
            var ws := a.workers[w].instances;
            && (known <==> exists t :: t in ws && t.id == id && (t.revision == 0 || revision == 0 || t.revision <= revision))
            && (!known ==> a' == a)
            && (known ==>
                  && OnlyAt(a, a', w) && (forall t :: t in a'.workers[w].instances <==> t in ws && t.id != id)
                  && exists t :: t in ws && t.id == id && a'.departures == a.departures + [Departure(w, id, t.address, Event, true)])
  {
    var ws := a.workers[w].instances;
    var k := Find(ws, id);
    forall t | t in ws && t.id == id ensures k < |ws| && ws[k] == t { FoundEntry(a, w, t); }
    if k < |ws| {
      assert ws[k] in ws;
      if !(ws[k].revision != 0 && revision != 0 && revision < ws[k].revision) {
        CutMembers(a, w, k, ws[..k] + ws[k + 1..]);
      }
    }
  }

  /** The end of a stop takes out the entry with this id, recorded if it has an address, and no other. */
  lemma RemoveStoppedEffect(a: Actuator, w: nat, id: nat)
    requires Inv(a) && w < |a.workers|
    ensures var a', ws := RemoveStopped(a, w, id), a.workers[w].instances;
            if exists t :: t in ws && t.id == id then
              && OnlyAt(a, a', w) && (forall t :: t in a'.workers[w].instances <==> t in ws && t.id != id)
              && exists t :: t in ws && t.id == id && a'.departures == a.departures + [Departure(w, id, t.address, Stop, t.address != "")]
            else a' == a
  {
    var ws := a.workers[w].instances;
    var k := Find(ws, id);
    forall t | t in ws && t.id == id ensures k < |ws| && ws[k] == t { FoundEntry(a, w, t); }
    if k < |ws| {
      assert ws[k] in ws;
      CutMembers(a, w, k, ws[k := ws[|ws| - 1]][..|ws| - 1]);
    }
  }

  /** Cancelling a stop lowers the flag of the entry with this id and changes no other entry. */
  lemma CancelStopEffect(a: Actuator, w: nat, id: nat)
    requires Inv(a) && w < |a.workers|
    ensures var a', ws := CancelStop(a, w, id), a.workers[w].instances;
            && OnlyAt(a, a', w) && a'.departures == a.departures && a'.total == a.total && |a'.workers[w].instances| == |ws|
            && forall i :: 0 <= i < |ws| ==> a'.workers[w].instances[i] == if ws[i].id == id then ws[i].(stopping := false) else ws[i]
  {
    var ws := a.workers[w].instances;
    var k := Find(ws, id);
    forall i | 0 <= i < |ws| && ws[i].id == id ensures i == k {
      assert ws[i] in ws;
      if k < i { OneEntry(a, w, k, i); }
    }
  }

  /** A start is reserved exactly if the worker exists, both start limits and the instance limit leave room
      where they apply, and the future size is below the target, one and the maximum where they do. */
  lemma ReserveStartEffect(a: Actuator, w: int, limits: Limits, enforceTarget: bool, coldStart: bool, maxInstances: int)
    ensures var r := ReserveStart(a, w, limits, enforceTarget, coldStart, maxInstances);
            var future := a.total + a.pendingStarts - a.pendingStops;
            && (r.Reserved? <==>
                  && 0 <= w < |a.workers|
                  && (limits.Local? ==>
                        && a.workers[w].pendingStarts < limits.startsPerWorker && a.pendingStarts < limits.starts
                        && (limits.instancesPerWorker > 0 ==>
                              |a.workers[w].instances| + a.workers[w].pendingStarts < limits.instancesPerWorker))
                  && (enforceTarget ==> future < a.target) && (coldStart ==> future < 1)
                  && (maxInstances > 0 ==> future < maxInstances))
            && (r.Reserved? ==>
                  && |r.a.workers| == |a.workers| && r.a.pendingStarts == a.pendingStarts + 1
                  && r.a.workers[w] == Worker(a.workers[w].instances, a.workers[w].pendingStarts + 1)
                  && r.a == a.(workers := a.workers[w := r.a.workers[w]], pendingStarts := r.a.pendingStarts))
  {
  }

  // ------------------------------------------------------------------- victims

  ghost predicate AllStopping(ws: seq<Tracked>) { forall i :: 0 <= i < |ws| ==> ws[i].stopping }

  /** A list is marked from its front: short of the count it is all stopping, and nothing behind an entry that is
      left running was marked. */
  lemma {:induction false} MarkFirst(w: nat, ws: seq<Tracked>, count: int)
    ensures var (ws', out) := Mark(w, ws, count);
            && (|out| < count ==> AllStopping(ws'))
            && (count <= 0 ==> ws' == ws && out == [])
            && (forall i, j :: 0 <= i < j < |ws| && ws'[j].stopping && !ws[j].stopping ==> ws'[i].stopping)
  {
    if ws == [] {
    } else {
      var n := |ws| - 1;
      MarkFirst(w, ws[..n], count);
      assert Mark(w, ws, count).0[..n] == Mark(w, ws[..n], count).0;
    }
  }

  /** Short of the count, every instance of every worker is stopping. */
  lemma {:induction false} VictimsShort(workers: seq<Worker>, count: int, j: nat)
    requires j < |workers| && |MarkAll(workers, count).1| < count
    ensures AllStopping(MarkAll(workers, count).0[j].instances)
  {
    var n := |workers| - 1;
    var (done, out) := MarkAll(workers[..n], count);
    MarkFirst(n, workers[n].instances, count - |out|);
    if j < n { VictimsShort(workers[..n], count, j); }
  }

  /** So over all workers the victims are the first instances that were running, in order: before an instance
      that was marked, every one is stopping. */
  lemma {:induction false} VictimsAreFirst(workers: seq<Worker>, count: int, j: nat, k: nat)
    requires j < |workers| && k < |workers[j].instances|
    requires MarkAll(workers, count).0[j].instances[k].stopping && !workers[j].instances[k].stopping
    ensures var workers' := MarkAll(workers, count).0;
            && (forall v :: 0 <= v < j ==> AllStopping(workers'[v].instances))
            && (forall i :: 0 <= i < k ==> workers'[j].instances[i].stopping)
  {
    var n := |workers| - 1;
    var done := MarkAll(workers[..n], count).0;
    MarkAllSplit(workers, count);
    if j < n {
      VictimsAreFirst(workers[..n], count, j, k);
    } else {
      MarkedFirst(n, workers[n].instances, count - |MarkAll(workers[..n], count).1|, k);
      forall v | 0 <= v < n ensures AllStopping(done[v].instances) { VictimsShort(workers[..n], count, v); }
    }
  }

  lemma MarkAllSplit(workers: seq<Worker>, count: int)
    requires workers != []
    ensures var n := |workers| - 1;
            var (done, out) := MarkAll(workers[..n], count);
            && (forall v :: 0 <= v < n ==> MarkAll(workers, count).0[v] == done[v])
            && MarkAll(workers, count).0[n].instances == Mark(n, workers[n].instances, count - |out|).0
  {
  }

  lemma MarkedFirst(w: nat, ws: seq<Tracked>, count: int, k: nat)
    requires k < |ws| && Mark(w, ws, count).0[k].stopping && !ws[k].stopping
    ensures count > 0 && forall i :: 0 <= i < k ==> Mark(w, ws, count).0[i].stopping
  {
    MarkFirst(w, ws, count);
  }
}
