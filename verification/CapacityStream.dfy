/** The routing-state delta stream: what a leaf sends (`pkg/leaf/state/routing.go`) and what an
    ingress makes of it (`pkg/ingress/routing/controller.go`, `availablecapacity.go`). */
module CapacityStream {

  datatype Capacity = Capacity(fn: nat, ready: nat, available: nat, inFlight: nat, deleted: bool, status: nat)

  /** A leaf's capacities by function id. */
  type View = map<nat, Capacity>

  /** CapacitySnapshot files every capacity under its own function id. */
  ghost predicate Keyed(view: View) { forall id :: id in view ==> view[id].fn == id }

  /** capacityEqual. */
  predicate Same(a: Capacity, b: Capacity) {
    a.ready == b.ready && a.available == b.available && a.inFlight == b.inFlight && a.deleted == b.deleted && a.status == b.status
  }

  /** Two capacities count as the same exactly if they differ in no field but the function. */
  lemma SameExactly(a: Capacity, b: Capacity)
    ensures Same(a, b) <==> a == b.(fn := a.fn)
  {
  }

  function Tombstone(id: nat): Capacity { Capacity(id, 0, 0, 0, true, 0) }

  /** Whether publishing a capacity repeats the last published one of its function. */
  predicate Repeats(last: View, c: Capacity) { c.fn in last && Same(last[c.fn], c) }

  /** What an index should hold for a view: its functions with their available concurrency. */
  function Shown(view: View): map<nat, nat> {
    map id | id in view && !view[id].deleted :: view[id].available
  }

  /** A delta entry and a delta applied to an index. */
  function Entered(index: map<nat, nat>, c: Capacity): map<nat, nat> {
    if c.deleted then index - {c.fn} else index[c.fn := c.available]
  }

  function ApplyDelta(index: map<nat, nat>, entries: seq<Capacity>): map<nat, nat> {
    if entries == [] then index else Entered(ApplyDelta(index, entries[..|entries| - 1]), entries[|entries| - 1])
  }

  /** A full snapshot: entries replace the whole index, deleted ones are skipped. */
  function ApplyFull(entries: seq<Capacity>): map<nat, nat> {
    if entries == [] then map[]
    else
      var rest := ApplyFull(entries[..|entries| - 1]);
      var c := entries[|entries| - 1];
      if c.deleted then rest else rest[c.fn := c.available]
  }

  ghost predicate DistinctFns(entries: seq<Capacity>) {
    forall i, j :: 0 <= i < j < |entries| ==> entries[i].fn != entries[j].fn
  }

  /** A full frame lists a view in some order. */
  ghost predicate Lists(view: View, entries: seq<Capacity>) {
    && DistinctFns(entries) && (forall c :: c in entries ==> c.fn in view && c == view[c.fn])
    && (forall id :: id in view ==> view[id] in entries)
  }

  ghost predicate Differs(sent: View, current: View, id: nat) {
    if id in current then id !in sent || !Same(sent[id], current[id]) else id in sent && !sent[id].deleted
  }

  function Change(current: View, id: nat): Capacity {
    if id in current then current[id] else Tombstone(id)
  }

  /** A delta frame lists what differs between two views in some order. */
  ghost predicate IsDiff(sent: View, current: View, entries: seq<Capacity>) {
    && DistinctFns(entries)
    && (forall c :: c in entries ==> Differs(sent, current, c.fn) && c == Change(current, c.fn))
    && (forall id :: Differs(sent, current, id) ==> Change(current, id) in entries)
  }

  /** The listing loop of a full emit. */
  method ListCapacities(current: View) returns (out: seq<Capacity>)
    requires Keyed(current)
    ensures Lists(current, out)
  {
    out := [];
    var rest := current.Keys;
    while rest != {}
      invariant rest <= current.Keys && DistinctFns(out)
      invariant forall c :: c in out ==> c.fn in current && c == current[c.fn] && c.fn !in rest
      invariant forall id :: id in current && id !in rest ==> current[id] in out
      decreases |rest|
    {
      var id :| id in rest;
      out := out + [current[id]];
      rest := rest - {id};
    }
  }

  /** The part of a difference that concerns the ids in `ids`. */
  ghost predicate IsDiffOver(sent: View, current: View, ids: set<nat>, entries: seq<Capacity>) {
    && DistinctFns(entries)
    && (forall c :: c in entries ==> c.fn in ids && Differs(sent, current, c.fn) && c == Change(current, c.fn))
    && (forall id :: id in ids && Differs(sent, current, id) ==> Change(current, id) in entries)
  }

  lemma DiffStep(sent: View, current: View, ids: set<nat>, entries: seq<Capacity>, id: nat)
    requires Keyed(current) && IsDiffOver(sent, current, ids, entries)
    ensures id in ids ==> IsDiffOver(sent, current, ids + {id}, entries)
    ensures id !in ids ==>
              IsDiffOver(sent, current, ids + {id}, if Differs(sent, current, id) then entries + [Change(current, id)] else entries)
  {
  }

  /** The first pass of diffCapacities: over the current view, in whatever order. */
  method DiffPresent(sent: View, current: View) returns (out: seq<Capacity>)
    requires Keyed(current)
    ensures IsDiffOver(sent, current, current.Keys, out)
  {
    out := [];
    var rest := current.Keys;
    while rest != {}
      invariant rest <= current.Keys && IsDiffOver(sent, current, current.Keys - rest, out)
      decreases |rest|
    {
      var id :| id in rest;
      DiffStep(sent, current, current.Keys - rest, out, id);
      assert current.Keys - (rest - {id}) == current.Keys - rest + {id};
      if id !in sent || !Same(sent[id], current[id]) { out := out + [current[id]]; }
      rest := rest - {id};
    }
    assert current.Keys - {} == current.Keys;
  }

  /** diffCapacities: the second pass adds tombstones for what disappeared. */
  method DiffCapacities(sent: View, current: View) returns (out: seq<Capacity>)
    requires Keyed(sent) && Keyed(current)
    ensures IsDiff(sent, current, out)
    ensures forall c :: c in out ==> c == if c.fn in current then current[c.fn] else Capacity(c.fn, 0, 0, 0, true, 0)
  {
    out := DiffPresent(sent, current);
    var rest := sent.Keys;
    ghost var seen := current.Keys;
    while rest != {}
      invariant rest <= sent.Keys && forall id :: id in seen <==> id in current || (id in sent && id !in rest)
      invariant IsDiffOver(sent, current, seen, out)
      decreases |rest|
    {
      var id :| id in rest;
      DiffStep(sent, current, seen, out, id);
      if id !in current && !sent[id].deleted { out := out + [Tombstone(id)]; }
      rest := rest - {id};
      seen := seen + {id};
    }
  }

  lemma {:induction false} DeltaKeeps(index: map<nat, nat>, entries: seq<Capacity>, id: nat)
    requires forall k :: 0 <= k < |entries| ==> entries[k].fn != id
    ensures id in ApplyDelta(index, entries) <==> id in index
    ensures id in index ==> ApplyDelta(index, entries)[id] == index[id]
  {
    if entries == [] {
    } else {
      DeltaKeeps(index, entries[..|entries| - 1], id);
    }
  }

  lemma {:induction false} DeltaSets(index: map<nat, nat>, entries: seq<Capacity>, k: nat)
    requires DistinctFns(entries) && k < |entries|
    ensures entries[k].fn in ApplyDelta(index, entries) <==> !entries[k].deleted
    ensures !entries[k].deleted ==> ApplyDelta(index, entries)[entries[k].fn] == entries[k].available
  {
    if k == |entries| - 1 {
    } else {
      DeltaSets(index, entries[..|entries| - 1], k);
    }
  }

  /** Applying the difference to an index of the old view gives an index of the new one. */
  lemma DeltaBringsForward(sent: View, current: View, entries: seq<Capacity>)
    requires Keyed(sent) && Keyed(current) && IsDiff(sent, current, entries)
    ensures ApplyDelta(Shown(sent), entries) == Shown(current)
  {
    var next := ApplyDelta(Shown(sent), entries);
    forall id ensures (id in next <==> id in Shown(current)) && (id in next ==> next[id] == Shown(current)[id]) {
      if Differs(sent, current, id) {
        var k :| 0 <= k < |entries| && entries[k] == Change(current, id);
        DeltaSets(Shown(sent), entries, k);
      } else {
        forall k | 0 <= k < |entries| ensures entries[k].fn != id { assert entries[k] in entries; }
        DeltaKeeps(Shown(sent), entries, id);
      }
    }
  }

  lemma {:induction false} FullAt(entries: seq<Capacity>, id: nat)
    requires DistinctFns(entries)
    ensures id in ApplyFull(entries) ==> exists c :: c in entries && c.fn == id && !c.deleted
    ensures forall c :: c in entries && c.fn == id && !c.deleted ==> id in ApplyFull(entries) && ApplyFull(entries)[id] == c.available
  {
    if entries == [] {
    } else {
      var n := |entries| - 1;
      FullAt(entries[..n], id);
      assert entries == entries[..n] + [entries[n]];
      assert entries[n] in entries;
    }
  }

  lemma FullShowsView(view: View, entries: seq<Capacity>)
    requires Keyed(view) && Lists(view, entries)
    ensures ApplyFull(entries) == Shown(view)
  {
    var next := ApplyFull(entries);
    forall id ensures (id in next <==> id in Shown(view)) && (id in next ==> next[id] == Shown(view)[id]) {
      FullAt(entries, id);
      if id in view { assert view[id] in entries; }
    }
  }
}
