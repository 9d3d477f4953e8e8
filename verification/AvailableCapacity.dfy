/** The available-capacity routing model and picker of `pkg/ingress/routing/availablecapacity.go`:
    writer-side route lists, and the copies that requests read. */
module AvailableCapacity {
  import opened CapacityRoutes
  import opened CapacityStream
  import opened Membership
  import opened Options
  import opened Rotation
  import opened Sorting

  /** A function's cell: the writer's list, the copy requests read, and whether they may differ. */
  datatype Cell = Cell(parts: seq<Route>, pub: Option<seq<Route>>, dirty: bool)

  /** The writer's cells, the functions of the published table, and what a commit has to do. The
      published table holds the writer's own cells, so a cell is known by its function id. */
  datatype Index = Index(cells: map<nat, Cell>, table: Option<set<nat>>, dirty: seq<nat>, keysDirty: bool)

  function With(view: map<nat, nat>, fn: nat, available: nat): map<nat, nat> { view[fn := available] }

  /** A list and the leaves' views agree on one function: it is in a leaf's view exactly if its list
      has a route to the leaf, with the same available concurrency. */
  ghost predicate ListOk(routes: seq<Route>, fn: nat, views: seq<map<nat, nat>>) {
    && Ordered(routes)
    && (forall leaf :: leaf in Shares(routes) ==> leaf < |views|)
    && (forall leaf :: 0 <= leaf < |views| ==>
          (leaf in Shares(routes) <==> fn in views[leaf]) && (fn in views[leaf] ==> Shares(routes)[leaf] == views[leaf][fn]))
  }

  ghost predicate Mirror(cells: map<nat, Cell>, views: seq<map<nat, nat>>) {
    && (forall fn :: fn in cells ==> ListOk(cells[fn].parts, fn, views))
    && (forall leaf, fn :: 0 <= leaf < |views| && fn in views[leaf] ==> fn in cells)
  }

  /** The dirty list has each dirty cell once; every other cell is published as it is. */
  ghost predicate CellOk(c: Cell, listed: bool) {
    c.dirty == listed && (!c.dirty ==> c.parts != [] && c.pub == Some(c.parts))
  }

  ghost predicate Dirt(ix: Index) {
    && (forall i :: 0 <= i < |ix.dirty| ==> ix.dirty[i] in ix.cells)
    && (forall i, j :: 0 <= i < j < |ix.dirty| ==> ix.dirty[i] != ix.dirty[j])
    && (forall fn :: fn in ix.cells ==> CellOk(ix.cells[fn], fn in ix.dirty))
  }

  ghost predicate Keys(ix: Index) {
    && (ix.keysDirty ==> ix.dirty != [])
    && (!ix.keysDirty ==> (if ix.table.None? then {} else ix.table.value) == ix.cells.Keys)
  }

  ghost predicate Core(ix: Index, views: seq<map<nat, nat>>) {
    Mirror(ix.cells, views) && Dirt(ix) && Keys(ix)
  }

  /** What a request for `fn` finds: nothing, or a published list. */
  function Published(ix: Index, fn: nat): Option<seq<Route>> {
    if ix.table.None? || fn !in ix.table.value || fn !in ix.cells then None else ix.cells[fn].pub
  }

  /** touch, after writing a cell's list. */
  function Written(ix: Index, fn: nat, parts: seq<Route>): Index
    requires fn in ix.cells
  {
    var c := ix.cells[fn];
    ix.(cells := ix.cells[fn := c.(parts := parts, dirty := true)], dirty := if c.dirty then ix.dirty else ix.dirty + [fn])
  }

  /** A new cell comes with its first write. */
  function Opened(ix: Index, fn: nat): Index {
    if fn in ix.cells then ix
    else ix.(cells := ix.cells[fn := Cell([], None, true)], dirty := ix.dirty + [fn], keysDirty := true)
  }

  lemma WrittenMirror(ix: Index, views: seq<map<nat, nat>>, fn: nat, parts: seq<Route>, views': seq<map<nat, nat>>, leaf: nat)
    requires Mirror(ix.cells, views) && fn in ix.cells && leaf < |views| && ListOk(parts, fn, views')
    requires |views'| == |views| && views' == views[leaf := views'[leaf]]
    requires forall f :: f != fn ==> (f in views'[leaf] <==> f in views[leaf]) && (f in views[leaf] ==> views'[leaf][f] == views[leaf][f])
    ensures Mirror(Written(ix, fn, parts).cells, views')
  {
  }

  /** A write marks its cell, and lists it once. */
  lemma WrittenDirt(ix: Index, fn: nat, parts: seq<Route>)
    requires Dirt(ix) && Keys(ix) && fn in ix.cells
    ensures Dirt(Written(ix, fn, parts)) && Keys(Written(ix, fn, parts))
  {
  }

  lemma PutListOk(routes: seq<Route>, views: seq<map<nat, nat>>, fn: nat, i: nat, leaf: nat, available: nat)
    requires ListOk(routes, fn, views) && leaf < |views| && IsSlot(routes, leaf, i)
    ensures ListOk(Put(routes, i, leaf, available), fn, views[leaf := With(views[leaf], fn, available)])
  {
    PutOk(routes, i, leaf, available);
  }

  lemma CutListOk(routes: seq<Route>, views: seq<map<nat, nat>>, fn: nat, i: nat, leaf: nat)
    requires ListOk(routes, fn, views) && leaf < |views| && IsSlot(routes, leaf, i)
    ensures ListOk(Cut(routes, i, leaf), fn, views[leaf := views[leaf] - {fn}])
  {
    CapacityRoutes.CutOk(routes, i, leaf);
  }

  lemma UpsertOk(ix: Index, views: seq<map<nat, nat>>, fn: nat, i: nat, leaf: nat, available: nat)
    requires Core(ix, views) && fn in ix.cells && leaf < |views| && IsSlot(ix.cells[fn].parts, leaf, i)
    ensures Core(Written(ix, fn, Put(ix.cells[fn].parts, i, leaf, available)), views[leaf := With(views[leaf], fn, available)])
  {
    var parts := Put(ix.cells[fn].parts, i, leaf, available);
    PutListOk(ix.cells[fn].parts, views, fn, i, leaf, available);
    WrittenMirror(ix, views, fn, parts, views[leaf := With(views[leaf], fn, available)], leaf);
    WrittenDirt(ix, fn, parts);
  }

  lemma UpsertSame(routes: seq<Route>, views: seq<map<nat, nat>>, fn: nat, i: nat, leaf: nat)
    requires ListOk(routes, fn, views) && leaf < |views| && i < |routes| && routes[i].leaf == leaf
    ensures views[leaf := With(views[leaf], fn, routes[i].available)] == views
  {
    SharesAt(routes);
    assert With(views[leaf], fn, routes[i].available) == views[leaf];
  }

  lemma RemoveOk(ix: Index, views: seq<map<nat, nat>>, fn: nat, i: nat, leaf: nat)
    requires Core(ix, views) && fn in ix.cells && leaf < |views| && IsSlot(ix.cells[fn].parts, leaf, i)
    ensures Core(Written(ix, fn, Cut(ix.cells[fn].parts, i, leaf)), views[leaf := views[leaf] - {fn}])
  {
    var parts := Cut(ix.cells[fn].parts, i, leaf);
    CutListOk(ix.cells[fn].parts, views, fn, i, leaf);
    WrittenMirror(ix, views, fn, parts, views[leaf := views[leaf] - {fn}], leaf);
    WrittenDirt(ix, fn, parts);
  }

  lemma RemoveSame(routes: seq<Route>, views: seq<map<nat, nat>>, fn: nat, i: nat, leaf: nat)
    requires ListOk(routes, fn, views) && leaf < |views| && IsSlot(routes, leaf, i) && !(i < |routes| && routes[i].leaf == leaf)
    ensures views[leaf := views[leaf] - {fn}] == views
  {
    NoShare(routes, leaf);
    assert views[leaf] - {fn} == views[leaf];
  }

  // -------------------------------------------------------------------- commit

  /** One dirty cell published, and dropped if its list is empty. */
  function Settled(ix: Index, fn: nat): Index
    requires fn in ix.cells
  {
    var c := ix.cells[fn];
    if c.parts == [] then ix.(cells := ix.cells - {fn}, keysDirty := true)
    else ix.(cells := ix.cells[fn := Cell(c.parts, Some(c.parts), false)])
  }

  /** The state of a commit that has settled all but the cells in `rest`. */
  ghost predicate Settling(ix: Index, rest: seq<nat>, views: seq<map<nat, nat>>) {
    && Mirror(ix.cells, views)
    && (forall i :: 0 <= i < |rest| ==> rest[i] in ix.cells)
    && (forall i, j :: 0 <= i < j < |rest| ==> rest[i] != rest[j])
    && (forall fn :: fn in ix.cells ==> CellOk(ix.cells[fn], fn in rest))
    && (!ix.keysDirty ==> (if ix.table.None? then {} else ix.table.value) == ix.cells.Keys)
  }

  lemma SettleCells(ix: Index, rest: seq<nat>, f: nat)
    requires rest != [] && rest[0] in ix.cells && f in Settled(ix, rest[0]).cells
    requires (forall i, j :: 0 <= i < j < |rest| ==> rest[i] != rest[j]) && f in ix.cells && CellOk(ix.cells[f], f in rest)
    ensures CellOk(Settled(ix, rest[0]).cells[f], f in rest[1..])
  {
  }

  lemma SettleOk(ix: Index, rest: seq<nat>, views: seq<map<nat, nat>>)
    requires Settling(ix, rest, views) && rest != []
    ensures Settling(Settled(ix, rest[0]), rest[1..], views)
  {
  }

  /** The published index is the writer's: the same functions, with the same sorted lists, and a
      function has a list exactly if some leaf advertises it. */
  ghost predicate UpToDate(ix: Index, views: seq<map<nat, nat>>) {
    && ix.dirty == [] && !ix.keysDirty && Core(ix, views)
    && (forall fn :: fn in ix.cells ==> ix.cells[fn].parts != [] && Published(ix, fn) == Some(ix.cells[fn].parts))
    && (forall fn :: fn !in ix.cells ==> Published(ix, fn) == None && forall leaf :: 0 <= leaf < |views| ==> fn !in views[leaf])
  }

  lemma SettledAll(ix: Index, views: seq<map<nat, nat>>)
    requires Settling(ix, [], views)
    ensures var table := if ix.keysDirty then Some(ix.cells.Keys) else ix.table;
            UpToDate(ix.(dirty := [], table := table, keysDirty := false), views)
  {
  }

  /** A commit after it has settled the cells `fns`, in that order, and at its end. */
  function SettledAfter(ix: Index, fns: seq<nat>): Index {
    if fns == [] then ix
    else
      var rest := SettledAfter(ix, fns[..|fns| - 1]);
      if fns[|fns| - 1] in rest.cells then Settled(rest, fns[|fns| - 1]) else rest
  }

  function Committed(ix: Index): Index {
    var end := SettledAfter(ix, ix.dirty);
    end.(dirty := [], table := if end.keysDirty then Some(end.cells.Keys) else end.table, keysDirty := false)
  }

  lemma {:induction false} SettledAt(ix: Index, fns: seq<nat>, fn: nat)
    requires (forall i, j :: 0 <= i < j < |fns| ==> fns[i] != fns[j]) && fn in ix.cells
    ensures var end := SettledAfter(ix, fns);
            && end.table == ix.table && (ix.keysDirty ==> end.keysDirty)
            && (if fn !in fns then fn in end.cells && end.cells[fn] == ix.cells[fn]
                else if ix.cells[fn].parts == [] then fn !in end.cells && end.keysDirty
                else fn in end.cells && end.cells[fn].pub == Some(ix.cells[fn].parts))
  {
    if fns == [] {
    } else {
      var n := |fns| - 1;
      SettledAt(ix, fns[..n], fn);
      assert fns == fns[..n] + [fns[n]] && fns[n] !in fns[..n];
    }
  }

  lemma {:induction false} SettledCells(ix: Index, fns: seq<nat>)
    ensures var end := SettledAfter(ix, fns);
            end.cells.Keys <= ix.cells.Keys && end.table == ix.table && (!end.keysDirty ==> end.cells.Keys == ix.cells.Keys)
  {
    if fns == [] {
    } else {
      SettledCells(ix, fns[..|fns| - 1]);
    }
  }

  /** What a request for `fn` reads that loads this table and then the function's list. */
  function Seen(table: Option<set<nat>>, cells: map<nat, Cell>, fn: nat): seq<Route> {
    if table.None? || fn !in table.value || fn !in cells || cells[fn].pub.None? then [] else cells[fn].pub.value
  }

  /** A request that runs beside a commit reads, for its function, the list from before the commit or
      the one from after it: whether it loaded the table before, during or after the stores to the
      lists, and however many of them came before its second load. */
  lemma ReadersSeeOldOrNew(ix: Index, views: seq<map<nat, nat>>, n: nat, fn: nat)
    requires Core(ix, views) && n <= |ix.dirty|
    ensures var old', new' := Seen(ix.table, ix.cells, fn), Seen(Committed(ix).table, Committed(ix).cells, fn);
            && Seen(ix.table, SettledAfter(ix, ix.dirty[..n]).cells, fn) in {old', new'}
            && Seen(ix.table, Committed(ix).cells, fn) in {old', new'}
  {
    SettledCells(ix, ix.dirty[..n]);
    SettledCells(ix, ix.dirty);
    if fn in ix.cells {
      SettledAt(ix, ix.dirty[..n], fn);
      SettledAt(ix, ix.dirty, fn);
      assert fn in ix.dirty[..n] ==> fn in ix.dirty;
    }
  }

  // --------------------------------------------------------------------- model

  /** A view with a baseline laid over it, and the functions the baseline names. */
  function Overlaid(view: map<nat, nat>, entries: seq<Capacity>): map<nat, nat> {
    if entries == [] then view
    else
      var rest := Overlaid(view, entries[..|entries| - 1]);
      var c := entries[|entries| - 1];
      if c.deleted then rest else With(rest, c.fn, c.available)
  }

  function Named(entries: seq<Capacity>): set<nat> {
    if entries == [] then {}
    else
      var rest := Named(entries[..|entries| - 1]);
      var c := entries[|entries| - 1];
      if c.deleted then rest else rest + {c.fn}
  }

  lemma OverlayStep(view: map<nat, nat>, entries: seq<Capacity>, i: nat)
    requires i < |entries|
    ensures var c := entries[i];
            && Overlaid(view, entries[..i + 1])
               == (if c.deleted then Overlaid(view, entries[..i]) else With(Overlaid(view, entries[..i]), c.fn, c.available))
            && Named(entries[..i + 1]) == if c.deleted then Named(entries[..i]) else Named(entries[..i]) + {c.fn}
  {
    assert entries[..i + 1][..i] == entries[..i];
  }

  lemma {:induction false} OverlaidIs(view: map<nat, nat>, entries: seq<Capacity>)
    ensures Overlaid(view, entries) == view + ApplyFull(entries) && Named(entries) == ApplyFull(entries).Keys
  {
    if entries == [] {
      assert view + map[] == view;
    } else {
      OverlaidIs(view, entries[..|entries| - 1]);
    }
  }

  lemma DeltaStep(view: map<nat, nat>, entries: seq<Capacity>, i: nat)
    requires i < |entries|
    ensures ApplyDelta(view, entries[..i + 1]) == Entered(ApplyDelta(view, entries[..i]), entries[i])
  {
    assert entries[..i + 1][..i] == entries[..i];
  }

  lemma OtherKey(a: map<nat, set<nat>>, b: map<nat, set<nat>>, id: nat, other: nat)
    requires a - {id} == b - {id} && other != id
    ensures (other in a <==> other in b) && (other in a ==> a[other] == b[other])
  {
    assert other in a <==> other in a - {id};
    assert other in b <==> other in b - {id};
  }

  lemma RemoveStep(view: map<nat, nat>, gone: set<nat>, fn: nat)
    ensures view - gone - {fn} == view - (gone + {fn})
  {
  }

  lemma Replaced(view: map<nat, nat>, m: map<nat, nat>)
    ensures (view + m) - (view.Keys - m.Keys) == m
  {
  }

  /** What a frame says about a leaf. */
  datatype LeafState = LeafState(leafID: nat, healthyWorkers: nat, capacities: seq<Capacity>)

  ghost predicate HealthDiffers(before: map<nat, bool>, after: map<nat, bool>) {
    exists id :: IsHealthy(before, id) != IsHealthy(after, id)
  }

  class AvailableCapacityModel {
    const leafIDs: seq<nat>
    var healthy: map<nat, bool>
    var byLeaf: map<nat, set<nat>>
    var index: Index
    var active: bool
    /** Per leaf of the topology, what it last advertised. */
    ghost var views: seq<map<nat, nat>>

    function FnsOf(id: nat): set<nat>
      reads `byLeaf
    {
      if id in byLeaf then byLeaf[id] else {}
    }

    ghost predicate Valid()
      reads this
    {
      && |views| == |leafIDs| && Core(index, views) && (forall i, j :: 0 <= i < j < |leafIDs| ==> leafIDs[i] != leafIDs[j])
      && (forall leaf :: 0 <= leaf < |leafIDs| ==> FnsOf(leafIDs[leaf]) == views[leaf].Keys)
      && (active ==> UpToDate(index, views))
    }

    constructor (ids: seq<nat>)
      requires forall i, j :: 0 <= i < j < |ids| ==> ids[i] != ids[j]
      ensures Valid() && leafIDs == ids && !active && forall leaf :: 0 <= leaf < |ids| ==> views[leaf] == map[]
    {
      leafIDs, healthy, byLeaf, active := ids, map[], map[], false;
      index := Index(map[], None, [], false);
      views := seq(|ids|, _ => map[]);
    }

    method Upsert(fn: nat, leaf: nat, available: nat)
      requires Core(index, views) && leaf < |views|
      modifies `index, `views
      ensures Core(index, views) && views == old(views)[leaf := With(old(views)[leaf], fn, available)]
    {
      index := Opened(index, fn);
      var parts := index.cells[fn].parts;
      assert ListOk(parts, fn, views);
      var i := RouteSlot(parts, leaf);
      if i < |parts| && parts[i].leaf == leaf && parts[i].available == available {
        UpsertSame(parts, views, fn, i, leaf);
        return;
      }
      UpsertOk(index, views, fn, i, leaf, available);
      views := views[leaf := With(views[leaf], fn, available)];
      index := Written(index, fn, Put(parts, i, leaf, available));
    }

    method Remove(fn: nat, leaf: nat)
      requires Core(index, views) && leaf < |views|
      modifies `index, `views
      ensures Core(index, views) && views == old(views)[leaf := old(views)[leaf] - {fn}]
    {
      if fn !in index.cells {
        assert views[leaf] - {fn} == views[leaf];
        return;
      }
      var parts := index.cells[fn].parts;
      assert ListOk(parts, fn, views);
      var i := RouteSlot(parts, leaf);
      if i == |parts| || parts[i].leaf != leaf {
        RemoveSame(parts, views, fn, i, leaf);
        return;
      }
      RemoveOk(index, views, fn, i, leaf);
      views := views[leaf := views[leaf] - {fn}];
      index := Written(index, fn, Cut(parts, i, leaf));
    }

    /** The loop of commit: publish every touched function once. */
    method SettleDirty()
      requires Core(index, views)
      modifies `index
      ensures index == SettledAfter(old(index), old(index.dirty)) && Settling(index, [], views)
    {
      var dirty := index.dirty;
      var i := 0;
      assert dirty[0..] == dirty;
      while i < |dirty|
        invariant i <= |dirty| && Settling(index, dirty[i..], views)
        invariant index == SettledAfter(old(index), dirty[..i])
      {
        assert dirty[i] == dirty[i..][0] && dirty[..i + 1][..i] == dirty[..i];
        SettleOk(index, dirty[i..], views);
        assert dirty[i..][1..] == dirty[i + 1..];
        index := Settled(index, dirty[i]);
        i := i + 1;
      }
      assert dirty[..|dirty|] == dirty && dirty[|dirty|..] == [];
    }

    /** commit: publish every touched function once, and the table if its functions changed. */
    method Commit() returns (changed: bool)
      requires Core(index, views)
      modifies `index
      ensures index == Committed(old(index))
      ensures UpToDate(index, views) && changed == (old(index).dirty != [])
    {
      if |index.dirty| == 0 {
        assert forall fn :: fn in index.cells ==> CellOk(index.cells[fn], false);
        return false;
      }
      SettleDirty();
      SettledAll(index, views);
      index := index.(dirty := [], table := if index.keysDirty then Some(index.cells.Keys) else index.table, keysDirty := false);
      changed := true;
    }

    /** membership.setHealthy. */
    method SetHealthy(id: nat, value: bool) returns (changed: bool)
      modifies `healthy
      ensures healthy == old(healthy)[id := value] && changed == HealthDiffers(old(healthy), healthy)
    {
      changed := IsHealthy(healthy, id) != value;
      healthy := healthy[id := value];
      assert changed ==> IsHealthy(old(healthy), id) != IsHealthy(healthy, id);
      assert forall x :: x != id ==> IsHealthy(healthy, x) == IsHealthy(old(healthy), x);
    }

    /** The topology index of a leaf id. */
    method SlotOfLeaf(id: nat) returns (leaf: nat)
      ensures leaf <= |leafIDs| && (leaf < |leafIDs| ==> leafIDs[leaf] == id) && forall k :: 0 <= k < leaf ==> leafIDs[k] != id
    {
      leaf := 0;
      while leaf < |leafIDs|
        invariant leaf <= |leafIDs| && forall k :: 0 <= k < leaf ==> leafIDs[k] != id
      {
        if leafIDs[leaf] == id { return; }
        leaf := leaf + 1;
      }
    }

    /** One entry of a delta. */
    method ApplyEntry(id: nat, leaf: nat, c: Capacity)
      requires Core(index, views) && leaf < |views| && id in byLeaf && byLeaf[id] == views[leaf].Keys
      modifies `index, `views, `byLeaf
      ensures Core(index, views) && views == old(views)[leaf := Entered(old(views)[leaf], c)]
      ensures id in byLeaf && byLeaf[id] == views[leaf].Keys && byLeaf - {id} == old(byLeaf) - {id}
    {
      if c.deleted {
        byLeaf := byLeaf[id := byLeaf[id] - {c.fn}];
        Remove(c.fn, leaf);
      } else {
        byLeaf := byLeaf[id := byLeaf[id] + {c.fn}];
        Upsert(c.fn, leaf, c.available);
      }
    }

    /** The loop of Apply over a frame's entries. */
    method ApplyEntries(id: nat, leaf: nat, entries: seq<Capacity>)
      requires Core(index, views) && leaf < |views| && FnsOf(id) == views[leaf].Keys
      modifies `index, `views, `byLeaf
      ensures Core(index, views) && views == old(views)[leaf := ApplyDelta(old(views)[leaf], entries)]
      ensures FnsOf(id) == views[leaf].Keys && forall other :: other != id ==> FnsOf(other) == old(FnsOf(other))
    {
      if |entries| == 0 { return; }
      if id !in byLeaf { byLeaf := byLeaf[id := {}]; }
      ghost var before, view := byLeaf, views[leaf];
      var i := 0;
      assert entries[..0] == [];
      while i < |entries|
        invariant i <= |entries| && Core(index, views) && view == ApplyDelta(old(views)[leaf], entries[..i])
        invariant id in byLeaf && byLeaf[id] == view.Keys && byLeaf - {id} == before - {id} && views == old(views)[leaf := view]
      {
        DeltaStep(old(views)[leaf], entries, i);
        view := Entered(view, entries[i]);
        ApplyEntry(id, leaf, entries[i]);
        i := i + 1;
      }
      assert entries[..|entries|] == entries;
      forall other | other != id ensures FnsOf(other) == old(FnsOf(other)) { OtherKey(byLeaf, before, id, other); }
    }

    /** Apply: a delta changes the leaf's part of the index as the delta says, and nothing else. */
    method Apply(s: LeafState) returns (result: UpdateResult)
      requires Valid()
      modifies `healthy, `byLeaf, `index, `views
      ensures Valid() && healthy == old(healthy)[s.leafID := s.healthyWorkers > 0]
      ensures forall leaf :: 0 <= leaf < |leafIDs| ==>
                views[leaf] == if leafIDs[leaf] == s.leafID then ApplyDelta(old(views)[leaf], s.capacities) else old(views)[leaf]
      ensures Announces(result, old(healthy))
    {
      var changed := SetHealthy(s.leafID, s.healthyWorkers > 0);
      var leaf := SlotOfLeaf(s.leafID);
      if leaf == |leafIDs| { return if changed then PublishPicker else NoChange; }
      ApplyEntries(s.leafID, leaf, s.capacities);
      forall k | 0 <= k < |leafIDs| ensures FnsOf(leafIDs[k]) == views[k].Keys {
        if k != leaf { assert leafIDs[k] != s.leafID && views[k] == old(views)[k]; }
      }
      result := Finish(changed);
    }

    /** The first loop of ReplaceLeaf: the new baseline is laid over the old entries. */
    method Overlay(leaf: nat, entries: seq<Capacity>) returns (next: set<nat>)
      requires Core(index, views) && leaf < |views|
      modifies `index, `views
      ensures Core(index, views) && views == old(views)[leaf := Overlaid(old(views)[leaf], entries)]
      ensures next == Named(entries)
    {
      next := {};
      ghost var view := views[leaf];
      var i := 0;
      while i < |entries|
        invariant i <= |entries| && Core(index, views)
        invariant next == Named(entries[..i]) && views == old(views)[leaf := Overlaid(view, entries[..i])]
      {
        OverlayStep(view, entries, i);
        if !entries[i].deleted {
          next := next + {entries[i].fn};
          Upsert(entries[i].fn, leaf, entries[i].available);
        }
        i := i + 1;
      }
      assert entries[..|entries|] == entries;
    }

    /** The second loop of ReplaceLeaf: what the baseline no longer names is removed. */
    method RemoveMissing(leaf: nat, previous: set<nat>, next: set<nat>)
      requires Core(index, views) && leaf < |views|
      modifies `index, `views
      ensures Core(index, views) && views == old(views)[leaf := old(views)[leaf] - (previous - next)]
    {
      var rest := previous;
      ghost var gone: set<nat> := {};
      assert old(views)[leaf] - gone == old(views)[leaf];
      while rest != {}
        invariant Core(index, views) && |views| == |old(views)| && rest <= previous
        invariant forall fn :: fn in gone <==> fn in previous && fn !in next && fn !in rest
        invariant views[leaf] == old(views)[leaf] - gone && views == old(views)[leaf := views[leaf]]
        decreases |rest|
      {
        var fn :| fn in rest;
        if fn !in next {
          RemoveStep(old(views)[leaf], gone, fn);
          Remove(fn, leaf);
          gone := gone + {fn};
        }
        rest := rest - {fn};
      }
      assert gone == previous - next;
    }

    method ReplaceEntries(id: nat, leaf: nat, entries: seq<Capacity>)
      requires Core(index, views) && leaf < |views| && FnsOf(id) == views[leaf].Keys
      modifies `index, `views, `byLeaf
      ensures Core(index, views) && views == old(views)[leaf := ApplyFull(entries)]
      ensures FnsOf(id) == views[leaf].Keys && forall other :: other != id ==> FnsOf(other) == old(FnsOf(other))
    {
      var previous := FnsOf(id);
      var next := Overlay(leaf, entries);
      RemoveMissing(leaf, previous, next);
      OverlaidIs(old(views)[leaf], entries);
      Replaced(old(views)[leaf], ApplyFull(entries));
      byLeaf := byLeaf[id := next];
    }

    /** ReplaceLeaf: a full snapshot replaces the leaf's part of the index, and nothing else. */
    method ReplaceLeaf(s: LeafState) returns (result: UpdateResult)
      requires Valid()
      modifies `healthy, `byLeaf, `index, `views
      ensures Valid() && healthy == old(healthy)[s.leafID := s.healthyWorkers > 0]
      ensures forall leaf :: 0 <= leaf < |leafIDs| ==>
                views[leaf] == if leafIDs[leaf] == s.leafID then ApplyFull(s.capacities) else old(views)[leaf]
      ensures Announces(result, old(healthy))
    {
      var changed := SetHealthy(s.leafID, s.healthyWorkers > 0);
      var leaf := SlotOfLeaf(s.leafID);
      if leaf == |leafIDs| { return if changed then PublishPicker else NoChange; }
      ReplaceEntries(s.leafID, leaf, s.capacities);
      forall k | 0 <= k < |leafIDs| ensures FnsOf(leafIDs[k]) == views[k].Keys {
        if k != leaf { assert leafIDs[k] != s.leafID && views[k] == old(views)[k]; }
      }
      result := Finish(changed);
    }

    method LeafDisconnected(id: nat) returns (result: UpdateResult)
      requires Valid()
      modifies `healthy
      ensures Valid() && healthy == old(healthy)[id := false] && Announces(result, old(healthy))
    {
      var changed := SetHealthy(id, false);
      result := if changed then PublishPicker else NoChange;
    }

    /** What every update ends with: nothing is published before the first picker. */
    method Finish(healthChanged: bool) returns (result: UpdateResult)
      requires Core(index, views)
      modifies `index
      ensures Core(index, views) && (active ==> UpToDate(index, views))
      ensures active ==> (result == PublishPicker <==> healthChanged)
    {
      if !active { return NoChange; }
      var changed := Commit();
      result := if healthChanged then PublishPicker else if changed then ChangedInPlace else NoChange;
    }

    /** While serving, a new picker is asked for exactly if some leaf's health changed. */
    ghost predicate Announces(result: UpdateResult, before: map<nat, bool>)
      reads this
    {
      active ==> (result == PublishPicker <==> HealthDiffers(before, healthy))
    }

    /** Picker: publishes the combined baselines the first time, and fixes the healthy leaves. */
    method MakePicker() returns (p: AvailableCapacityPicker)
      requires Valid()
      modifies `index, `active
      ensures Valid() && active && fresh(p) && p.model == this && p.Valid()
      ensures p.leaves == leafIDs && p.counter == 0
      ensures forall k :: 0 <= k < |leafIDs| ==> p.healthy[k] == (leafIDs[k] in healthy && healthy[leafIDs[k]])
      ensures forall id :: id in p.healthyLeaves <==> id in leafIDs && id in healthy && healthy[id]
    {
      var changed := Commit();
      active := true;
      var flags: seq<bool> := [];
      var able: seq<nat> := [];
      var k := 0;
      while k < |leafIDs|
        invariant k <= |leafIDs| == |views| && |flags| == k && UpToDate(index, views)
        invariant forall j :: 0 <= j < k ==> flags[j] == IsHealthy(healthy, leafIDs[j])
        invariant (forall id :: id in able ==> id in leafIDs && IsHealthy(healthy, id))
        invariant forall j :: 0 <= j < k && IsHealthy(healthy, leafIDs[j]) ==> leafIDs[j] in able
      {
        flags := flags + [IsHealthy(healthy, leafIDs[k])];
        if IsHealthy(healthy, leafIDs[k]) { able := able + [leafIDs[k]]; }
        k := k + 1;
      }
      p := new AvailableCapacityPicker(this, leafIDs, able, flags);
    }
  }

  // -------------------------------------------------------------------- picker

  /** A route to a healthy leaf, and one that has the best share. */
  function Able(healthy: seq<bool>): Route -> bool { (r: Route) => r.leaf < |healthy| && healthy[r.leaf] }

  function Tied(healthy: seq<bool>, best: nat): Route -> bool {
    (r: Route) => r.leaf < |healthy| && healthy[r.leaf] && r.available == best
  }

  ghost predicate IsBest(view: seq<Route>, healthy: seq<bool>, best: nat) {
    && (exists i :: 0 <= i < |view| && Able(healthy)(view[i]) && view[i].available == best)
    && (forall i :: 0 <= i < |view| && Able(healthy)(view[i]) ==> view[i].available <= best)
  }

  /** Every route names a leaf of the topology. */
  ghost predicate InRange(view: seq<Route>, n: nat) {
    forall i :: 0 <= i < |view| ==> view[i].leaf < n
  }

  /** No route to a healthy leaf has a larger share than route `i`. */
  ghost predicate Tops(view: seq<Route>, healthy: seq<bool>, i: nat)
    requires i < |view|
  {
    forall j :: 0 <= j < |view| && view[j].leaf < |healthy| && healthy[view[j].leaf] ==> view[j].available <= view[i].available
  }

  datatype Target = NoHealthyLeaves | Warm(leaf: nat) | Cold(leafID: nat)

  /** The routes to healthy leaves with the largest share of all healthy leaves. */
  ghost function BestTies(view: seq<Route>, healthy: seq<bool>): seq<Route> {
    if exists best :: IsBest(view, healthy, best) then
      var best :| IsBest(view, healthy, best);
      Filter(view, Tied(healthy, best))
    else []
  }

  lemma BestIsUnique(view: seq<Route>, healthy: seq<bool>, a: nat, b: nat)
    requires IsBest(view, healthy, a) && IsBest(view, healthy, b)
    ensures a == b
  {
    var i :| 0 <= i < |view| && Able(healthy)(view[i]) && view[i].available == a;
    var j :| 0 <= j < |view| && Able(healthy)(view[j]) && view[j].available == b;
  }

  lemma BestTiesAre(view: seq<Route>, healthy: seq<bool>, best: nat)
    requires IsBest(view, healthy, best)
    ensures BestTies(view, healthy) == Filter(view, Tied(healthy, best))
  {
    var other :| IsBest(view, healthy, other) && BestTies(view, healthy) == Filter(view, Tied(healthy, other));
    BestIsUnique(view, healthy, best, other);
  }

  /** A list with a route to a healthy leaf has a largest share. */
  lemma {:induction false} BestExists(view: seq<Route>, healthy: seq<bool>) returns (best: nat)
    requires exists i :: 0 <= i < |view| && Able(healthy)(view[i])
    ensures IsBest(view, healthy, best)
  {
    var rest := view[1..];
    if exists i :: 0 <= i < |rest| && Able(healthy)(rest[i]) {
      best := BestExists(rest, healthy);
      var i :| 0 <= i < |rest| && Able(healthy)(rest[i]) && rest[i].available == best;
      assert view[i + 1] == rest[i];
      if Able(healthy)(view[0]) && view[0].available > best { best := view[0].available; }
    } else {
      best := view[0].available;
      forall i | 0 < i < |view| ensures !Able(healthy)(view[i]) { assert view[i] == rest[i - 1]; }
    }
    assert forall i :: 0 < i < |view| ==> view[i] == rest[i - 1];
  }

  /** What a pick answers, and the counter after it. */
  ghost function Choice(view: Option<seq<Route>>, healthy: seq<bool>, healthyLeaves: seq<nat>, counter: nat, hash: nat): (Target, nat) {
    if healthyLeaves == [] then (NoHealthyLeaves, counter)
    else if view.None? || BestTies(view.value, healthy) == [] then (Cold(healthyLeaves[hash % |healthyLeaves|]), counter)
    else
      var ties := BestTies(view.value, healthy);
      (Warm(ties[Turn(counter, 0, |ties|)].leaf), counter + 1)
  }

  /** The leaf whose turn it is among those with share `best`. */
  ghost predicate TakesTurn(view: seq<Route>, healthy: seq<bool>, best: nat, counter: nat, leaf: nat) {
    var ties := Filter(view, Tied(healthy, best));
    ties != [] && leaf == ties[Turn(counter, 0, |ties|)].leaf
  }

  /** A pick goes to a healthy leaf whose published share no healthy leaf's exceeds, and counts on;
      with no healthy leaf on the list it goes to one by the hash, and does not. */
  lemma ChoiceExactly(view: seq<Route>, healthy: seq<bool>, healthyLeaves: seq<nat>, counter: nat, hash: nat)
    requires healthyLeaves != []
    ensures var (t, next) := Choice(Some(view), healthy, healthyLeaves, counter, hash);
            if forall i :: 0 <= i < |view| ==> view[i].leaf >= |healthy| || !healthy[view[i].leaf]
            then t == Cold(healthyLeaves[hash % |healthyLeaves|]) && next == counter
            else && t.Warm? && t.leaf < |healthy| && healthy[t.leaf] && next == counter + 1
                 && (exists i :: 0 <= i < |view| && view[i].leaf == t.leaf && Tops(view, healthy, i))
                 && exists best :: IsBest(view, healthy, best) && TakesTurn(view, healthy, best, counter, t.leaf)
  {
    if exists i :: 0 <= i < |view| && Able(healthy)(view[i]) {
      var best := BestExists(view, healthy);
      BestTiesAre(view, healthy, best);
      FilterMembers(view, Tied(healthy, best));
      var i :| 0 <= i < |view| && Able(healthy)(view[i]) && view[i].available == best;
      assert view[i] in Filter(view, Tied(healthy, best));
      var ties := Filter(view, Tied(healthy, best));
      assert ties[Turn(counter, 0, |ties|)] in ties;
      assert TakesTurn(view, healthy, best, counter, ties[Turn(counter, 0, |ties|)].leaf);
    }
  }

  /** The first loop of Pick: the best share of a healthy leaf, and how many have it. */
  method FindBest(view: seq<Route>, healthy: seq<bool>) returns (best: nat, ties: nat)
    requires InRange(view, |healthy|)
    ensures ties == |Filter(view, Tied(healthy, best))|
    ensures ties == 0 ==> forall i :: 0 <= i < |view| ==> !Able(healthy)(view[i])
    ensures ties > 0 ==> IsBest(view, healthy, best)
  {
    best, ties := 0, 0;
    var i := 0;
    while i < |view|
      invariant i <= |view| && ties == |Filter(view[..i], Tied(healthy, best))|
      invariant ties == 0 ==> forall k :: 0 <= k < i ==> !Able(healthy)(view[k])
      invariant ties > 0 ==> IsBest(view[..i], healthy, best)
    {
      assert view[..i + 1][..i] == view[..i];
      var r := view[i];
      if healthy[r.leaf] {
        if ties == 0 || r.available > best {
          NoTies(view[..i], healthy, r.available);
          best, ties := r.available, 1;
        } else if r.available == best {
          ties := ties + 1;
        }
        assert Able(healthy)(view[..i + 1][i]);
      }
      i := i + 1;
    }
    assert view[..|view|] == view;
  }

  lemma NoTies(view: seq<Route>, healthy: seq<bool>, available: nat)
    requires forall k :: 0 <= k < |view| && Able(healthy)(view[k]) ==> view[k].available < available
    ensures Filter(view, Tied(healthy, available)) == []
  {
    FilterNone(view, Tied(healthy, available));
  }

  /** The second loop of Pick: the tied route with number `chosen`. */
  method NthTie(view: seq<Route>, healthy: seq<bool>, best: nat, chosen: nat) returns (r: Route)
    requires InRange(view, |healthy|) && chosen < |Filter(view, Tied(healthy, best))|
    ensures r == Filter(view, Tied(healthy, best))[chosen]
  {
    var left: nat := chosen;
    var i := 0;
    assert view[..|view|] == view;
    while i < |view|
      invariant i <= |view| && left + |Filter(view[..i], Tied(healthy, best))| == chosen
    {
      r := view[i];
      assert view[..i + 1][..i] == view[..i];
      if healthy[r.leaf] && r.available == best {
        if left == 0 {
          FilterPrefix(view, Tied(healthy, best), i);
          return;
        }
        left := left - 1;
      }
      i := i + 1;
    }
    assert false;
  }

  lemma FilterPrefix<T>(s: seq<T>, p: T -> bool, i: nat)
    requires i < |s| && p(s[i])
    ensures |Filter(s, p)| > |Filter(s[..i], p)| && Filter(s, p)[|Filter(s[..i], p)|] == s[i]
  {
    assert s == s[..i + 1] + s[i + 1..] && s[..i + 1][..i] == s[..i];
    FilterConcat(s[..i + 1], s[i + 1..], p);
  }

  /** Published lists name leaves of the topology only, so a request never indexes past its health flags. */
  lemma PublishedInRange(ix: Index, views: seq<map<nat, nat>>, fn: nat)
    requires UpToDate(ix, views) && Published(ix, fn).Some?
    ensures InRange(Published(ix, fn).value, |views|) && Ordered(Published(ix, fn).value)
  {
    assert ListOk(ix.cells[fn].parts, fn, views);
    SharesAt(ix.cells[fn].parts);
  }

  class AvailableCapacityPicker {
    const model: AvailableCapacityModel
    const leaves: seq<nat>
    const healthyLeaves: seq<nat>
    const healthy: seq<bool>
    var counter: nat

    /** The picker reads what its serving model has published, over the same topology. */
    ghost predicate Valid()
      reads model
    {
      && model.Valid() && model.active && leaves == model.leafIDs
      && |healthy| == |leaves| && (healthyLeaves == [] ==> forall k :: 0 <= k < |leaves| ==> !healthy[k])
      && (forall id :: id in healthyLeaves ==> exists k :: 0 <= k < |leaves| && leaves[k] == id && healthy[k])
    }

    constructor (m: AvailableCapacityModel, ids: seq<nat>, able: seq<nat>, flags: seq<bool>)
      ensures model == m && leaves == ids && healthyLeaves == able && healthy == flags && counter == 0
    {
      model, leaves, healthyLeaves, healthy, counter := m, ids, able, flags, 0;
    }

    /** coldFallback. */
    method ColdFallback(hash: nat) returns (t: Target)
      requires healthyLeaves != []
      ensures t == Cold(healthyLeaves[hash % |healthyLeaves|])
    {
      t := Cold(healthyLeaves[hash % |healthyLeaves|]);
    }

    /** Pick: the published list decides. With a healthy route the answer is one of the healthy
        leaves with the largest published share, each of them in its turn; without one, some
        healthy leaf; and an error exactly if there is none. */
    method Pick(fn: nat, hash: nat) returns (t: Target)
      requires Valid()
      modifies `counter
      ensures (t, counter) == Choice(Published(model.index, fn), healthy, healthyLeaves, old(counter), hash)
      ensures t.NoHealthyLeaves? <==> healthyLeaves == []
      ensures t.Cold? ==> t.leafID == healthyLeaves[hash % |healthyLeaves|] && counter == old(counter)
      ensures t.Warm? ==> t.leaf < |leaves| && healthy[t.leaf] && counter == old(counter) + 1
      ensures var view := Published(model.index, fn);
              && (t.Warm? <==> healthyLeaves != [] && view.Some? && exists i :: 0 <= i < |view.value| && Able(healthy)(view.value[i]))
              && (t.Warm? ==> exists i :: 0 <= i < |view.value| && view.value[i].leaf == t.leaf && Tops(view.value, healthy, i))
              && (t.Warm? ==> exists best :: IsBest(view.value, healthy, best) && TakesTurn(view.value, healthy, best, old(counter), t.leaf))
    {
      if |healthyLeaves| == 0 { return NoHealthyLeaves; }
      var view := Published(model.index, fn);
      if view.None? {
        t := ColdFallback(hash);
        return;
      }
      PublishedInRange(model.index, model.views, fn);
      var best, ties := FindBest(view.value, healthy);
      if ties == 0 {
        t := ColdFallback(hash);
        return;
      }
      BestTiesAre(view.value, healthy, best);
      var chosen := counter % ties;
      counter := counter + 1;
      var r := NthTie(view.value, healthy, best, chosen);
      t := Warm(r.leaf);
      ChoiceExactly(view.value, healthy, healthyLeaves, old(counter), hash);
    }
  }

  predicate LeafBefore(a: Route, b: Route) { a.leaf < b.leaf }

  lemma TurnNext(start: nat, offset: nat, n: nat)
    requires n > 0
    ensures Turn(start + offset, 0, n) == Turn(start, offset, n)
  {
  }

  /** The answers of `n` consecutive picks for one function. */
  ghost function Picks(view: seq<Route>, healthy: seq<bool>, healthyLeaves: seq<nat>, counter: nat, hash: nat, n: nat): (r: (seq<Target>, nat))
    ensures |r.0| == n
  {
    if n == 0 then ([], counter)
    else
      var (targets, c) := Picks(view, healthy, healthyLeaves, counter, hash, n - 1);
      var (t, c') := Choice(Some(view), healthy, healthyLeaves, c, hash);
      (targets + [t], c')
  }

  /** Consecutive picks go round the tied leaves. */
  lemma {:induction false} PicksGoRound(view: seq<Route>, healthy: seq<bool>, healthyLeaves: seq<nat>, counter: nat, hash: nat, n: nat)
    requires healthyLeaves != [] && BestTies(view, healthy) != []
    ensures var ties := BestTies(view, healthy);
            var (targets, c) := Picks(view, healthy, healthyLeaves, counter, hash, n);
            c == counter + n && forall k :: 0 <= k < n ==> targets[k] == Warm(ties[Turn(counter, k, |ties|)].leaf)
  {
    if n == 0 {
    } else {
      PicksGoRound(view, healthy, healthyLeaves, counter, hash, n - 1);
      TurnNext(counter, n - 1, |BestTies(view, healthy)|);
    }
  }

  /** So as many consecutive picks as there are ties visit every tied leaf exactly once. */
  lemma TiesTakeTurns(view: seq<Route>, healthy: seq<bool>, healthyLeaves: seq<nat>, counter: nat, hash: nat, i: nat)
    requires Ordered(view) && healthyLeaves != [] && i < |BestTies(view, healthy)|
    ensures var ties := BestTies(view, healthy);
            var targets := Picks(view, healthy, healthyLeaves, counter, hash, |ties|).0;
            && (exists k :: 0 <= k < |ties| && targets[k] == Warm(ties[i].leaf))
            && (forall j, k :: 0 <= j < k < |ties| ==> targets[j] != targets[k])
  {
    var best :| IsBest(view, healthy, best) && BestTies(view, healthy) == Filter(view, Tied(healthy, best));
    var ties := BestTies(view, healthy);
    var targets := Picks(view, healthy, healthyLeaves, counter, hash, |ties|).0;
    PicksGoRound(view, healthy, healthyLeaves, counter, hash, |ties|);
    TurnCovers(counter, |ties|, i);
    var k :| 0 <= k < |ties| && Turn(counter, k, |ties|) == i;
    assert targets[k] == Warm(ties[i].leaf);
    FilterSorted(view, Tied(healthy, best), LeafBefore);
    forall j, k | 0 <= j < k < |ties| ensures targets[j] != targets[k] {
      TurnOnce(counter, j, k, |ties|);
      var a, b := Turn(counter, j, |ties|), Turn(counter, k, |ties|);
      assert LeafBefore(ties[if a < b then a else b], ties[if a < b then b else a]);
    }
  }
}
