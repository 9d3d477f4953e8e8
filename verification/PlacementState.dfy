/** `PlacementState` of `pkg/leaf/runtime/placement.go` as a class whose calls are single steps. */
module Placement {
  import opened Rotation
  import opened Tallies
  import opened PlacementSteps
  import opened PlacementProofs

  /** The last report of a worker, if any. */
  datatype Telemetry = NoReport | Report(healthy: bool, schedulable: bool, instances: nat)

  predicate Eligible(t: Telemetry) { t.NoReport? || (t.healthy && t.schedulable) }

  function Observed(local: nat, t: Telemetry): nat {
    if t.Report? && t.instances > local then t.instances else local
  }

  /** Whether a worker takes one more start: eligible, below its token limit and below its
      instance cap, both when asked and, with the report seen then, when checked again. */
  predicate Accepts(w: WorkerCounts, tokens: nat, cap: nat, now: Telemetry, later: Telemetry) {
    && Eligible(now) && Eligible(later)
    && (tokens > 0 ==> w.pending < tokens)
    && (cap > 0 ==> Observed(w.instances, now) + w.pending < cap && Observed(w.instances, later) + w.pending < cap)
  }

  /** A worker takes one more start exactly if, by both reports, it is healthy and schedulable or has not
      reported, its pending starts are below a set token limit, and they and its instances, counted
      here or reported, are below a set instance cap. */
  lemma AcceptsExactly(w: WorkerCounts, tokens: nat, cap: nat, now: Telemetry, later: Telemetry)
    ensures Accepts(w, tokens, cap, now, later) <==>
            && (tokens > 0 ==> w.pending < tokens) && (cap > 0 ==> w.instances + w.pending < cap)
            && (now.Report? ==> now.healthy && now.schedulable && (cap > 0 ==> now.instances + w.pending < cap))
            && (later.Report? ==> later.healthy && later.schedulable && (cap > 0 ==> later.instances + w.pending < cap))
  {
  }

  ghost predicate HasFree(slots: seq<Slot>) { exists i :: 0 <= i < |slots| && !Odd(slots[i].generation) }

  /** Walking round from the cursor, `slot` is the first that is free. */
  ghost predicate FirstFree(slots: seq<Slot>, cursor: nat, slot: nat)
    requires slots != []
  {
    var n := |slots|;
    exists offset :: 0 <= offset < n && slot == Turn(cursor % n, offset, n) && !Odd(slots[slot].generation)
                     && forall k :: 0 <= k < offset ==> Odd(slots[Turn(cursor % n, k, n)].generation)
  }

  function Less(w: WorkerCounts): WorkerCounts {
    w.(pending := if w.pending == 0 then 0 else w.pending - 1)
  }

  function More(w: WorkerCounts): WorkerCounts { w.(pending := w.pending + 1) }

  /** The counters are the live reservations; or, those and one start of worker `w` under way. */
  ghost predicate Books(slots: seq<Slot>, workers: seq<WorkerCounts>, pending: nat) {
    && pending == Tally(slots, Reserved())
    && forall j :: 0 <= j < |workers| ==> workers[j].pending == Tally(slots, ReservedFor(j))
  }

  ghost predicate BooksBut(slots: seq<Slot>, workers: seq<WorkerCounts>, pending: nat, w: nat) {
    && pending == Tally(slots, Reserved()) + 1
    && forall j :: 0 <= j < |workers| ==> workers[j].pending == Tally(slots, ReservedFor(j)) + if j == w then 1 else 0
  }

  /** If fewer slots are reserved than there are, one is free. */
  lemma {:induction false} FreeSlotExists(slots: seq<Slot>)
    requires Tally(slots, Reserved()) < |slots|
    ensures HasFree(slots)
  {
    if forall i :: 0 <= i < |slots| ==> Odd(slots[i].generation) {
      TallyOnes(slots, Reserved());
      assert false;
    }
  }

  class PlacementState {
    const tokensPerWorker: nat
    const tokensTotal: nat
    const maxInstancesPerWorker: nat
    var workers: seq<WorkerCounts>
    var telemetry: seq<Telemetry>
    var pendingStarts: nat
    var cursor: nat
    var slots: seq<Slot>
    ghost var issued: set<Token>

    /** Between calls the counters are the live reservations, within every limit. */
    ghost predicate Valid()
      reads this
    {
      Sized() && Within(workers, pendingStarts) && Books(slots, workers, pendingStarts)
    }

    /** During a call that holds one global token and one token of worker `w`. */
    ghost predicate Holding(w: nat)
      reads this
    {
      Sized() && Within(workers, pendingStarts) && w < |workers| && BooksBut(slots, workers, pendingStarts, w)
    }

    ghost predicate Sized()
      reads this
    {
      && |telemetry| == |workers| && slots != [] && (tokensTotal > 0 ==> |slots| == tokensTotal)
      && (forall t :: t in issued ==> TokenOk(slots, |workers|, t))
    }

    ghost predicate Within(ws: seq<WorkerCounts>, pending: nat) {
      && (tokensTotal > 0 ==> pending <= tokensTotal)
      && (forall w :: 0 <= w < |ws| ==> Fits(ws[w]))
    }

    ghost predicate Fits(w: WorkerCounts) {
      && (tokensPerWorker > 0 ==> w.pending <= tokensPerWorker)
      && (maxInstancesPerWorker > 0 ==> w.instances + w.pending <= maxInstancesPerWorker)
    }

    constructor (n: nat, perWorker: nat, total: nat, maxPerWorker: nat)
      ensures Valid() && |workers| == n && issued == {} && pendingStarts == 0
      ensures tokensPerWorker == perWorker && tokensTotal == total && maxInstancesPerWorker == maxPerWorker
      ensures |slots| == if total > 0 then total else if n == 0 then 1 else n * 64
    {
      tokensPerWorker, tokensTotal, maxInstancesPerWorker := perWorker, total, maxPerWorker;
      workers := seq(n, _ => WorkerCounts(0, 0));
      telemetry := seq(n, _ => NoReport);
      pendingStarts, cursor, issued := 0, 0, {};
      var count := n * 64;
      if total > 0 { count := total; }
      if count < 1 { count := 1; }
      slots := seq(count, _ => Slot(0, 0));
      new;
      TallyZero(slots, Reserved());
      forall w | 0 <= w < n ensures Tally(slots, ReservedFor(w)) == 0 { TallyZero(slots, ReservedFor(w)); }
    }

    method UpdateWorker(index: int, report: Telemetry)
      requires Valid()
      modifies `telemetry
      ensures Valid()
      ensures telemetry == if 0 <= index < |workers| && report.Report? then old(telemetry)[index := report] else old(telemetry)
    {
      if index < 0 || index >= |workers| || report.NoReport? { return; }
      telemetry := telemetry[index := report];
    }

    method ReserveGlobalStart() returns (ok: bool)
      modifies `pendingStarts
      ensures ok == (tokensTotal == 0 || old(pendingStarts) < tokensTotal)
      ensures pendingStarts == old(pendingStarts) + if ok then 1 else 0
    {
      if tokensTotal > 0 && pendingStarts >= tokensTotal { return false; }
      pendingStarts := pendingStarts + 1;
      ok := true;
    }

    /** reserveWorker: raise the counter, check again, and undo if the check now fails. */
    method ReserveWorker(index: int, later: seq<Telemetry>) returns (ok: bool)
      requires |telemetry| == |workers| == |later|
      modifies `workers
      ensures ok == (0 <= index < |old(workers)|
                     && Accepts(old(workers)[index], tokensPerWorker, maxInstancesPerWorker, telemetry[index], later[index]))
      ensures workers == if ok then old(workers)[index := More(old(workers)[index])] else old(workers)
    {
      if index < 0 || index >= |workers| { return false; }
      if !Eligible(telemetry[index]) { return false; }
      var pending := workers[index].pending;
      if tokensPerWorker > 0 && pending >= tokensPerWorker { return false; }
      if maxInstancesPerWorker > 0 && Observed(workers[index].instances, telemetry[index]) + pending >= maxInstancesPerWorker { return false; }
      workers := workers[index := workers[index].(pending := pending + 1)];
      if !Eligible(later[index])
         || (maxInstancesPerWorker > 0 && Observed(workers[index].instances, later[index]) + pending + 1 > maxInstancesPerWorker) {
        workers := workers[index := Less(workers[index])];
        return false;
      }
      ok := true;
    }

    /** claimReservationSlot: the first free slot from the cursor on; fails only if all are taken. */
    method ClaimReservationSlot() returns (found: bool, slot: nat, generation: nat)
      requires slots != []
      modifies `cursor, `slots
      ensures cursor == old(cursor) + 1 && found == HasFree(old(slots))
      ensures found ==> slot < |old(slots)| && !Odd(old(slots)[slot].generation) && generation == old(slots)[slot].generation + 1
      ensures found ==> FirstFree(old(slots), old(cursor), slot)
      ensures slots == if found then old(slots)[slot := old(slots)[slot].(generation := generation)] else old(slots)
    {
      var n := |slots|;
      cursor := cursor + 1;
      var start := (cursor - 1) % n;
      var offset := 0;
      while offset < n
        invariant offset <= n && slots == old(slots)
        invariant forall k :: 0 <= k < offset ==> Odd(slots[Turn(start, k, n)].generation)
      {
        var i := Turn(start, offset, n);
        var state := slots[i].generation;
        if !Odd(state) {
          slots := slots[i := slots[i].(generation := state + 1)];
          return true, i, state + 1;
        }
        offset := offset + 1;
      }
      forall i | 0 <= i < n ensures Odd(slots[i].generation) { TurnCovers(start, n, i); }
      return false, 0, 0;
    }

    /** newReservation and the undo of a failed one, by a caller holding both tokens. */
    method NewReservation(w: nat) returns (t: Token)
      requires Holding(w)
      modifies `cursor, `slots, `issued, `workers, `pendingStarts
      ensures Valid()
      ensures t.valid == HasFree(old(slots)) && (tokensTotal > 0 ==> t.valid)
      ensures t.valid ==> pendingStarts == old(pendingStarts) && workers == old(workers) && t.worker == w && Odd(t.generation)
                          && 0 <= t.slot < |old(slots)| && !Odd(old(slots)[t.slot].generation)
                          && slots == old(slots)[t.slot := Slot(t.generation, w)] && issued == old(issued) + {t}
      ensures !t.valid ==> pendingStarts == old(pendingStarts) - 1 && slots == old(slots) && issued == old(issued)
                           && workers == old(workers)[w := Less(old(workers)[w])]
    {
      if tokensTotal > 0 { FreeSlotExists(slots); }
      UndoBooks(slots, workers, pendingStarts, w);
      var found, slot, generation := ClaimReservationSlot();
      if found {
        t := Token(slot, generation, w, true);
        slots := slots[slot := slots[slot].(worker := w)];
        issued := issued + {t};
        ReserveBooks(old(slots), slot, Slot(generation, w), workers, pendingStarts, w);
        assert slots == old(slots)[slot := Slot(generation, w)];
      } else {
        t := Token(0, 0, 0, false);
        workers := workers[w := Less(workers[w])];
        pendingStarts := pendingStarts - 1;
      }
    }

    /** reserveWorker and newReservation by a caller holding a global token, which a failed
        claim gives back. */
    method TryReserve(index: int, later: seq<Telemetry>) returns (accepted: bool, t: Token)
      requires Sized() && |later| == |workers| && pendingStarts > 0
      requires Books(slots, workers, pendingStarts - 1) && Within(workers, pendingStarts)
      modifies `cursor, `slots, `issued, `workers, `pendingStarts
      ensures accepted == (0 <= index < |old(workers)| && Takes(old(workers), later, index))
      ensures accepted ==> Valid() && t.valid == HasFree(old(slots)) && (tokensTotal > 0 ==> t.valid)
      ensures t.valid ==> accepted && Reserves(old(workers), old(slots), old(pendingStarts) - 1, old(issued), t) && t.worker == index
      ensures !t.valid ==> workers == old(workers) && slots == old(slots) && issued == old(issued)
                           && pendingStarts == old(pendingStarts) - if accepted then 1 else 0
    {
      accepted := ReserveWorker(index, later);
      if !accepted { return accepted, Token(0, 0, 0, false); }
      t := NewReservation(index);
      assert old(workers)[index := More(old(workers)[index])][index := Less(More(old(workers)[index]))] == old(workers);
    }

    /** scheduleBalanced from the index its scheduler names: it reserves exactly if there is a
        global token, a worker that accepts and a slot, and then for the first such worker. */
    method ScheduleBalanced(start: nat, later: seq<Telemetry>) returns (t: Token)
      requires Valid() && |later| == |workers|
      modifies `cursor, `slots, `issued, `workers, `pendingStarts
      ensures Valid()
      ensures t.valid == (&& (tokensTotal == 0 || old(pendingStarts) < tokensTotal)
                          && (exists w :: 0 <= w < |old(workers)| && Takes(old(workers), later, w))
                          && (tokensTotal > 0 || HasFree(old(slots))))
      ensures t.valid ==> exists offset :: && 0 <= offset < |old(workers)| && t.worker == Turn(start, offset, |old(workers)|)
                                           && (forall k :: 0 <= k < offset ==> !Takes(old(workers), later, Turn(start, k, |old(workers)|)))
      ensures if t.valid then Reserves(old(workers), old(slots), old(pendingStarts), old(issued), t)
              else workers == old(workers) && slots == old(slots) && pendingStarts == old(pendingStarts) && issued == old(issued)
    {
      var n := |workers|;
      t := Token(0, 0, 0, false);
      if n == 0 { return; }
      var ok := ReserveGlobalStart();
      if !ok { return; }
      var offset := 0;
      while offset < n
        invariant offset <= n && workers == old(workers) && slots == old(slots) && issued == old(issued)
        invariant pendingStarts == old(pendingStarts) + 1 && !t.valid
        invariant forall k :: 0 <= k < offset ==> !Takes(old(workers), later, Turn(start, k, n))
      {
        var w := Turn(start, offset, n);
        ok, t := TryReserve(w, later);
        if ok {
          assert Takes(old(workers), later, w);
          return;
        }
        offset := offset + 1;
      }
      forall w | 0 <= w < n ensures !Takes(old(workers), later, w) { TurnCovers(start, n, w); }
      pendingStarts := pendingStarts - 1;
    }

    ghost predicate Takes(ws: seq<WorkerCounts>, later: seq<Telemetry>, w: nat)
      requires w < |ws| == |telemetry| == |later|
      reads `telemetry
    {
      Accepts(ws[w], tokensPerWorker, maxInstancesPerWorker, telemetry[w], later[w])
    }

    /** One more live reservation `t`, counted once globally and once at its worker. */
    ghost predicate Reserves(ws: seq<WorkerCounts>, ss: seq<Slot>, pending: nat, tokens: set<Token>, t: Token)
      reads this
    {
      && 0 <= t.worker < |ws| && 0 <= t.slot < |ss| && !Odd(ss[t.slot].generation) && Odd(t.generation)
      && pendingStarts == pending + 1 && issued == tokens + {t}
      && workers == ws[t.worker := More(ws[t.worker])]
      && slots == ss[t.slot := Slot(t.generation, t.worker)]
    }

    /** scheduleSnapshot with the worker its scheduler picked, or -1 for none. */
    method ScheduleSnapshot(picked: int, later: seq<Telemetry>) returns (t: Token)
      requires Valid() && |later| == |workers|
      modifies `cursor, `slots, `issued, `workers, `pendingStarts
      ensures Valid()
      ensures t.valid == (&& (tokensTotal == 0 || old(pendingStarts) < tokensTotal)
                          && 0 <= picked < |old(workers)| && Takes(old(workers), later, picked)
                          && (tokensTotal > 0 || HasFree(old(slots))))
      ensures t.valid ==> t.worker == picked
      ensures if t.valid then Reserves(old(workers), old(slots), old(pendingStarts), old(issued), t)
              else workers == old(workers) && slots == old(slots) && pendingStarts == old(pendingStarts) && issued == old(issued)
    {
      t := Token(0, 0, 0, false);
      var ok := ReserveGlobalStart();
      if !ok { return; }
      if picked >= 0 {
        ok, t := TryReserve(picked, later);
        if ok { return; }
      }
      pendingStarts := pendingStarts - 1;
    }

    /** completeReservation: only the first call with a copy of the token finds its generation. */
    method CompleteReservation(t: Token) returns (won: bool)
      requires slots != []
      modifies `slots
      ensures won == (t.valid && 0 <= t.slot < |old(slots)| && 0 <= t.worker < |workers| && old(slots)[t.slot].generation == t.generation)
      ensures slots == if won then old(slots)[t.slot := old(slots)[t.slot].(generation := t.generation + 1)] else old(slots)
    {
      if !t.valid || t.slot < 0 || t.slot >= |slots| || t.worker < 0 || t.worker >= |workers| { return false; }
      if slots[t.slot].generation != t.generation { return false; }
      slots := slots[t.slot := slots[t.slot].(generation := t.generation + 1)];
      won := true;
    }

    /** CommitReservation and CancelReservation: the first ends the start with an instance, the
        second without; a token that is not live changes nothing. */
    method EndReservation(t: Token, commit: bool) returns (won: bool)
      requires Valid() && (t in issued || !t.valid)
      modifies `slots, `workers, `pendingStarts
      ensures Valid() && won == (t.valid && old(slots)[t.slot].generation == t.generation)
      ensures won ==> slots == old(slots)[t.slot := Slot(t.generation + 1, t.worker)] && pendingStarts == old(pendingStarts) - 1
                      && workers == old(workers)[t.worker := workers[t.worker]]
                      && workers[t.worker].instances == old(workers)[t.worker].instances + (if commit then 1 else 0)
                      && workers[t.worker].pending == old(workers)[t.worker].pending - 1
      ensures !won ==> slots == old(slots) && workers == old(workers) && pendingStarts == old(pendingStarts)
    {
      won := CompleteReservation(t);
      if !won { return; }
      ReleaseBooks(old(slots), t.slot, workers, pendingStarts, commit);
      var w := t.worker;
      workers := workers[w := Less(workers[w])];
      if commit { workers := workers[w := workers[w].(instances := workers[w].instances + 1)]; }
      pendingStarts := pendingStarts - 1;
      assert workers == old(workers)[w := Ended(old(workers)[w], commit)];
    }

    method RecordStop(workerID: int)
      requires Valid()
      modifies `workers
      ensures Valid()
      ensures var w := workerID - 1;
              workers == if 0 <= w < |old(workers)| && old(workers)[w].instances > 0
                         then old(workers)[w := old(workers)[w].(instances := old(workers)[w].instances - 1)] else old(workers)
    {
      var w := workerID - 1;
      if w < 0 || w >= |workers| || workers[w].instances == 0 { return; }
      workers := workers[w := workers[w].(instances := workers[w].instances - 1)];
    }
  }

  function Ended(w: WorkerCounts, commit: bool): WorkerCounts {
    WorkerCounts(if commit then w.instances + 1 else w.instances, Less(w).pending)
  }

  lemma UndoBooks(slots: seq<Slot>, workers: seq<WorkerCounts>, pending: nat, w: nat)
    requires BooksBut(slots, workers, pending, w) && w < |workers|
    ensures pending > 0 && workers[w].pending > 0 && Books(slots, workers[w := Less(workers[w])], pending - 1)
  {
    TallyBound(slots, Reserved());
    TallyBound(slots, ReservedFor(w));
  }

  /** A slot that becomes reserved takes over the tokens of the call. */
  lemma ReserveBooks(slots: seq<Slot>, i: nat, x: Slot, workers: seq<WorkerCounts>, pending: nat, w: nat)
    requires i < |slots| && !Odd(slots[i].generation) && Odd(x.generation) && x.worker == w && BooksBut(slots, workers, pending, w)
    ensures Books(slots[i := x], workers, pending)
  {
    TallyUpdate(slots, i, x, Reserved());
    forall j | 0 <= j < |workers| ensures workers[j].pending == Tally(slots[i := x], ReservedFor(j)) {
      TallyUpdate(slots, i, x, ReservedFor(j));
    }
  }

  /** A slot that becomes free takes one from each of its counters, which were positive. */
  lemma ReleaseBooks(slots: seq<Slot>, i: nat, workers: seq<WorkerCounts>, pending: nat, commit: bool)
    requires i < |slots| && Odd(slots[i].generation) && 0 <= slots[i].worker < |workers| && Books(slots, workers, pending)
    ensures var w := slots[i].worker;
            && pending > 0 && workers[w].pending > 0
            && Books(slots[i := slots[i].(generation := slots[i].generation + 1)], workers[w := Ended(workers[w], commit)], pending - 1)
  {
    var x := slots[i].(generation := slots[i].generation + 1);
    TallyUpdate(slots, i, x, Reserved());
    TallyBound(slots[i := x], Reserved());
    forall j | 0 <= j < |workers|
      ensures workers[j].pending == Tally(slots[i := x], ReservedFor(j)) + (if j == slots[i].worker then 1 else 0)
              && Tally(slots[i := x], ReservedFor(j)) >= 0
    {
      TallyUpdate(slots, i, x, ReservedFor(j));
      TallyBound(slots[i := x], ReservedFor(j));
    }
  }
}
