/** What the calls of placement do when nothing comes in between: the atomic steps of one call, run to
    their end, make the change that the call promises. */
module PlacementAlone {
  import opened PlacementSteps
  import opened Rotation

  /** A call after `n` of its steps, with the same choice in each and no other call's steps between. */
  function Alone(l: Limits, s: Shared, pc: PC, c: Choice, n: nat): (Shared, PC)
    requires s.slots != []
    decreases n
  {
    if n == 0 then (s, pc)
    else
      var (s1, pc1) := Next(l, s, pc, c);
      Alone(l, s1, pc1, c, n - 1)
  }

  /** The call runs to its end and leaves `s'`. */
  ghost predicate Ends(l: Limits, s: Shared, pc: PC, c: Choice, s': Shared) {
    s.slots != [] && exists n: nat :: Alone(l, s, pc, c, n) == (s', Finished)
  }

  lemma EndsNow(l: Limits, s: Shared, c: Choice)
    requires s.slots != []
    ensures Ends(l, s, Finished, c, s)
  {
    assert Alone(l, s, Finished, c, 0) == (s, Finished);
  }

  lemma EndsAfter(l: Limits, s: Shared, pc: PC, c: Choice, s1: Shared, pc1: PC, s': Shared)
    requires s.slots != [] && Next(l, s, pc, c) == (s1, pc1) && Ends(l, s1, pc1, c, s')
    ensures Ends(l, s, pc, c, s')
  {
    var n: nat :| Alone(l, s1, pc1, c, n) == (s', Finished);
    assert Alone(l, s, pc, c, n + 1) == (s', Finished);
  }

  // ------------------------------------------------------------------- release

  /** The decrement loop takes one off a positive counter and goes on. */
  lemma LowerAlone(l: Limits, s: Shared, counter: Counter, next: PC, c: Choice, s1: Shared, s': Shared)
    requires s.slots != [] && Read(s, counter) > 0 && s1 == Write(s, counter, Read(s, counter) - 1) && Ends(l, s1, next, c, s')
    ensures Ends(l, s, Lower(counter, next), c, s')
  {
    EndsAfter(l, s, CasLower(counter, Read(s, counter), next), c, s1, next, s');
    EndsAfter(l, s, Lower(counter, next), c, s, CasLower(counter, Read(s, counter), next), s');
  }

  /** One pending start less in total and on worker `w`, with so many instances more there. */
  function Released(s: Shared, w: nat, more: nat): Shared
    requires w < |s.workers| && s.workers[w].pending > 0 && s.pending > 0
  {
    s.(pending := s.pending - 1, workers := s.workers[w := WorkerCounts(s.workers[w].instances + more, s.workers[w].pending - 1)])
  }

  lemma ReleaseAlone(l: Limits, s: Shared, w: nat, c: Choice)
    requires s.slots != [] && w < |s.workers| && s.workers[w].pending > 0 && s.pending > 0
    ensures Ends(l, s, Lower(Pending(w), Lower(Global, Finished)), c, Released(s, w, 0))
    ensures Ends(l, s, Lower(Pending(w), AddInstance(w, Lower(Global, Finished))), c, Released(s, w, 1))
  {
    var x := s.workers[w];
    var s1 := s.(workers := s.workers[w := WorkerCounts(x.instances, x.pending - 1)]);
    var s2 := s.(workers := s.workers[w := WorkerCounts(x.instances + 1, x.pending - 1)]);
    EndsNow(l, Released(s, w, 0), c);
    LowerAlone(l, s1, Global, Finished, c, Released(s, w, 0), Released(s, w, 0));
    LowerAlone(l, s, Pending(w), Lower(Global, Finished), c, s1, Released(s, w, 0));
    EndsNow(l, Released(s, w, 1), c);
    LowerAlone(l, s2, Global, Finished, c, Released(s, w, 1), Released(s, w, 1));
    assert s1.workers[w := WorkerCounts(x.instances + 1, x.pending - 1)] == s2.workers;
    EndsAfter(l, s1, AddInstance(w, Lower(Global, Finished)), c, s2, Lower(Global, Finished), Released(s, w, 1));
    LowerAlone(l, s, Pending(w), AddInstance(w, Lower(Global, Finished)), c, s1, Released(s, w, 1));
  }

  /** A commit or a cancel of the token a slot was last reserved with frees the slot and gives one pending
      start back in total and on its worker; a commit adds an instance there. */
  lemma CompleteAlone(l: Limits, s: Shared, commit: bool, t: Token, c: Choice)
    requires t.valid && 0 <= t.slot < |s.slots| && 0 <= t.worker < |s.workers| && s.slots[t.slot].generation == t.generation
    requires s.pending > 0 && s.workers[t.worker].pending > 0
    ensures var w := s.workers[t.worker];
            Ends(l, s, Entry(s, if commit then Commit(t) else Cancel(t)), c,
                 s.(pending := s.pending - 1, done := s.done + [t],
                    slots := s.slots[t.slot := Slot(t.generation + 1, s.slots[t.slot].worker)],
                    workers := s.workers[t.worker := WorkerCounts(w.instances + if commit then 1 else 0, w.pending - 1)]))
  {
    var s1 := s.(slots := s.slots[t.slot := Slot(t.generation + 1, s.slots[t.slot].worker)], done := s.done + [t]);
    var release := Lower(Global, Finished);
    ReleaseAlone(l, s1, t.worker, c);
    EndsAfter(l, s, Complete(commit, t), c, s1, Lower(Pending(t.worker), if commit then AddInstance(t.worker, release) else release),
              Released(s1, t.worker, if commit then 1 else 0));
  }

  /** With any other token it changes nothing. */
  lemma StaleAlone(l: Limits, s: Shared, commit: bool, t: Token, c: Choice)
    requires s.slots != []
    requires !(t.valid && 0 <= t.slot < |s.slots| && 0 <= t.worker < |s.workers| && s.slots[t.slot].generation == t.generation)
    ensures Ends(l, s, Entry(s, if commit then Commit(t) else Cancel(t)), c, s)
  {
    EndsNow(l, s, c);
    EndsAfter(l, s, Complete(commit, t), c, s, Finished, s);
  }

  /** RecordStop takes one off a worker's instances if there is one. */
  lemma RecordStopAlone(l: Limits, s: Shared, w: int, c: Choice)
    requires s.slots != []
    ensures if 0 <= w < |s.workers| && s.workers[w].instances > 0
            then Ends(l, s, Entry(s, RecordStop(w)), c, s.(workers := s.workers[w := s.workers[w].(instances := s.workers[w].instances - 1)]))
            else Ends(l, s, Entry(s, RecordStop(w)), c, s)
  {
    EndsNow(l, s, c);
    if 0 <= w < |s.workers| && s.workers[w].instances > 0 {
      var s' := s.(workers := s.workers[w := s.workers[w].(instances := s.workers[w].instances - 1)]);
      EndsNow(l, s', c);
      LowerAlone(l, s, Instances(w), Finished, c, s', s');
    } else if 0 <= w < |s.workers| {
      EndsAfter(l, s, Lower(Instances(w), Finished), c, s, Finished, s);
    }
  }

  // --------------------------------------------------------------------- slots

  ghost predicate Taken(s: Shared, start: nat, lo: nat, hi: nat)
    requires s.slots != []
  {
    forall k :: lo <= k < hi ==> Odd(s.slots[SlotIndex(s, start, k)].generation)
  }

  function Claimed(s: Shared, w: nat, i: nat): Shared
    requires i < |s.slots|
  {
    var g := s.slots[i].generation + 1;
    s.(slots := s.slots[i := Slot(g, w)], issued := s.issued + [Token(i, g, w, true)])
  }

  /** The scan takes the slot at offset `d`, the first free one. */
  lemma {:induction false} ScanAlone(l: Limits, s: Shared, w: nat, start: nat, offset: nat, d: nat, c: Choice)
    requires s.slots != [] && offset <= d < |s.slots| && Taken(s, start, offset, d)
    requires !Odd(s.slots[SlotIndex(s, start, d)].generation)
    ensures Ends(l, s, Scan(w, start, offset), c, Claimed(s, w, SlotIndex(s, start, d)))
    decreases d - offset
  {
    var s' := Claimed(s, w, SlotIndex(s, start, d));
    if offset == d {
      var g := s.slots[SlotIndex(s, start, d)].generation;
      EndsNow(l, s', c);
      EndsAfter(l, s, CasSlot(w, start, offset, g), c, s', Finished, s');
      EndsAfter(l, s, Scan(w, start, offset), c, s, CasSlot(w, start, offset, g), s');
    } else {
      ScanAlone(l, s, w, start, offset + 1, d, c);
      EndsAfter(l, s, Scan(w, start, offset), c, s, Scan(w, start, offset + 1), s');
    }
  }

  /** With no slot free it gives both tokens back. */
  lemma {:induction false} ScanFullAlone(l: Limits, s: Shared, w: nat, start: nat, offset: nat, c: Choice)
    requires s.slots != [] && offset <= |s.slots| && Taken(s, start, offset, |s.slots|)
    requires w < |s.workers| && s.workers[w].pending > 0 && s.pending > 0
    ensures Ends(l, s, Scan(w, start, offset), c, Released(s, w, 0))
    decreases |s.slots| - offset
  {
    if offset == |s.slots| {
      ReleaseAlone(l, s, w, c);
      EndsAfter(l, s, Scan(w, start, offset), c, s, Lower(Pending(w), Lower(Global, Finished)), Released(s, w, 0));
    } else {
      ScanFullAlone(l, s, w, start, offset + 1, c);
      EndsAfter(l, s, Scan(w, start, offset), c, s, Scan(w, start, offset + 1), Released(s, w, 0));
    }
  }

  // ------------------------------------------------------------------- workers

  /** No worker, or one at its limit of pending starts. */
  predicate Refuses(l: Limits, s: Shared, w: int) {
    !(0 <= w < |s.workers|) || (l.tokensPerWorker > 0 && s.workers[w].pending >= l.tokensPerWorker)
  }

  /** Every worker from this place of the route on refuses. */
  ghost predicate AllRefuse(l: Limits, s: Shared, route: Route) {
    if route.Ring? then forall k :: route.offset <= k < |s.workers| ==> Refuses(l, s, Turn(route.start, k, |s.workers|))
    else Refuses(l, s, route.index)
  }

  /** A route along which every worker refuses, or telemetry refuses them all, gives the global token back. */
  lemma {:induction false} RefusedAlone(l: Limits, s: Shared, route: Route, c: Choice)
    requires s.slots != [] && s.pending > 0 && (!c.ok || AllRefuse(l, s, route)) && (route.Ring? ==> route.offset < |s.workers|)
    ensures Ends(l, s, TryWorker(route), c, s.(pending := s.pending - 1))
    decreases if route.Ring? then |s.workers| - route.offset else 0
  {
    var s' := s.(pending := s.pending - 1);
    var on := GiveUp(route, |s.workers|);
    if on.TryWorker? {
      RefusedAlone(l, s, on.route, c);
    } else {
      EndsNow(l, s', c);
      LowerAlone(l, s, Global, Finished, c, s', s');
    }
    assert route.Ring? ==> WorkerOf(route, |s.workers|) == Turn(route.start, route.offset, |s.workers|);
    EndsAfter(l, s, TryWorker(route), c, s, on, s');
  }

  function Started(s: Shared, w: nat): Shared
    requires w < |s.workers|
  {
    s.(workers := s.workers[w := WorkerCounts(s.workers[w].instances, s.workers[w].pending + 1)], cursor := s.cursor + 1)
  }

  /** A worker that does not refuse gets the start, and a slot is looked for. */
  lemma AcceptedAlone(l: Limits, s: Shared, route: Route, w: nat, c: Choice, s': Shared)
    requires s.slots != [] && c.ok && WorkerOf(route, |s.workers|) == w && w < |s.workers| && !Refuses(l, s, w)
    requires Ends(l, Started(s, w), Scan(w, s.cursor % |s.slots|, 0), c, s')
    ensures Ends(l, s, TryWorker(route), c, s')
  {
    var s1 := s.(workers := s.workers[w := WorkerCounts(s.workers[w].instances, s.workers[w].pending + 1)]);
    EndsAfter(l, s1, Claim(w), c, Started(s, w), Scan(w, s.cursor % |s.slots|, 0), s');
    EndsAfter(l, s1, Recheck(route), c, s1, Claim(w), s');
    EndsAfter(l, s, CasWorker(route, s.workers[w].pending), c, s1, Recheck(route), s');
    EndsAfter(l, s, TryWorker(route), c, s, CasWorker(route, s.workers[w].pending), s');
  }

  /** The walk round the workers stops at the first that does not refuse, `last`. */
  lemma {:induction false} RingAlone(l: Limits, s: Shared, start: nat, first: nat, last: nat, c: Choice, s': Shared)
    requires s.slots != [] && c.ok && first <= last < |s.workers|
    requires forall k :: first <= k < last ==> Refuses(l, s, Turn(start, k, |s.workers|))
    requires Ends(l, s, TryWorker(Ring(start, last)), c, s')
    ensures Ends(l, s, TryWorker(Ring(start, first)), c, s')
    decreases last - first
  {
    if first == last {
    } else {
      RingAlone(l, s, start, first + 1, last, c, s');
      assert WorkerOf(Ring(start, first), |s.workers|) == Turn(start, first, |s.workers|);
      EndsAfter(l, s, TryWorker(Ring(start, first)), c, s, TryWorker(Ring(start, first + 1)), s');
    }
  }

  // ------------------------------------------------------------------ schedule

  /** The first step of the route: the ring from the picked place, or the picked worker alone. */
  function RouteOf(balanced: bool, c: Choice): Route { if balanced then Ring(c.start, 0) else Only(c.index) }

  /** The global token is taken first. */
  lemma GlobalAlone(l: Limits, s: Shared, balanced: bool, c: Choice, s': Shared)
    requires s.slots != [] && (balanced ==> s.workers != []) && (l.tokensTotal > 0 ==> s.pending < l.tokensTotal) && (balanced || c.ok)
    requires Ends(l, s.(pending := s.pending + 1), TryWorker(RouteOf(balanced, c)), c, s')
    ensures Ends(l, s, Entry(s, Schedule(balanced)), c, s')
  {
    var s1 := s.(pending := s.pending + 1);
    EndsAfter(l, s1, Pick(balanced), c, s1, TryWorker(RouteOf(balanced, c)), s');
    EndsAfter(l, s, GlobalCas(balanced, s.pending), c, s1, Pick(balanced), s');
    EndsAfter(l, s, GlobalLoad(balanced), c, s, GlobalCas(balanced, s.pending), s');
  }

  /** Without a global token, without workers, or refused by all of them, a call leaves no trace. */
  lemma NoReservationAlone(l: Limits, s: Shared, balanced: bool, c: Choice)
    requires s.slots != []
    requires || (balanced && s.workers == []) || (l.tokensTotal > 0 && s.pending >= l.tokensTotal)
             || !c.ok || AllRefuse(l, s, RouteOf(balanced, c))
    ensures Ends(l, s, Entry(s, Schedule(balanced)), c, s)
  {
    EndsNow(l, s, c);
    var s1 := s.(pending := s.pending + 1);
    if balanced && s.workers == [] {
    } else if l.tokensTotal > 0 && s.pending >= l.tokensTotal {
      EndsAfter(l, s, GlobalLoad(balanced), c, s, Finished, s);
    } else if !balanced && !c.ok {
      LowerAlone(l, s1, Global, Finished, c, s, s);
      EndsAfter(l, s1, Pick(balanced), c, s1, Lower(Global, Finished), s);
      EndsAfter(l, s, GlobalCas(balanced, s.pending), c, s1, Pick(balanced), s);
      EndsAfter(l, s, GlobalLoad(balanced), c, s, GlobalCas(balanced, s.pending), s);
    } else {
      RefusedAlone(l, s1, RouteOf(balanced, c), c);
      GlobalAlone(l, s, balanced, c, s);
    }
  }

  /** The slot `d` places on from the cursor, round the end. */
  lemma SlotOnWalk(s: Shared, k: nat)
    requires k < |s.slots|
    ensures var n, p := |s.slots|, s.cursor % |s.slots|;
            SlotIndex(s, p, k) == (if p + k < n then p + k else p + k - n) && (s.slots[p..] + s.slots[..p])[k] == s.slots[SlotIndex(s, p, k)]
  {
    TurnFrom(0, s.cursor % |s.slots|, k, |s.slots|);
  }

  /** A call that finds a global token, a worker `w` that accepts, the first on its route, and a free slot, the
      first from the cursor on, `d` places away, reserves just these. */
  lemma ReservationAlone(l: Limits, s: Shared, balanced: bool, c: Choice, o: nat, w: nat, d: nat)
    requires c.ok && w < |s.workers| && (l.tokensTotal > 0 ==> s.pending < l.tokensTotal)
    requires l.tokensPerWorker > 0 ==> s.workers[w].pending < l.tokensPerWorker
    requires if balanced then o < |s.workers| && Turn(c.start, o, |s.workers|) == w else c.index == w
    requires balanced ==> forall k :: 0 <= k < o ==> Refuses(l, s, Turn(c.start, k, |s.workers|))
    requires d < |s.slots| && var walk := s.slots[s.cursor % |s.slots|..] + s.slots[..s.cursor % |s.slots|];
             walk[d].generation % 2 == 0 && forall k :: 0 <= k < d ==> walk[k].generation % 2 == 1
    ensures var n, p := |s.slots|, s.cursor % |s.slots|;
            var i := if p + d < n then p + d else p + d - n;
            var g := s.slots[i].generation + 1;
            Ends(l, s, Entry(s, Schedule(balanced)), c,
                 s.(pending := s.pending + 1, cursor := s.cursor + 1,
                    workers := s.workers[w := WorkerCounts(s.workers[w].instances, s.workers[w].pending + 1)],
                    slots := s.slots[i := Slot(g, w)], issued := s.issued + [Token(i, g, w, true)]))
  {
    var p, s1 := s.cursor % |s.slots|, s.(pending := s.pending + 1);
    var s2 := Started(s1, w);
    SlotOnWalk(s, d);
    forall k | 0 <= k < d ensures Odd(s2.slots[SlotIndex(s2, p, k)].generation) { SlotOnWalk(s, k); }
    ScanAlone(l, s2, w, p, 0, d, c);
    var s' := Claimed(s2, w, SlotIndex(s2, p, d));
    var route := if balanced then Ring(c.start, o) else Only(c.index);
    AcceptedAlone(l, s1, route, w, c, s');
    if balanced { RingAlone(l, s1, c.start, 0, o, c, s'); }
    GlobalAlone(l, s, balanced, c, s');
  }

  /** And with every slot taken it moves the cursor on and nothing else. */
  lemma FullAlone(l: Limits, s: Shared, balanced: bool, c: Choice, o: nat, w: nat)
    requires s.slots != [] && c.ok && w < |s.workers| && (l.tokensTotal > 0 ==> s.pending < l.tokensTotal)
    requires l.tokensPerWorker > 0 ==> s.workers[w].pending < l.tokensPerWorker
    requires if balanced then o < |s.workers| && Turn(c.start, o, |s.workers|) == w else c.index == w
    requires balanced ==> forall k :: 0 <= k < o ==> Refuses(l, s, Turn(c.start, k, |s.workers|))
    requires forall i :: 0 <= i < |s.slots| ==> s.slots[i].generation % 2 == 1
    ensures Ends(l, s, Entry(s, Schedule(balanced)), c, s.(cursor := s.cursor + 1))
  {
    var p, s1 := s.cursor % |s.slots|, s.(pending := s.pending + 1);
    ScanFullAlone(l, Started(s1, w), w, p, 0, c);
    var s' := Released(Started(s1, w), w, 0);
    assert s'.workers == s.workers;
    var route := if balanced then Ring(c.start, o) else Only(c.index);
    AcceptedAlone(l, s1, route, w, c, s');
    if balanced { RingAlone(l, s1, c.start, 0, o, c, s'); }
    GlobalAlone(l, s, balanced, c, s');
  }
}
