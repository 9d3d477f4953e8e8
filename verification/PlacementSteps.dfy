/** The lock-free reservations of `pkg/leaf/runtime/placement.go` as an interleaving system:
    one step is one atomic load, store, add or compare-and-swap of one call in progress. */
module PlacementSteps {

  datatype Limits = Limits(tokensTotal: nat, tokensPerWorker: nat)

  /** Even generations are free, odd ones reserved; `worker` remembers for whom. */
  datatype Slot = Slot(generation: nat, worker: int)

  datatype Token = Token(slot: int, generation: nat, worker: int, valid: bool)

  datatype WorkerCounts = WorkerCounts(instances: nat, pending: nat)

  /** The atomics; `issued` and `done` are the tokens given out and the tokens that took effect,
      and `guardHits` counts pending-counter decrements that found zero. */
  datatype Shared = Shared(
    pending: nat,
    workers: seq<WorkerCounts>,
    cursor: nat,
    slots: seq<Slot>,
    issued: seq<Token>,
    done: seq<Token>,
    guardHits: nat)

  /** Which workers a call tries: all of them in turn, or the one its scheduler picked. */
  datatype Route = Ring(start: nat, offset: nat) | Only(index: int)

  datatype Counter = Global | Pending(w: nat) | Instances(w: nat)

  /** Where a call is. `Lower` and `CasLower` are the two steps of the decrement loop. */
  datatype PC =
    | GlobalLoad(balanced: bool)
    | GlobalCas(balanced: bool, seen: nat)
    | Pick(balanced: bool)
    | TryWorker(route: Route)
    | CasWorker(route: Route, seen: nat)
    | Recheck(route: Route)
    | Claim(w: nat)
    | Scan(w: nat, start: nat, offset: nat)
    | CasSlot(w: nat, start: nat, offset: nat, seen: nat)
    | Lower(counter: Counter, next: PC)
    | CasLower(counter: Counter, seen: nat, next: PC)
    | AddInstance(w: nat, next: PC)
    | Complete(commit: bool, token: Token)
    | Finished

  /** What a step reads from telemetry, the scheduler or its caller, left open. */
  datatype Choice = Choice(ok: bool, start: nat, index: int)

  function WorkerOf(route: Route, n: nat): int {
    match route
    case Ring(start, offset) => if n == 0 then 0 else (start + offset) % n
    case Only(index) => index
  }

  /** After a worker refused: the next one, or give the global token back. */
  function GiveUp(route: Route, n: nat): PC {
    if route.Ring? && route.offset + 1 < n then TryWorker(Ring(route.start, route.offset + 1)) else Lower(Global, Finished)
  }

  function Odd(g: nat): bool { g % 2 == 1 }

  function Read(s: Shared, c: Counter): nat {
    match c
    case Global => s.pending
    case Pending(w) => if w < |s.workers| then s.workers[w].pending else 0
    case Instances(w) => if w < |s.workers| then s.workers[w].instances else 0
  }

  function Write(s: Shared, c: Counter, v: nat): Shared {
    match c
    case Global => s.(pending := v)
    case Pending(w) => if w < |s.workers| then s.(workers := s.workers[w := s.workers[w].(pending := v)]) else s
    case Instances(w) => if w < |s.workers| then s.(workers := s.workers[w := s.workers[w].(instances := v)]) else s
  }

  /** completeReservation's range checks. */
  predicate InRange(s: Shared, t: Token) {
    t.valid && 0 <= t.slot < |s.slots| && 0 <= t.worker < |s.workers|
  }

  function SlotIndex(s: Shared, start: nat, offset: nat): (i: nat)
    requires s.slots != []
    ensures i < |s.slots|
  {
    (start + offset) % |s.slots|
  }

  /** reserveGlobalStart. */
  function NextGlobal(l: Limits, s: Shared, pc: PC): (Shared, PC)
    requires pc.GlobalLoad? || pc.GlobalCas?
  {
    match pc
    case GlobalLoad(b) => if l.tokensTotal > 0 && s.pending >= l.tokensTotal then (s, Finished) else (s, GlobalCas(b, s.pending))
    case GlobalCas(b, seen) => if s.pending == seen then (s.(pending := seen + 1), Pick(b)) else (s, GlobalLoad(b))
  }

  /** Choosing a worker and reserveWorker. A refusal for ineligibility or the instance cap
      depends on telemetry and is left to the choice. */
  function NextWorker(l: Limits, s: Shared, pc: PC, c: Choice): (Shared, PC)
    requires pc.Pick? || pc.TryWorker? || pc.CasWorker? || pc.Recheck?
  {
    match pc
    case Pick(b) =>
      if b then (s, TryWorker(Ring(c.start, 0)))
      else if c.ok then (s, TryWorker(Only(c.index)))
      else (s, Lower(Global, Finished))
    case TryWorker(route) =>
      var w := WorkerOf(route, |s.workers|);
      if !(0 <= w < |s.workers|) || !c.ok then (s, GiveUp(route, |s.workers|))
      else if l.tokensPerWorker > 0 && s.workers[w].pending >= l.tokensPerWorker then (s, GiveUp(route, |s.workers|))
      else (s, CasWorker(route, s.workers[w].pending))
    case CasWorker(route, seen) =>
      var w := WorkerOf(route, |s.workers|);
      if 0 <= w < |s.workers| && s.workers[w].pending == seen then (Write(s, Pending(w), seen + 1), Recheck(route))
      else (s, TryWorker(route))
    case Recheck(route) =>
      var w := WorkerOf(route, |s.workers|);
      if w < 0 then (s, Finished)
      else if c.ok then (s, Claim(w))
      else (s, Lower(Pending(w), GiveUp(route, |s.workers|)))
  }

  /** claimReservationSlot, with the undo of a failed claim. */
  function NextSlot(s: Shared, pc: PC): (Shared, PC)
    requires (pc.Claim? || pc.Scan? || pc.CasSlot?) && s.slots != []
  {
    match pc
    case Claim(w) => (s.(cursor := s.cursor + 1), Scan(w, s.cursor % |s.slots|, 0))
    case Scan(w, start, offset) =>
      if offset >= |s.slots| then (s, Lower(Pending(w), Lower(Global, Finished)))
      else
        var g := s.slots[SlotIndex(s, start, offset)].generation;
        if Odd(g) then (s, Scan(w, start, offset + 1)) else (s, CasSlot(w, start, offset, g))
    case CasSlot(w, start, offset, seen) =>
      var i := SlotIndex(s, start, offset);
      if s.slots[i].generation == seen then
        (s.(slots := s.slots[i := Slot(seen + 1, w)], issued := s.issued + [Token(i, seen + 1, w, true)]), Finished)
      else (s, Scan(w, start, offset + 1))
  }

  /** CommitReservation and CancelReservation, decrement, and RecordStop. */
  function NextRelease(s: Shared, pc: PC): (Shared, PC)
    requires pc.Lower? || pc.CasLower? || pc.AddInstance? || pc.Complete? || pc.Finished?
  {
    match pc
    case Complete(commit, t) =>
      if InRange(s, t) && s.slots[t.slot].generation == t.generation then
        var release := Lower(Global, Finished);
        (s.(slots := s.slots[t.slot := s.slots[t.slot].(generation := t.generation + 1)], done := s.done + [t]),
         Lower(Pending(t.worker), if commit then AddInstance(t.worker, release) else release))
      else (s, Finished)
    case Lower(c, next) =>
      var v := Read(s, c);
      if v == 0 then (if c.Instances? then s else s.(guardHits := s.guardHits + 1), next) else (s, CasLower(c, v, next))
    case CasLower(c, seen, next) =>
      if Read(s, c) == seen then (Write(s, c, if seen == 0 then 0 else seen - 1), next) else (s, Lower(c, next))
    case AddInstance(w, next) => (Write(s, Instances(w), Read(s, Instances(w)) + 1), next)
    case Finished => (s, Finished)
  }

  function Next(l: Limits, s: Shared, pc: PC, c: Choice): (Shared, PC)
    requires s.slots != []
  {
    if pc.GlobalLoad? || pc.GlobalCas? then NextGlobal(l, s, pc)
    else if pc.Pick? || pc.TryWorker? || pc.CasWorker? || pc.Recheck? then NextWorker(l, s, pc, c)
    else if pc.Claim? || pc.Scan? || pc.CasSlot? then NextSlot(s, pc)
    else NextRelease(s, pc)
  }

  datatype System = System(limits: Limits, shared: Shared, calls: seq<PC>)

  datatype Call = Schedule(balanced: bool) | Commit(token: Token) | Cancel(token: Token) | RecordStop(worker: int)

  /** The first step of a call. */
  function Entry(s: Shared, call: Call): PC {
    match call
    case Schedule(b) => if b && s.workers == [] then Finished else GlobalLoad(b)
    case Commit(t) => Complete(true, t)
    case Cancel(t) => Complete(false, t)
    case RecordStop(w) => if 0 <= w < |s.workers| then Lower(Instances(w), Finished) else Finished
  }

  datatype Op = Begin(call: Call) | Run(k: nat, choice: Choice)

  /** Tokens come from a reservation, copied any number of times, or are the invalid zero value. */
  predicate Enabled(s: System, op: Op) {
    match op
    case Begin(Commit(t)) => t in s.shared.issued || !t.valid
    case Begin(Cancel(t)) => t in s.shared.issued || !t.valid
    case Begin(_) => true
    case Run(k, _) => k < |s.calls|
  }

  function Apply(s: System, op: Op): System
    requires Enabled(s, op) && s.shared.slots != []
  {
    match op
    case Begin(call) => s.(calls := s.calls + [Entry(s.shared, call)])
    case Run(k, choice) =>
      var (shared, pc) := Next(s.limits, s.shared, s.calls[k], choice);
      s.(shared := shared, calls := s.calls[k := pc])
  }

  /** NewPlacementState. */
  function Start(n: nat, limits: Limits): (s: System)
    ensures s.shared.slots != []
  {
    var slots := if limits.tokensTotal > 0 then limits.tokensTotal else n * 64;
    var count := if slots < 1 then 1 else slots;
    System(limits, Shared(0, seq(n, _ => WorkerCounts(0, 0)), 0, seq(count, _ => Slot(0, 0)), [], [], 0), [])
  }
}
