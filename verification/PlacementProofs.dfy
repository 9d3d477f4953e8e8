/** Counters are token holders, under every interleaving of atomic steps. */
module PlacementProofs {
  import opened Tallies
  import opened PlacementSteps

  // ------------------------------------------------------------------- holders

  /** How many global tokens a call in progress holds. */
  function GlobalHold(pc: PC): int {
    match pc
    case GlobalLoad(_) => 0
    case GlobalCas(_, _) => 0
    case Lower(c, next) => (if c.Global? then 1 else 0) + GlobalHold(next)
    case CasLower(c, _, next) => (if c.Global? then 1 else 0) + GlobalHold(next)
    case AddInstance(_, next) => GlobalHold(next)
    case Complete(_, _) => 0
    case Finished => 0
    case _ => 1
  }

  /** How many tokens of worker `w` out of `n` a call in progress holds. */
  function WorkerHold(pc: PC, n: nat, w: nat): int {
    match pc
    case Recheck(route) => if WorkerOf(route, n) == w then 1 else 0
    case Claim(x) => if x == w then 1 else 0
    case Scan(x, _, _) => if x == w then 1 else 0
    case CasSlot(x, _, _, _) => if x == w then 1 else 0
    case Lower(c, next) => (if c == Pending(w) then 1 else 0) + WorkerHold(next, n, w)
    case CasLower(c, _, next) => (if c == Pending(w) then 1 else 0) + WorkerHold(next, n, w)
    case AddInstance(_, next) => WorkerHold(next, n, w)
    case _ => 0
  }

  function Holding(): PC -> int { (pc: PC) => GlobalHold(pc) }
  function HoldingWorker(n: nat, w: nat): PC -> int { (pc: PC) => WorkerHold(pc, n, w) }
  function Reserved(): Slot -> int { (x: Slot) => if Odd(x.generation) then 1 else 0 }
  function ReservedFor(w: nat): Slot -> int { (x: Slot) => if Odd(x.generation) && x.worker == w then 1 else 0 }

  /** Global tokens are held by calls in progress and by live reservations; so are worker tokens. */
  ghost predicate Counted(s: Shared, calls: seq<PC>) {
    && s.pending == Tally(calls, Holding()) + Tally(s.slots, Reserved())
    && forall w :: 0 <= w < |s.workers| ==>
         s.workers[w].pending == Tally(calls, HoldingWorker(|s.workers|, w)) + Tally(s.slots, ReservedFor(w))
  }

  lemma {:induction false} HoldSigned(pc: PC, n: nat, w: nat)
    ensures GlobalHold(pc) >= 0 && WorkerHold(pc, n, w) >= 0
  {
    if pc.Lower? || pc.CasLower? || pc.AddInstance? { HoldSigned(pc.next, n, w); }
  }

  /** A counter is at least what any one call holds, and at least the live reservations. */
  ghost predicate Covers(s: Shared, pc: PC) {
    s.pending >= GlobalHold(pc) && forall w :: 0 <= w < |s.workers| ==> s.workers[w].pending >= WorkerHold(pc, |s.workers|, w)
  }

  lemma CallIsCovered(s: Shared, calls: seq<PC>, k: nat)
    requires Counted(s, calls) && k < |calls|
    ensures Covers(s, calls[k])
  {
    forall j | 0 <= j < |calls| ensures Holding()(calls[j]) >= 0 { HoldSigned(calls[j], 0, 0); }
    TallyBound(calls, Holding());
    TallyBound(s.slots, Reserved());
    assert Holding()(calls[k]) == GlobalHold(calls[k]);
    forall w | 0 <= w < |s.workers| ensures s.workers[w].pending >= WorkerHold(calls[k], |s.workers|, w) {
      forall j | 0 <= j < |calls| ensures HoldingWorker(|s.workers|, w)(calls[j]) >= 0 { HoldSigned(calls[j], |s.workers|, w); }
      TallyBound(calls, HoldingWorker(|s.workers|, w));
      TallyBound(s.slots, ReservedFor(w));
      assert HoldingWorker(|s.workers|, w)(calls[k]) == WorkerHold(calls[k], |s.workers|, w);
    }
  }

  // --------------------------------------------------------------------- calls

  ghost predicate CounterOk(c: Counter, n: nat) { c.Global? || c.w < n }

  /** What a call knows between its steps. */
  ghost predicate CallOk(l: Limits, n: nat, issued: seq<Token>, pc: PC) {
    match pc
    case GlobalCas(_, seen) => l.tokensTotal > 0 ==> seen < l.tokensTotal
    case CasWorker(route, seen) => 0 <= WorkerOf(route, n) < n && (l.tokensPerWorker > 0 ==> seen < l.tokensPerWorker)
    case Recheck(route) => 0 <= WorkerOf(route, n) < n
    case Claim(w) => w < n
    case Scan(w, _, _) => w < n
    case CasSlot(w, _, _, seen) => w < n && !Odd(seen)
    case Lower(c, next) => CounterOk(c, n) && CallOk(l, n, issued, next)
    case CasLower(c, seen, next) => CounterOk(c, n) && seen > 0 && CallOk(l, n, issued, next)
    case AddInstance(w, next) => w < n && CallOk(l, n, issued, next)
    case Complete(_, t) => t in issued || !t.valid
    case _ => true
  }

  lemma {:induction false} CallOkGrows(l: Limits, n: nat, issued: seq<Token>, issued': seq<Token>, pc: PC)
    requires CallOk(l, n, issued, pc) && issued <= issued'
    ensures CallOk(l, n, issued', pc)
  {
    if pc.Lower? || pc.CasLower? || pc.AddInstance? { CallOkGrows(l, n, issued, issued', pc.next); }
  }

  // -------------------------------------------------------------------- tokens

  ghost predicate SameReservation(a: Token, b: Token) { a.slot == b.slot && a.generation == b.generation }

  /** A token of an odd generation its slot has reached; while it is live the slot remembers its worker. */
  ghost predicate TokenOk(slots: seq<Slot>, n: nat, t: Token) {
    && t.valid && 0 <= t.slot < |slots| && 0 <= t.worker < n && Odd(t.generation) && t.generation <= slots[t.slot].generation
    && (t.generation == slots[t.slot].generation ==> t.worker == slots[t.slot].worker)
  }

  ghost predicate Distinct(ts: seq<Token>) {
    forall i, j :: 0 <= i < j < |ts| ==> !SameReservation(ts[i], ts[j])
  }

  ghost predicate TokensOk(s: Shared) {
    && (forall t :: t in s.issued ==> TokenOk(s.slots, |s.workers|, t))
    && (forall t :: t in s.done ==> t in s.issued && t.generation < s.slots[t.slot].generation)
    && Distinct(s.issued) && Distinct(s.done)
  }

  ghost predicate Bounded(l: Limits, s: Shared) {
    && (l.tokensTotal > 0 ==> s.pending <= l.tokensTotal)
    && (l.tokensPerWorker > 0 ==> forall w :: 0 <= w < |s.workers| ==> s.workers[w].pending <= l.tokensPerWorker)
    && s.guardHits == 0
  }

  ghost predicate SystemInv(s: System) {
    && s.shared.slots != [] && Counted(s.shared, s.calls) && TokensOk(s.shared) && Bounded(s.limits, s.shared)
    && forall k :: 0 <= k < |s.calls| ==> CallOk(s.limits, |s.shared.workers|, s.shared.issued, s.calls[k])
  }

  // --------------------------------------------------------------------- steps

  /** One step moves each counter exactly as it moves the tokens of the call and of the slots. */
  ghost predicate Moves(s: Shared, pc: PC, s': Shared, pc': PC) {
    && |s'.workers| == |s.workers| && |s'.slots| == |s.slots| && s.issued <= s'.issued
    && s'.pending - s.pending == GlobalHold(pc') - GlobalHold(pc) + Tally(s'.slots, Reserved()) - Tally(s.slots, Reserved())
    && forall w :: 0 <= w < |s.workers| ==>
         s'.workers[w].pending - s.workers[w].pending
           == WorkerHold(pc', |s.workers|, w) - WorkerHold(pc, |s.workers|, w)
              + Tally(s'.slots, ReservedFor(w)) - Tally(s.slots, ReservedFor(w))
  }

  ghost predicate GoodStep(l: Limits, s: Shared, pc: PC, s': Shared, pc': PC) {
    Moves(s, pc, s', pc') && TokensOk(s') && Bounded(l, s') && CallOk(l, |s.workers|, s'.issued, pc')
  }

  ghost predicate Ready(l: Limits, s: Shared, pc: PC) {
    s.slots != [] && TokensOk(s) && Bounded(l, s) && Covers(s, pc) && CallOk(l, |s.workers|, s.issued, pc)
  }

  lemma GivingUp(l: Limits, n: nat, issued: seq<Token>, route: Route)
    ensures GlobalHold(GiveUp(route, n)) == 1 && CallOk(l, n, issued, GiveUp(route, n))
    ensures forall w :: WorkerHold(GiveUp(route, n), n, w) == 0
  {
  }

  lemma CasWorkerStep(l: Limits, s: Shared, pc: PC, c: Choice)
    requires Ready(l, s, pc) && pc.CasWorker?
    ensures GoodStep(l, s, pc, NextWorker(l, s, pc, c).0, NextWorker(l, s, pc, c).1)
  {
  }

  lemma RecheckStep(l: Limits, s: Shared, pc: PC, c: Choice)
    requires Ready(l, s, pc) && pc.Recheck?
    ensures GoodStep(l, s, pc, NextWorker(l, s, pc, c).0, NextWorker(l, s, pc, c).1)
  {
    GivingUp(l, |s.workers|, s.issued, pc.route);
  }

  lemma ScanStep(l: Limits, s: Shared, pc: PC)
    requires Ready(l, s, pc) && (pc.Claim? || pc.Scan?)
    ensures GoodStep(l, s, pc, NextSlot(s, pc).0, NextSlot(s, pc).1)
  {
    GivingUp(l, |s.workers|, s.issued, Only(0));
  }

  lemma CasSlotStep(l: Limits, s: Shared, pc: PC)
    requires Ready(l, s, pc) && pc.CasSlot?
    ensures GoodStep(l, s, pc, NextSlot(s, pc).0, NextSlot(s, pc).1)
  {
    var i := SlotIndex(s, pc.start, pc.offset);
    if s.slots[i].generation == pc.seen {
      var x := Slot(pc.seen + 1, pc.w);
      Exchange(s, pc, NextSlot(s, pc).0, Finished, i, x);
      IssueOk(s, i, x, Token(i, pc.seen + 1, pc.w, true));
    } else {
    }
  }

  /** What a slot gains the call gives up, and the other way round. */
  lemma Exchange(s: Shared, pc: PC, s': Shared, pc': PC, i: nat, x: Slot)
    requires i < |s.slots| && s'.slots == s.slots[i := x] && s'.pending == s.pending && s'.workers == s.workers && s.issued <= s'.issued
    requires GlobalHold(pc) - GlobalHold(pc') == Reserved()(x) - Reserved()(s.slots[i])
    requires forall w :: 0 <= w < |s.workers| ==>
      WorkerHold(pc, |s.workers|, w) - WorkerHold(pc', |s.workers|, w) == ReservedFor(w)(x) - ReservedFor(w)(s.slots[i])
    ensures Moves(s, pc, s', pc')
  {
    TallyUpdate(s.slots, i, x, Reserved());
    forall w | 0 <= w < |s.workers|
      ensures Tally(s'.slots, ReservedFor(w)) == Tally(s.slots, ReservedFor(w)) - ReservedFor(w)(s.slots[i]) + ReservedFor(w)(x)
    {
      TallyUpdate(s.slots, i, x, ReservedFor(w));
    }
  }

  /** A fresh reservation is unlike every token issued before. */
  lemma IssueOk(s: Shared, i: nat, x: Slot, t: Token)
    requires TokensOk(s) && i < |s.slots| && !Odd(s.slots[i].generation) && x.generation == s.slots[i].generation + 1
    requires 0 <= x.worker < |s.workers| && t == Token(i, x.generation, x.worker, true)
    ensures TokensOk(s.(slots := s.slots[i := x], issued := s.issued + [t]))
  {
    forall k | 0 <= k < |s.issued| ensures !SameReservation(s.issued[k], t) {
      assert s.issued[k] in s.issued;
    }
  }

  /** A token takes effect only while its slot still has its generation, hence only once. */
  lemma EffectOk(s: Shared, t: Token)
    requires TokensOk(s) && t in s.issued && s.slots[t.slot].generation == t.generation
    ensures TokensOk(s.(slots := s.slots[t.slot := s.slots[t.slot].(generation := t.generation + 1)], done := s.done + [t]))
  {
  }

  lemma CompleteStep(l: Limits, s: Shared, pc: PC)
    requires Ready(l, s, pc) && pc.Complete?
    ensures GoodStep(l, s, pc, NextRelease(s, pc).0, NextRelease(s, pc).1)
  {
    var t := pc.token;
    if InRange(s, t) && s.slots[t.slot].generation == t.generation {
      assert TokenOk(s.slots, |s.workers|, t);
      EffectOk(s, t);
      CompletedHold(l, |s.workers|, s.issued, pc.commit, t.worker);
      var (s', pc') := NextRelease(s, pc);
      Exchange(s, pc, s', pc', t.slot, s.slots[t.slot].(generation := t.generation + 1));
    } else {
    }
  }

  /** The winner of the slot owes both counters. */
  lemma CompletedHold(l: Limits, n: nat, issued: seq<Token>, commit: bool, x: nat)
    requires x < n
    ensures var release := Lower(Global, Finished);
            var pc := Lower(Pending(x), if commit then AddInstance(x, release) else release);
            && GlobalHold(pc) == 1 && CallOk(l, n, issued, pc)
            && forall w :: WorkerHold(pc, n, w) == if w == x then 1 else 0
  {
    GivingUp(l, n, issued, Only(0));
    var release := Lower(Global, Finished);
    assert GlobalHold(AddInstance(x, release)) == 1 && CallOk(l, n, issued, AddInstance(x, release));
    assert forall w :: WorkerHold(AddInstance(x, release), n, w) == 0;
  }

  lemma LowerStep(l: Limits, s: Shared, pc: PC)
    requires Ready(l, s, pc) && pc.Lower?
    ensures GoodStep(l, s, pc, NextRelease(s, pc).0, NextRelease(s, pc).1)
  {
    HoldSigned(pc.next, |s.workers|, if pc.counter.Global? then 0 else pc.counter.w);
  }

  lemma CasLowerStep(l: Limits, s: Shared, pc: PC)
    requires Ready(l, s, pc) && pc.CasLower?
    ensures GoodStep(l, s, pc, NextRelease(s, pc).0, NextRelease(s, pc).1)
  {
  }

  lemma AddInstanceStep(l: Limits, s: Shared, pc: PC)
    requires Ready(l, s, pc) && pc.AddInstance?
    ensures GoodStep(l, s, pc, NextRelease(s, pc).0, NextRelease(s, pc).1)
  {
  }

  lemma NextOk(l: Limits, s: Shared, pc: PC, c: Choice)
    requires Ready(l, s, pc)
    ensures GoodStep(l, s, pc, Next(l, s, pc, c).0, Next(l, s, pc, c).1)
  {
    match pc
    case GlobalLoad(_) =>
    case GlobalCas(_, _) =>
    case Pick(_) =>
    case TryWorker(_) =>
    case CasWorker(_, _) => CasWorkerStep(l, s, pc, c);
    case Recheck(_) => RecheckStep(l, s, pc, c);
    case Claim(_) => ScanStep(l, s, pc);
    case Scan(_, _, _) => ScanStep(l, s, pc);
    case CasSlot(_, _, _, _) => CasSlotStep(l, s, pc);
    case Lower(_, _) => LowerStep(l, s, pc);
    case CasLower(_, _, _) => CasLowerStep(l, s, pc);
    case AddInstance(_, _) => AddInstanceStep(l, s, pc);
    case Complete(_, _) => CompleteStep(l, s, pc);
    case Finished =>
  }

  /** The books still balance after one call has moved. */
  lemma MoveCounted(s: Shared, calls: seq<PC>, k: nat, s': Shared, pc': PC)
    requires Counted(s, calls) && k < |calls| && Moves(s, calls[k], s', pc')
    ensures Counted(s', calls[k := pc'])
  {
    TallyUpdate(calls, k, pc', Holding());
    forall w | 0 <= w < |s.workers|
      ensures s'.workers[w].pending == Tally(calls[k := pc'], HoldingWorker(|s.workers|, w)) + Tally(s'.slots, ReservedFor(w))
    {
      TallyUpdate(calls, k, pc', HoldingWorker(|s.workers|, w));
    }
  }

  lemma RunStepInv(s: System, k: nat, c: Choice)
    requires SystemInv(s) && k < |s.calls|
    ensures SystemInv(Apply(s, Run(k, c)))
  {
    var (shared, pc) := Next(s.limits, s.shared, s.calls[k], c);
    CallIsCovered(s.shared, s.calls, k);
    NextOk(s.limits, s.shared, s.calls[k], c);
    MoveCounted(s.shared, s.calls, k, shared, pc);
    forall j | 0 <= j < |s.calls| && j != k ensures CallOk(s.limits, |shared.workers|, shared.issued, s.calls[j]) {
      CallOkGrows(s.limits, |shared.workers|, s.shared.issued, shared.issued, s.calls[j]);
    }
  }

  lemma BeginInv(s: System, call: Call)
    requires SystemInv(s) && Enabled(s, Begin(call))
    ensures SystemInv(Apply(s, Begin(call)))
  {
    var pc := Entry(s.shared, call);
    assert GlobalHold(pc) == 0 && CallOk(s.limits, |s.shared.workers|, s.shared.issued, pc) by {
      assert CallOk(s.limits, |s.shared.workers|, s.shared.issued, Finished) && GlobalHold(Finished) == 0;
    }
    TallyAppend(s.calls, pc, Holding());
    forall w | 0 <= w < |s.shared.workers|
      ensures Tally(s.calls + [pc], HoldingWorker(|s.shared.workers|, w)) == Tally(s.calls, HoldingWorker(|s.shared.workers|, w))
    {
      assert WorkerHold(pc, |s.shared.workers|, w) == 0 by { assert WorkerHold(Finished, |s.shared.workers|, w) == 0; }
      TallyAppend(s.calls, pc, HoldingWorker(|s.shared.workers|, w));
    }
  }

  lemma StepInv(s: System, op: Op)
    requires SystemInv(s) && Enabled(s, op)
    ensures SystemInv(Apply(s, op))
  {
    match op
    case Begin(call) => BeginInv(s, call);
    case Run(k, c) => RunStepInv(s, k, c);
  }

  // ---------------------------------------------------------------------- runs

  ghost predicate Stepped(ss: seq<System>, ops: seq<Op>, i: nat)
    requires i < |ops| && |ss| == |ops| + 1
  {
    ss[i].shared.slots != [] && Enabled(ss[i], ops[i]) && ss[i + 1] == Apply(ss[i], ops[i])
  }

  ghost predicate IsRun(n: nat, limits: Limits, ss: seq<System>, ops: seq<Op>) {
    |ss| == |ops| + 1 && ss[0] == Start(n, limits) && forall i :: 0 <= i < |ops| ==> Stepped(ss, ops, i)
  }

  lemma StartInv(n: nat, limits: Limits)
    ensures SystemInv(Start(n, limits))
  {
    var s := Start(n, limits).shared;
    TallyZero(s.slots, Reserved());
    forall w | 0 <= w < n ensures Tally(s.slots, ReservedFor(w)) == 0 { TallyZero(s.slots, ReservedFor(w)); }
  }

  lemma {:induction false} RunInv(n: nat, limits: Limits, ss: seq<System>, ops: seq<Op>, i: nat)
    requires IsRun(n, limits, ss, ops) && i < |ss|
    ensures SystemInv(ss[i]) && ss[i].limits == limits && |ss[i].shared.workers| == n
  {
    if i == 0 {
      StartInv(n, limits);
    } else {
      RunInv(n, limits, ss, ops, i - 1);
      assert Stepped(ss, ops, i - 1);
      StepInv(ss[i - 1], ops[i - 1]);
      StepKeeps(ss[i - 1], ops[i - 1]);
    }
  }

  lemma StepKeeps(s: System, op: Op)
    requires s.shared.slots != [] && Enabled(s, op)
    ensures Apply(s, op).limits == s.limits && |Apply(s, op).shared.workers| == |s.shared.workers|
  {
  }

  // ------------------------------------------------------------------ theorems

  /** In every reachable state the pending counters are the number of token holders. */
  lemma CountersAreHolders(n: nat, limits: Limits, ss: seq<System>, ops: seq<Op>, i: nat, w: nat)
    requires IsRun(n, limits, ss, ops) && i < |ss| && w < n
    ensures var s := ss[i].shared;
            && |s.workers| == n
            && s.pending == Tally(ss[i].calls, Holding()) + Tally(s.slots, Reserved())
            && s.workers[w].pending == Tally(ss[i].calls, HoldingWorker(n, w)) + Tally(s.slots, ReservedFor(w))
  {
    RunInv(n, limits, ss, ops, i);
  }

  /** They never exceed their limits, and no decrement of them ever finds zero. */
  lemma TokensAreBounded(n: nat, limits: Limits, ss: seq<System>, ops: seq<Op>, i: nat)
    requires IsRun(n, limits, ss, ops) && i < |ss|
    ensures limits.tokensTotal > 0 ==> ss[i].shared.pending <= limits.tokensTotal
    ensures limits.tokensPerWorker > 0 ==> forall w :: 0 <= w < |ss[i].shared.workers| ==> ss[i].shared.workers[w].pending <= limits.tokensPerWorker
    ensures ss[i].shared.guardHits == 0
  {
    RunInv(n, limits, ss, ops, i);
  }

  /** However often copies of a token are committed or cancelled, it takes effect at most once. */
  lemma EffectiveOnce(n: nat, limits: Limits, ss: seq<System>, ops: seq<Op>, i: nat, j: nat, k: nat)
    requires IsRun(n, limits, ss, ops) && i < |ss| && j < k < |ss[i].shared.done|
    ensures var done := ss[i].shared.done;
            !(done[j].slot == done[k].slot && done[j].generation == done[k].generation)
    ensures ss[i].shared.done[k] in ss[i].shared.issued
  {
    RunInv(n, limits, ss, ops, i);
    assert !SameReservation(ss[i].shared.done[j], ss[i].shared.done[k]);
  }

  /** With no call in progress the counters are exactly the live reservations. */
  lemma QuiescentCounters(n: nat, limits: Limits, ss: seq<System>, ops: seq<Op>, i: nat)
    requires IsRun(n, limits, ss, ops) && i < |ss| && forall k :: 0 <= k < |ss[i].calls| ==> ss[i].calls[k].Finished?
    ensures ss[i].shared.pending == Tally(ss[i].shared.slots, Reserved())
    ensures forall w :: 0 <= w < |ss[i].shared.workers| ==> ss[i].shared.workers[w].pending == Tally(ss[i].shared.slots, ReservedFor(w))
  {
    RunInv(n, limits, ss, ops, i);
    TallyZero(ss[i].calls, Holding());
    forall w | 0 <= w < n ensures Tally(ss[i].calls, HoldingWorker(n, w)) == 0 { TallyZero(ss[i].calls, HoldingWorker(n, w)); }
  }
}
