/** Where the instance counts of placement come from, under every interleaving of atomic steps. */
module PlacementHistory {
  import opened Tallies
  import opened PlacementSteps
  import opened PlacementProofs

  /** The step is the add of a commit that won its slot, on worker `w`. */
  predicate AddsAt(s: System, op: Op, w: nat) {
    op.Run? && op.k < |s.calls| && s.calls[op.k].AddInstance? && s.calls[op.k].w == w
  }

  /** The step is the successful compare-and-swap of a RecordStop, on worker `w`. */
  predicate LowersAt(s: System, op: Op, w: nat) {
    && op.Run? && op.k < |s.calls| && s.calls[op.k].CasLower? && s.calls[op.k].counter == Instances(w)
    && w < |s.shared.workers| && s.shared.workers[w].instances == s.calls[op.k].seen
  }

  /** The step is the compare-and-swap by which a commit wins its slot, for worker `w`. */
  predicate WinsAt(s: System, op: Op, w: nat) {
    && op.Run? && op.k < |s.calls| && s.calls[op.k].Complete? && s.calls[op.k].commit
    && var t := s.calls[op.k].token;
       && t.valid && 0 <= t.slot < |s.shared.slots| && 0 <= t.worker < |s.shared.workers| && t.worker == w
       && s.shared.slots[t.slot].generation == t.generation
  }

  // ------------------------------------------------------------------ one step

  lemma NextInstances(l: Limits, s: Shared, pc: PC, c: Choice, w: nat)
    requires Ready(l, s, pc) && w < |s.workers|
    ensures var s' := Next(l, s, pc, c).0;
            && |s'.workers| == |s.workers|
            && s'.workers[w].instances
                 == if pc.AddInstance? && pc.w == w then s.workers[w].instances + 1
                    else if pc.CasLower? && pc.counter == Instances(w) && s.workers[w].instances == pc.seen then s.workers[w].instances - 1
                    else s.workers[w].instances
  {
  }

  lemma StepInstances(s: System, op: Op, w: nat)
    requires SystemInv(s) && Enabled(s, op) && w < |s.shared.workers|
    ensures |Apply(s, op).shared.workers| == |s.shared.workers|
    ensures Apply(s, op).shared.workers[w].instances
              == s.shared.workers[w].instances + (if AddsAt(s, op, w) then 1 else 0) - (if LowersAt(s, op, w) then 1 else 0)
  {
    if op.Run? {
      CallIsCovered(s.shared, s.calls, op.k);
      NextInstances(s.limits, s.shared, s.calls[op.k], op.choice, w);
    }
  }

  /** The adds a call in progress still owes to worker `w`. */
  function Owed(pc: PC, w: nat): int {
    match pc
    case Lower(_, next) => Owed(next, w)
    case CasLower(_, _, next) => Owed(next, w)
    case AddInstance(x, next) => (if x == w then 1 else 0) + Owed(next, w)
    case _ => 0
  }

  function Owes(w: nat): PC -> int { (pc: PC) => Owed(pc, w) }

  lemma NextOwed(l: Limits, s: Shared, pc: PC, c: Choice, w: nat)
    requires s.slots != [] && w < |s.workers|
    ensures Owed(Next(l, s, pc, c).1, w)
              == Owed(pc, w) - (if pc.AddInstance? && pc.w == w then 1 else 0)
                 + (if pc.Complete? && pc.commit && InRange(s, pc.token) && pc.token.worker == w
                       && s.slots[pc.token.slot].generation == pc.token.generation then 1 else 0)
  {
    var release := Lower(Global, Finished);
    assert Owed(Finished, w) == 0 && Owed(release, w) == 0;
    if pc.Complete? && pc.token.worker >= 0 { assert Owed(AddInstance(pc.token.worker, release), w) == if pc.token.worker == w then 1 else 0; }
  }

  lemma StepOwed(s: System, op: Op, w: nat)
    requires SystemInv(s) && Enabled(s, op) && w < |s.shared.workers|
    ensures Tally(Apply(s, op).calls, Owes(w))
              == Tally(s.calls, Owes(w)) + (if WinsAt(s, op, w) then 1 else 0) - (if AddsAt(s, op, w) then 1 else 0)
  {
    match op
    case Begin(call) =>
      assert Owed(Finished, w) == 0;
      TallyAppend(s.calls, Entry(s.shared, call), Owes(w));
    case Run(k, c) =>
      NextOwed(s.limits, s.shared, s.calls[k], c, w);
      TallyUpdate(s.calls, k, Next(s.limits, s.shared, s.calls[k], c).1, Owes(w));
  }

  // ---------------------------------------------------------------------- runs

  /** How many of the first `n` steps were each. */
  ghost function Adds(ss: seq<System>, ops: seq<Op>, w: nat, n: nat): int
    requires n <= |ops| && |ss| == |ops| + 1
  {
    if n == 0 then 0 else Adds(ss, ops, w, n - 1) + if AddsAt(ss[n - 1], ops[n - 1], w) then 1 else 0
  }

  ghost function Lowers(ss: seq<System>, ops: seq<Op>, w: nat, n: nat): int
    requires n <= |ops| && |ss| == |ops| + 1
  {
    if n == 0 then 0 else Lowers(ss, ops, w, n - 1) + if LowersAt(ss[n - 1], ops[n - 1], w) then 1 else 0
  }

  ghost function Wins(ss: seq<System>, ops: seq<Op>, w: nat, n: nat): int
    requires n <= |ops| && |ss| == |ops| + 1
  {
    if n == 0 then 0 else Wins(ss, ops, w, n - 1) + if WinsAt(ss[n - 1], ops[n - 1], w) then 1 else 0
  }

  /** A worker's instance count is the number of commits that have added to it minus the number of
      RecordStops that have lowered it; and every commit that won its slot has added or still owes it. */
  lemma {:induction false} InstancesAreCommits(n: nat, limits: Limits, ss: seq<System>, ops: seq<Op>, i: nat, w: nat)
    requires IsRun(n, limits, ss, ops) && i < |ss| && w < n
    ensures |ss[i].shared.workers| == n && ss[i].shared.workers[w].instances == Adds(ss, ops, w, i) - Lowers(ss, ops, w, i)
    ensures Wins(ss, ops, w, i) == Adds(ss, ops, w, i) + Tally(ss[i].calls, Owes(w))
  {
    if i == 0 {
    } else {
      InstancesAreCommits(n, limits, ss, ops, i - 1, w);
      RunInv(n, limits, ss, ops, i - 1);
      assert Stepped(ss, ops, i - 1);
      StepInstances(ss[i - 1], ops[i - 1], w);
      StepOwed(ss[i - 1], ops[i - 1], w);
    }
  }

  /** So with no call in progress it is the commits that won minus the RecordStops that lowered it. */
  lemma QuiescentInstances(n: nat, limits: Limits, ss: seq<System>, ops: seq<Op>, i: nat, w: nat)
    requires IsRun(n, limits, ss, ops) && i < |ss| && w < n && forall k :: 0 <= k < |ss[i].calls| ==> ss[i].calls[k].Finished?
    ensures |ss[i].shared.workers| == n && ss[i].shared.workers[w].instances == Wins(ss, ops, w, i) - Lowers(ss, ops, w, i)
  {
    InstancesAreCommits(n, limits, ss, ops, i, w);
    TallyZero(ss[i].calls, Owes(w));
  }
}
