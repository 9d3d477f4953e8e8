/** Strict admission: batches of starts that move an optimistic logical scale
    (`pkg/leaf/autoscaling/actuator.go`, ApplyScale, runStrictBatch and strictBatchFailed). */
module StrictBatches {

  /** One batch: where it started from, and what became of its starts. `previous` and the counts
      of finished starts are kept after the release, as history. */
  datatype Batch = Batch(previous: int, desired: int, running: nat, succeeded: nat, failed: nat, released: bool)

  /** `guarded` counts the failures that found the scale at zero and left it there. */
  datatype Strict = Strict(scale: int, known: bool, active: bool, batches: seq<Batch>, guarded: nat)

  datatype Op = Begin(desired: nat) | Succeed(b: nat) | Fail(b: nat) | Release(b: nat)

  /** ApplyScale claims the handoff only when no batch is active; a batch is released when all
      its starts have finished. */
  predicate Enabled(s: Strict, op: Op) {
    match op
    case Begin(_) => !s.active
    case Succeed(b) => b < |s.batches| && s.batches[b].running > 0
    case Fail(b) => b < |s.batches| && s.batches[b].running > 0
    case Release(b) => b < |s.batches| && s.batches[b].running == 0 && !s.batches[b].released
  }

  function Apply(s: Strict, op: Op): Strict
    requires Enabled(s, op)
  {
    match op
    case Begin(desired) =>
      var starts := if desired > s.scale then desired - s.scale else 0;
      s.(scale := desired, known := true, active := true,
         batches := s.batches + [Batch(s.scale, desired, starts, 0, 0, false)])
    case Succeed(b) =>
      var x := s.batches[b];
      s.(batches := s.batches[b := x.(running := x.running - 1, succeeded := x.succeeded + 1)])
    case Fail(b) =>
      var x := s.batches[b];
      s.(scale := if s.scale > 0 then s.scale - 1 else s.scale,
         guarded := if s.scale > 0 then s.guarded else s.guarded + 1,
         batches := s.batches[b := x.(running := x.running - 1, failed := x.failed + 1)])
    case Release(b) => s.(active := false, batches := s.batches[b := s.batches[b].(released := true)])
  }

  ghost predicate IsRun(ss: seq<Strict>, ops: seq<Op>) {
    && |ss| == |ops| + 1 && ss[0] == Strict(0, false, false, [], 0)
    && forall i :: 0 <= i < |ops| ==> Enabled(ss[i], ops[i]) && ss[i + 1] == Apply(ss[i], ops[i])
  }

  /** Where a batch brings the scale: up by its starts that have not failed, or down to the target. */
  function Reached(b: Batch): int {
    if b.desired > b.previous then b.previous + b.running + b.succeeded else b.desired
  }

  ghost predicate Inv(s: Strict) {
    && (forall i :: 0 <= i < |s.batches| ==> BatchOk(s.batches[i]))
    && (forall i :: 0 <= i < |s.batches| - 1 ==> s.batches[i].released && s.batches[i + 1].previous == Reached(s.batches[i]))
    && s.guarded == 0
    && (if s.batches == [] then !s.active && s.scale == 0
        else var last := s.batches[|s.batches| - 1]; s.scale == Reached(last) && (s.active <==> !last.released))
  }

  ghost predicate BatchOk(b: Batch) {
    && b.previous >= 0 && b.desired >= 0 && (b.released ==> b.running == 0)
    && b.running + b.succeeded + b.failed == if b.desired > b.previous then b.desired - b.previous else 0
  }

  lemma StepInv(s: Strict, op: Op)
    requires Inv(s) && Enabled(s, op)
    ensures Inv(Apply(s, op)) && (op.Fail? ==> s.scale > 0)
  {
  }

  lemma {:induction false} RunInv(ss: seq<Strict>, ops: seq<Op>, i: nat)
    requires IsRun(ss, ops) && i < |ss|
    ensures Inv(ss[i])
  {
    if i == 0 {
    } else {
      RunInv(ss, ops, i - 1);
      StepInv(ss[i - 1], ops[i - 1]);
    }
  }

  /** At most one batch is active: every earlier one has been released with no start running. */
  lemma OneBatchAtATime(ss: seq<Strict>, ops: seq<Op>, i: nat, a: nat, b: nat)
    requires IsRun(ss, ops) && i < |ss| && a < b < |ss[i].batches|
    ensures ss[i].batches[a].released && ss[i].batches[a].running == 0
  {
    RunInv(ss, ops, i);
  }

  /** When a batch is released the scale is, for an upscale, the previous scale plus the starts
      that succeeded, and otherwise the target; in whatever order the starts finished. */
  lemma ReleasedScale(ss: seq<Strict>, ops: seq<Op>, i: nat)
    requires IsRun(ss, ops) && i < |ops| && ops[i].Release?
    ensures var b := ss[i + 1].batches[ops[i].b];
            && ss[i + 1].scale == (if b.desired > b.previous then b.previous + b.succeeded else b.desired)
            && (b.desired > b.previous ==> b.succeeded + b.failed == b.desired - b.previous)
            && !ss[i + 1].active
  {
    RunInv(ss, ops, i);
    RunInv(ss, ops, i + 1);
    assert ops[i].b == |ss[i].batches| - 1;
  }

  /** The guard against a negative scale is never used. */
  lemma GuardIsUnused(ss: seq<Strict>, ops: seq<Op>, i: nat)
    requires IsRun(ss, ops) && i < |ss|
    ensures ss[i].guarded == 0 && ss[i].scale >= 0
    ensures i < |ops| && ops[i].Fail? ==> ss[i].scale > 0
  {
    RunInv(ss, ops, i);
    if i < |ops| { StepInv(ss[i], ops[i]); }
  }

  /** The scale between batches is the sum of what the batches did. */
  ghost function Effect(b: Batch): int {
    if b.desired > b.previous then b.succeeded else b.desired - b.previous
  }

  ghost function Effects(bs: seq<Batch>): int {
    if bs == [] then 0 else Effects(bs[..|bs| - 1]) + Effect(bs[|bs| - 1])
  }

  lemma {:induction false} EffectsReach(bs: seq<Batch>)
    requires forall i :: 0 <= i < |bs| ==> bs[i].running == 0
    requires bs != [] ==> bs[0].previous == 0
    requires forall i :: 0 <= i < |bs| - 1 ==> bs[i + 1].previous == Reached(bs[i])
    ensures Effects(bs) == if bs == [] then 0 else Reached(bs[|bs| - 1])
  {
    if bs == [] {
    } else {
      EffectsReach(bs[..|bs| - 1]);
    }
  }

  lemma ScaleIsConserved(ss: seq<Strict>, ops: seq<Op>, i: nat)
    requires IsRun(ss, ops) && i < |ss| && !ss[i].active
    ensures ss[i].scale == Effects(ss[i].batches)
  {
    RunInv(ss, ops, i);
    FirstFromZero(ss, ops, i);
    EffectsReach(ss[i].batches);
  }

  lemma {:induction false} FirstFromZero(ss: seq<Strict>, ops: seq<Op>, i: nat)
    requires IsRun(ss, ops) && i < |ss|
    ensures ss[i].batches != [] ==> ss[i].batches[0].previous == 0
  {
    if i == 0 {
    } else {
      FirstFromZero(ss, ops, i - 1);
      RunInv(ss, ops, i - 1);
    }
  }

  // ------------------------------------------------------------------ progress

  /** The operations lead from `s` to `s'`, each enabled in its turn. */
  ghost predicate Leads(s: Strict, ops: seq<Op>, s': Strict)
    decreases |ops|
  {
    if ops == [] then s == s' else Enabled(s, ops[0]) && Leads(Apply(s, ops[0]), ops[1..], s')
  }

  /** The rest of batch `b` when its running starts end like this, and how many of them succeed. */
  function Ending(b: nat, outcomes: seq<bool>): seq<Op> {
    if outcomes == [] then [Release(b)] else [if outcomes[0] then Succeed(b) else Fail(b)] + Ending(b, outcomes[1..])
  }

  function Successes(outcomes: seq<bool>): nat {
    if outcomes == [] then 0 else (if outcomes[0] then 1 else 0) + Successes(outcomes[1..])
  }

  lemma {:induction false} EndBatch(s: Strict, outcomes: seq<bool>) returns (s': Strict)
    requires Inv(s) && s.active && s.batches != [] && |outcomes| == s.batches[|s.batches| - 1].running
    ensures var b := |s.batches| - 1;
            var x := s.batches[b];
            && Leads(s, Ending(b, outcomes), s') && !s'.active
            && s'.scale == if x.desired > x.previous then x.previous + x.succeeded + Successes(outcomes) else x.desired
    decreases |outcomes|
  {
    var b := |s.batches| - 1;
    if outcomes == [] {
      s' := Apply(s, Release(b));
      assert Leads(s', [Release(b)][1..], s');
    } else {
      var op := if outcomes[0] then Succeed(b) else Fail(b);
      StepInv(s, op);
      s' := EndBatch(Apply(s, op), outcomes[1..]);
      assert Ending(b, outcomes)[1..] == Ending(b, outcomes[1..]);
    }
  }

  /** After any run, whichever of the running starts succeed and in whatever order, the active batch can end, and
      the scale is then the previous one plus all its successes, or the target of a batch that starts nothing. */
  lemma BatchCanEnd(ss: seq<Strict>, ops: seq<Op>, outcomes: seq<bool>) returns (s': Strict)
    requires IsRun(ss, ops) && ss[|ops|].active && ss[|ops|].batches != []
    requires |outcomes| == ss[|ops|].batches[|ss[|ops|].batches| - 1].running
    ensures var b := |ss[|ops|].batches| - 1;
            var x := ss[|ops|].batches[b];
            && Leads(ss[|ops|], Ending(b, outcomes), s') && !s'.active
            && s'.scale == if x.desired > x.previous then x.previous + x.succeeded + Successes(outcomes) else x.desired
  {
    RunInv(ss, ops, |ops|);
    s' := EndBatch(ss[|ops|], outcomes);
  }
}
