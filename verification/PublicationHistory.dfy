/** What the controller's model knows of each leaf: the last word it accepted since the reload. */
module PublicationHistory {
  import opened Membership
  import opened Publication

  /** Step `j` is a frame of leaf `id` that the controller accepts: of its version, and newer than the last. */
  ghost predicate AcceptedAt(cs: seq<Controller>, ops: seq<Op>, j: nat, id: nat)
    requires j < |ops| && |cs| == |ops| + 1
  {
    && ops[j].OnFrame? && ops[j].f.leafID == id && cs[j].model.Some? && ops[j].f.version == cs[j].version
    && (id in cs[j].revisions ==> ops[j].f.revision > cs[j].revisions[id])
  }

  /** Step `j` marks leaf `id` unhealthy under the current version. */
  ghost predicate MarkedAt(cs: seq<Controller>, ops: seq<Op>, j: nat, id: nat)
    requires j < |ops| && |cs| == |ops| + 1
  {
    ops[j].MarkUnhealthy? && ops[j].leafID == id && cs[j].model.Some? && ops[j].version == cs[j].version
  }

  /** Step `j` is an accepted frame of leaf `id` that sets its load. */
  ghost predicate LoadedAt(cs: seq<Controller>, ops: seq<Op>, j: nat, id: nat)
    requires j < |ops| && |cs| == |ops| + 1
  {
    AcceptedAt(cs, ops, j, id) && (ops[j].f.full || ops[j].f.load.Some?)
  }

  /** Step `j` is the last of the steps before `i` that says anything about the health of `id`. */
  ghost predicate LastWord(cs: seq<Controller>, ops: seq<Op>, j: nat, i: nat, id: nat)
    requires j < i <= |ops| && |cs| == |ops| + 1
  {
    && (AcceptedAt(cs, ops, j, id) || MarkedAt(cs, ops, j, id))
    && forall k :: j < k < i ==> !AcceptedAt(cs, ops, k, id) && !MarkedAt(cs, ops, k, id)
  }

  /** Step `j` is the last of the steps before `i` that sets the load of `id`. */
  ghost predicate LastLoad(cs: seq<Controller>, ops: seq<Op>, j: nat, i: nat, id: nat)
    requires j < i <= |ops| && |cs| == |ops| + 1
  {
    LoadedAt(cs, ops, j, id) && forall k :: j < k < i ==> !LoadedAt(cs, ops, k, id)
  }

  /** Since step `b` the last word on `id` was a frame with a healthy worker. */
  ghost predicate ReportedHealthy(cs: seq<Controller>, ops: seq<Op>, b: nat, i: nat, id: nat)
    requires i <= |ops| && |cs| == |ops| + 1
  {
    exists j :: b < j < i && LastWord(cs, ops, j, i, id) && AcceptedAt(cs, ops, j, id) && ops[j].f.healthyWorkers > 0
  }

  lemma WordGoesOn(cs: seq<Controller>, ops: seq<Op>, b: nat, i: nat, id: nat)
    requires b < i < |ops| && |cs| == |ops| + 1
    ensures AcceptedAt(cs, ops, i, id) ==> (ReportedHealthy(cs, ops, b, i + 1, id) <==> ops[i].f.healthyWorkers > 0)
    ensures MarkedAt(cs, ops, i, id) ==> !ReportedHealthy(cs, ops, b, i + 1, id)
    ensures !AcceptedAt(cs, ops, i, id) && !MarkedAt(cs, ops, i, id) ==>
              (ReportedHealthy(cs, ops, b, i + 1, id) <==> ReportedHealthy(cs, ops, b, i, id))
  {
    if AcceptedAt(cs, ops, i, id) {
      assert LastWord(cs, ops, i, i + 1, id);
    } else if !MarkedAt(cs, ops, i, id) {
      forall j | b < j < i ensures LastWord(cs, ops, j, i + 1, id) <==> LastWord(cs, ops, j, i, id) {}
    }
  }

  /** Publishing an update changes nothing of the model but its cache. */
  lemma PublishKeeps(c: Controller, updated: (Model, UpdateResult))
    ensures var c' := Published(c, updated);
            && c'.model.Some? && c'.version == c.version
            && c'.model.value == updated.0.(ring := c'.model.value.ring, dirty := c'.model.value.dirty)
  {
  }

  lemma FrameHealth(c: Controller, f: Frame, id: nat)
    requires c.model.Some?
    ensures var c' := Apply(c, OnFrame(f));
            && c'.model.Some? && c'.version == c.version && c'.model.value.policy == c.model.value.policy
            && c'.model.value.topology == c.model.value.topology
            && var h, h' := c.model.value.healthy, c'.model.value.healthy;
               (id in h' && h'[id]) ==
                 if f.leafID == id && f.version == c.version && (id in c.revisions ==> f.revision > c.revisions[id])
                 then f.healthyWorkers > 0 else id in h && h[id]
  {
    if Accepts(c, f) { PublishKeeps(c.(revisions := c.revisions[f.leafID := f.revision]), Update(c.model.value, f)); }
  }

  /** One step's effect on the health of `id`. */
  lemma StepHealth(c: Controller, op: Op, id: nat)
    requires Inv(c) && Enabled(c, op) && !op.Begin? && Apply(c, op).model.Some?
    ensures c.model.Some?
    ensures var h, h' := c.model.value.healthy, Apply(c, op).model.value.healthy;
            (id in h' && h'[id]) ==
              if op.OnFrame? && op.f.leafID == id && op.f.version == c.version && (id in c.revisions ==> op.f.revision > c.revisions[id])
              then op.f.healthyWorkers > 0
              else if op.MarkUnhealthy? && op.leafID == id && op.version == c.version then false
              else id in h && h[id]
    ensures Apply(c, op).model.value.policy == c.model.value.policy && Apply(c, op).version == c.version
    ensures Apply(c, op).model.value.topology == c.model.value.topology
  {
    if op.OnFrame? {
      FrameHealth(c, op.f, id);
    } else if op.MarkUnhealthy? {
      if c.model.Some? && op.version == c.version { PublishKeeps(c, Disconnected(c.model.value, op.leafID)); }
    }
  }

  /** While a model is installed, a leaf is healthy in it if and only if, since the reload that installed it
      (step `b`), the last accepted frame or matching disconnect of the leaf was a frame with a healthy
      worker; and policy and version are the reload's. */
  lemma {:induction false} HealthIsLastWord(cs: seq<Controller>, ops: seq<Op>, i: nat, id: nat) returns (b: nat)
    requires IsRun(cs, ops) && i < |cs| && cs[i].model.Some?
    ensures b < i && ops[b].Begin? && NoBegin(ops, b + 1, i)
    ensures cs[i].model.value.policy == ops[b].policy && cs[i].version == ops[b].version
    ensures var h := cs[i].model.value.healthy;
            id in h && h[id] <==> ReportedHealthy(cs, ops, b, i, id)
  {
    b := i - 1;
    assert Stepped(cs, ops, i - 1);
    RunInv(cs, ops, i - 1);
    if ops[i - 1].Begin? {
    } else {
      StepHealth(cs[i - 1], ops[i - 1], id);
      b := HealthIsLastWord(cs, ops, i - 1, id);
      WordGoesOn(cs, ops, b, i - 1, id);
    }
  }

  // --------------------------------------------------------------------- loads

  lemma SlotIs(ids: seq<nat>, k: nat)
    requires k < |ids| && forall i, j :: 0 <= i < j < |ids| ==> ids[i] < ids[j]
    ensures SlotOf(ids, ids[k]) == k
  {
  }

  lemma StepLoad(c: Controller, op: Op, k: nat)
    requires Inv(c) && Enabled(c, op) && !op.Begin? && Apply(c, op).model.Some? && k < |c.topology.ids|
    ensures c.model.Some? && k < |c.model.value.loads| == |Apply(c, op).model.value.loads|
    ensures var id := c.topology.ids[k];
            c.model.value.policy.BoundedLoads? ==>
              Apply(c, op).model.value.loads[k] ==
                if op.OnFrame? && op.f.leafID == id && op.f.version == c.version && (id in c.revisions ==> op.f.revision > c.revisions[id])
                   && (op.f.full || op.f.load.Some?)
                then (if op.f.load.Some? then op.f.load.value else 0.0) else c.model.value.loads[k]
  {
    var ids := c.topology.ids;
    SlotIs(ids, k);
    if op.OnFrame? && SlotOf(ids, op.f.leafID) < |ids| { SlotIs(ids, SlotOf(ids, op.f.leafID)); }
    if op.OnFrame? && c.model.Some? && Accepts(c, op.f) {
      PublishKeeps(c.(revisions := c.revisions[op.f.leafID := op.f.revision]), Update(c.model.value, op.f));
    }
  }

  /** Under bounded loads the slot of a leaf holds the load of the last accepted frame since the reload, step
      `j`, that was full or carried one: zero if it carried none. */
  lemma {:induction false} LoadIsLastReported(cs: seq<Controller>, ops: seq<Op>, j: nat, i: nat, k: nat)
    requires IsRun(cs, ops) && j < i < |cs| && NoBegin(ops, j + 1, i) && k < |cs[i].topology.ids|
    requires cs[i].model.Some? && cs[i].model.value.policy.BoundedLoads? && LastLoad(cs, ops, j, i, cs[i].topology.ids[k])
    ensures k < |cs[i].model.value.loads|
    ensures cs[i].model.value.loads[k] == if ops[j].f.load.Some? then ops[j].f.load.value else 0.0
    decreases i
  {
    assert Stepped(cs, ops, i - 1);
    RunInv(cs, ops, i - 1);
    RunInv(cs, ops, i);
    StepHealth(cs[i - 1], ops[i - 1], 0);
    StepLoad(cs[i - 1], ops[i - 1], k);
    if i == j + 1 {
      assert LoadedAt(cs, ops, j, cs[i].topology.ids[k]);
    } else {
      assert !LoadedAt(cs, ops, i - 1, cs[i].topology.ids[k]);
      LoadIsLastReported(cs, ops, j, i - 1, k);
    }
  }

  /** Before the first such frame after a reload, step `b`, it holds zero. */
  lemma {:induction false} LoadStartsAtZero(cs: seq<Controller>, ops: seq<Op>, b: nat, i: nat, k: nat)
    requires IsRun(cs, ops) && b < i < |cs| && ops[b].Begin? && NoBegin(ops, b + 1, i) && k < |cs[i].topology.ids|
    requires cs[i].model.Some? && cs[i].model.value.policy.BoundedLoads?
    requires forall j :: b < j < i ==> !LoadedAt(cs, ops, j, cs[i].topology.ids[k])
    ensures k < |cs[i].model.value.loads| && cs[i].model.value.loads[k] == 0.0
    decreases i
  {
    assert Stepped(cs, ops, i - 1);
    RunInv(cs, ops, i - 1);
    RunInv(cs, ops, i);
    if i == b + 1 {
    } else {
      StepHealth(cs[i - 1], ops[i - 1], 0);
      StepLoad(cs[i - 1], ops[i - 1], k);
      assert !LoadedAt(cs, ops, i - 1, cs[i].topology.ids[k]);
      LoadStartsAtZero(cs, ops, b, i - 1, k);
    }
  }
}
