/** Sessions of the delta stream between one leaf and one ingress: source changes, publications,
    wakeups, coalesced emits, deliveries, disconnects, reconnects and policy reloads, in any order. */
module StreamRuns {
  import opened CapacityStream
  import opened Options

  /** A frame; `before` and `after` are the producer's views around it, kept for the proof. */
  datatype Frame = Frame(
    version: nat, revision: nat, full: bool, healthyWorkers: nat, entries: seq<Capacity>, before: View, after: View)

  /** One WatchRoutingState stream: its one-token wakeup channel, whether it has taken a token it has
      not yet answered with a frame, the view it last sent, and its frames in flight, in order. */
  datatype Session = Session(version: nat, started: bool, token: bool, awake: bool, sent: View, queue: seq<Frame>)

  /** The ingress side: the active version, the last revision applied, the leaf's part of the
      index, and the session it reads. `shown` is the view of the last applied frame. */
  datatype Ingress = Ingress(
    version: nat, last: Option<nat>, index: map<nat, nat>, healthy: bool, session: Option<nat>, shown: Option<View>)

  /** `last` holds what was last published of each function. */
  datatype System = System(source: View, last: View, revision: nat, sessions: seq<Session>, ingress: Ingress)

  datatype Op =
    | ChangeSource(view: View)
    | Publish(c: Capacity)
    | PublishDeleted(id: nat)
    | Heartbeat
    | Wake(k: nat)
    | Emit(k: nat, healthyWorkers: nat, snapshot: View, entries: seq<Capacity>)
    | Connect
    | Disconnect
    | Reload(version: nat)
    | Deliver
    | DeliverLate(k: nat)

  /** onFrame's acceptance test. */
  predicate Accepts(g: Ingress, f: Frame) {
    f.version == g.version && (g.last.Some? ==> f.revision > g.last.value)
  }

  /** onFrame. */
  function OnFrame(g: Ingress, f: Frame): Ingress {
    if !Accepts(g, f) then g
    else g.(last := Some(f.revision),
            index := if f.full then ApplyFull(f.entries) else ApplyDelta(g.index, f.entries),
            healthy := f.healthyWorkers > 0,
            shown := Some(f.after))
  }

  /** An emit takes a snapshot of the source, sends all of it first, and, woken, the difference to the last
      sent view after that. The snapshot reads the functions one after another, so it need not be a view
      the source had at any one moment.
      What is published need not be the source's present value.
      A reload uses a version never used before; its old streams may still hand over a frame.
      Streams of one version are read one after another, by the same loop. */
  ghost predicate Enabled(s: System, op: Op) {
    match op
    case ChangeSource(view) => Keyed(view)
    case Wake(k) => k < |s.sessions| && s.sessions[k].token && s.sessions[k].started && !s.sessions[k].awake
    case Emit(k, _, snapshot, entries) =>
      && k < |s.sessions| && Keyed(snapshot)
      && if s.sessions[k].started then s.sessions[k].awake && IsDiff(s.sessions[k].sent, snapshot, entries)
         else Lists(snapshot, entries)
    case Connect => s.ingress.session.None?
    case Disconnect => s.ingress.session.Some?
    case Reload(version) => version > s.ingress.version
    case Deliver =>
      && s.ingress.session.Some? && s.ingress.session.value < |s.sessions|
      && s.sessions[s.ingress.session.value].queue != []
    case DeliverLate(k) => k < |s.sessions| && s.sessions[k].queue != [] && s.sessions[k].version != s.ingress.version
    case _ => true
  }

  /** notifyRoutingLocked. */
  function Notified(sessions: seq<Session>): (r: seq<Session>)
    ensures |r| == |sessions| && forall k :: 0 <= k < |sessions| ==> r[k] == sessions[k].(token := true)
  {
    seq(|sessions|, k requires 0 <= k < |sessions| => sessions[k].(token := true))
  }

  function Popped(sessions: seq<Session>, k: nat): seq<Session>
    requires k < |sessions| && sessions[k].queue != []
  {
    sessions[k := sessions[k].(queue := sessions[k].queue[1..])]
  }

  ghost function Apply(s: System, op: Op): System
    requires Enabled(s, op)
  {
    match op
    case ChangeSource(view) => s.(source := view)
    case Publish(c) => if Repeats(s.last, c) then s else s.(last := s.last[c.fn := c], sessions := Notified(s.sessions))
    case PublishDeleted(id) => s.(last := s.last[id := Tombstone(id)], sessions := Notified(s.sessions))
    case Heartbeat => s.(sessions := Notified(s.sessions))
    case Wake(k) => s.(sessions := s.sessions[k := s.sessions[k].(token := false, awake := true)])
    case Emit(k, healthyWorkers, snapshot, entries) =>
      var x := s.sessions[k];
      var f := Frame(x.version, s.revision + 1, !x.started, healthyWorkers, entries, x.sent, snapshot);
      s.(revision := s.revision + 1, sessions := s.sessions[k := x.(started := true, awake := false, sent := snapshot, queue := x.queue + [f])])
    case Connect =>
      s.(sessions := s.sessions + [Session(s.ingress.version, false, false, false, map[], [])], ingress := s.ingress.(session := Some(|s.sessions|)))
    case Disconnect => s.(ingress := s.ingress.(session := None, healthy := false))
    case Reload(version) => s.(ingress := Ingress(version, None, map[], false, None, None))
    case Deliver =>
      var k := s.ingress.session.value;
      s.(sessions := Popped(s.sessions, k), ingress := OnFrame(s.ingress, s.sessions[k].queue[0]))
    case DeliverLate(k) => s.(sessions := Popped(s.sessions, k), ingress := OnFrame(s.ingress, s.sessions[k].queue[0]))
  }

  // ----------------------------------------------------------------- invariant

  /** Frames in flight follow one another: revisions rise, each starts from where the one before
      ended, only the first can be full, and the last ends at the view last sent. */
  ghost predicate QueueOk(x: Session, revision: nat) {
    && Keyed(x.sent)
    && (forall i :: 0 <= i < |x.queue| ==> FrameOk(x.queue[i], x.version, revision))
    && (forall i :: 0 < i < |x.queue| ==>
          x.queue[i].before == x.queue[i - 1].after && x.queue[i].revision > x.queue[i - 1].revision && !x.queue[i].full)
    && (x.queue != [] ==> x.sent == x.queue[|x.queue| - 1].after && x.started)
  }

  ghost predicate FrameOk(f: Frame, version: nat, revision: nat) {
    && f.version == version && f.revision <= revision && Keyed(f.before) && Keyed(f.after)
    && if f.full then Lists(f.after, f.entries) else IsDiff(f.before, f.after, f.entries)
  }

  /** The session being read: nothing in it is older than what was applied, and its next frame is
      full or starts from the view the index shows. */
  ghost predicate CurrentOk(x: Session, g: Ingress) {
    && x.version == g.version
    && (x.queue != [] ==>
          && (g.last.Some? ==> x.queue[0].revision > g.last.value)
          && (x.queue[0].full || g.shown == Some(x.queue[0].before)))
    && (x.queue == [] && x.started ==> g.shown == Some(x.sent))
  }

  ghost predicate Inv(s: System) {
    && Keyed(s.source)
    && (forall k :: 0 <= k < |s.sessions| ==> QueueOk(s.sessions[k], s.revision) && s.sessions[k].version <= s.ingress.version)
    && (s.ingress.last.Some? ==> s.ingress.last.value <= s.revision)
    && (s.ingress.shown.Some? ==> Keyed(s.ingress.shown.value) && s.ingress.index == Shown(s.ingress.shown.value))
    && (s.ingress.session.Some? ==>
          s.ingress.session.value < |s.sessions| && CurrentOk(s.sessions[s.ingress.session.value], s.ingress))
  }

  lemma QueueGrows(x: Session, revision: nat, f: Frame)
    requires QueueOk(x, revision) && FrameOk(f, x.version, revision + 1) && f.revision == revision + 1
    requires f.before == x.sent && f.full == !x.started
    ensures QueueOk(x.(started := true, awake := false, sent := f.after, queue := x.queue + [f]), revision + 1)
  {
  }

  lemma QueueLater(x: Session, revision: nat)
    requires QueueOk(x, revision)
    ensures QueueOk(x, revision + 1)
  {
    forall i | 0 <= i < |x.queue| ensures FrameOk(x.queue[i], x.version, revision + 1) {
      assert FrameOk(x.queue[i], x.version, revision);
    }
  }

  lemma CurrentGrows(x: Session, g: Ingress, f: Frame)
    requires CurrentOk(x, g) && (g.last.Some? ==> g.last.value < f.revision) && f.before == x.sent && f.full == !x.started
    ensures CurrentOk(x.(started := true, awake := false, sent := f.after, queue := x.queue + [f]), g)
  {
  }

  lemma EmitOk(s: System, op: Op)
    requires Inv(s) && Enabled(s, op) && op.Emit?
    ensures Inv(Apply(s, op))
  {
    var x := s.sessions[op.k];
    var f := Frame(x.version, s.revision + 1, !x.started, op.healthyWorkers, op.entries, x.sent, op.snapshot);
    QueueGrows(x, s.revision, f);
    var x' := x.(started := true, awake := false, sent := f.after, queue := x.queue + [f]);
    var s' := Apply(s, op);
    assert s'.sessions == s.sessions[op.k := x'];
    forall k | 0 <= k < |s.sessions| ensures QueueOk(s'.sessions[k], s.revision + 1) && s'.sessions[k].version <= s.ingress.version {
      QueueLater(s.sessions[k], s.revision);
    }
    if s.ingress.session == Some(op.k) { CurrentGrows(x, s.ingress, f); }
  }

  /** The next frame of the session being read is accepted, and moves the index to its view. */
  lemma FrameApplies(x: Session, revision: nat, g: Ingress)
    requires QueueOk(x, revision) && CurrentOk(x, g) && x.queue != []
    requires g.shown.Some? ==> Keyed(g.shown.value) && g.index == Shown(g.shown.value)
    ensures Accepts(g, x.queue[0]) && OnFrame(g, x.queue[0]).index == Shown(x.queue[0].after)
  {
    var f := x.queue[0];
    assert FrameOk(f, x.version, revision);
    if f.full {
      FullShowsView(f.after, f.entries);
    } else {
      DeltaBringsForward(f.before, f.after, f.entries);
    }
  }

  lemma QueuePops(x: Session, revision: nat)
    requires QueueOk(x, revision) && x.queue != []
    ensures QueueOk(x.(queue := x.queue[1..]), revision)
  {
    var rest := x.queue[1..];
    forall i | 0 < i < |rest| ensures rest[i].before == rest[i - 1].after && rest[i].revision > rest[i - 1].revision && !rest[i].full {
      assert rest[i] == x.queue[i + 1] && rest[i - 1] == x.queue[i];
    }
  }

  lemma DeliverOk(s: System)
    requires Inv(s) && Enabled(s, Deliver)
    ensures Inv(Apply(s, Deliver))
  {
    var k := s.ingress.session.value;
    var x := s.sessions[k];
    QueuePops(x, s.revision);
    FrameApplies(x, s.revision, s.ingress);
    assert FrameOk(x.queue[0], x.version, s.revision);
    if |x.queue| > 1 { assert x.queue[1..][0] == x.queue[1]; }
  }

  lemma DeliverLateOk(s: System, k: nat)
    requires Inv(s) && Enabled(s, DeliverLate(k))
    ensures Inv(Apply(s, DeliverLate(k))) && Apply(s, DeliverLate(k)).ingress == s.ingress
  {
    QueuePops(s.sessions[k], s.revision);
    assert FrameOk(s.sessions[k].queue[0], s.sessions[k].version, s.revision);
  }

  /** Publications and wakeups move tokens only. */
  lemma TokensOk(s: System, last: View, sessions: seq<Session>)
    requires Inv(s) && |sessions| == |s.sessions|
    requires forall k :: 0 <= k < |sessions| ==> sessions[k] == s.sessions[k].(token := sessions[k].token, awake := sessions[k].awake)
    ensures Inv(s.(last := last, sessions := sessions))
  {
    forall k | 0 <= k < |sessions| ensures QueueOk(sessions[k], s.revision) {
      assert QueueOk(s.sessions[k], s.revision);
    }
  }

  lemma ConnectOk(s: System)
    requires Inv(s)
    ensures Inv(Apply(s.(ingress := s.ingress.(session := None)), Connect))
  {
  }

  lemma StepInv(s: System, op: Op)
    requires Inv(s) && Enabled(s, op)
    ensures Inv(Apply(s, op))
  {
    match op
    case Publish(c) => if !Repeats(s.last, c) { TokensOk(s, s.last[c.fn := c], Notified(s.sessions)); }
    case PublishDeleted(id) => TokensOk(s, s.last[id := Tombstone(id)], Notified(s.sessions));
    case Heartbeat => TokensOk(s, s.last, Notified(s.sessions));
    case Wake(k) => TokensOk(s, s.last, s.sessions[k := s.sessions[k].(token := false, awake := true)]);
    case Emit(_, _, _, _) => EmitOk(s, op);
    case Connect => ConnectOk(s);
    case Deliver => DeliverOk(s);
    case DeliverLate(k) => DeliverLateOk(s, k);
    case _ =>
  }

  // ---------------------------------------------------------------------- runs

  ghost predicate Stepped(ss: seq<System>, ops: seq<Op>, i: nat)
    requires i < |ops| && |ss| == |ops| + 1
  {
    Enabled(ss[i], ops[i]) && ss[i + 1] == Apply(ss[i], ops[i])
  }

  ghost predicate Initial(s: System) {
    Keyed(s.source) && s.last == map[] && s.revision == 0 && s.sessions == [] && s.ingress == Ingress(0, None, map[], false, None, None)
  }

  ghost predicate IsRun(ss: seq<System>, ops: seq<Op>) {
    |ss| == |ops| + 1 && Initial(ss[0]) && forall i :: 0 <= i < |ops| ==> Stepped(ss, ops, i)
  }

  lemma {:induction false} RunInv(ss: seq<System>, ops: seq<Op>, i: nat)
    requires IsRun(ss, ops) && i < |ss|
    ensures Inv(ss[i]) && (i > 0 ==> ss[i - 1].revision <= ss[i].revision && ss[i - 1].ingress.version <= ss[i].ingress.version)
  {
    if i == 0 {
    } else {
      RunInv(ss, ops, i - 1);
      assert Stepped(ss, ops, i - 1);
      StepInv(ss[i - 1], ops[i - 1]);
    }
  }

  /** No frame of the session being read is ever rejected; after each one the index holds exactly
      the functions and the available concurrency of the view its producer sent. */
  lemma IndexFollowsProducer(ss: seq<System>, ops: seq<Op>, i: nat)
    requires IsRun(ss, ops) && i < |ops| && ops[i].Deliver?
    ensures ss[i].ingress.session.Some? && ss[i].ingress.session.value < |ss[i].sessions|
    ensures var x := ss[i].sessions[ss[i].ingress.session.value];
            && x.queue != [] && Accepts(ss[i].ingress, x.queue[0])
            && ss[i + 1].ingress.index == Shown(x.queue[0].after)
            && ss[i + 1].ingress.healthy == (x.queue[0].healthyWorkers > 0)
            && (|x.queue| == 1 ==> ss[i + 1].ingress.index == Shown(x.sent))
  {
    RunInv(ss, ops, i);
    assert Stepped(ss, ops, i);
    var x := ss[i].sessions[ss[i].ingress.session.value];
    FrameApplies(x, ss[i].revision, ss[i].ingress);
  }

  /** A frame of another version, or not newer than the last one applied, changes nothing; any other one is
      remembered and sets the leaf's health. A leaf is unhealthy after a disconnect and after a reload. */
  lemma HealthRule(s: System, op: Op, f: Frame)
    requires Enabled(s, op)
    ensures var g, g' := s.ingress, OnFrame(s.ingress, f);
            if f.version != g.version || (g.last.Some? && f.revision <= g.last.value) then g' == g
            else g'.last == Some(f.revision) && g'.healthy == (f.healthyWorkers > 0) && g'.version == g.version
    ensures op.Disconnect? || op.Reload? ==> !Apply(s, op).ingress.healthy && Apply(s, op).ingress.session == None
    ensures !op.Disconnect? && !op.Reload? && !op.Deliver? && !op.DeliverLate? ==> Apply(s, op).ingress.healthy == s.ingress.healthy
  {
  }

  /** Whenever the session being read has started and nothing is in flight, the index is the view
      last sent. */
  lemma DrainedIndexIsSent(ss: seq<System>, ops: seq<Op>, i: nat)
    requires IsRun(ss, ops) && i < |ss| && ss[i].ingress.session.Some?
    ensures var k := ss[i].ingress.session.value;
            && k < |ss[i].sessions|
            && (ss[i].sessions[k].started && ss[i].sessions[k].queue == [] ==>
                  ss[i].ingress.index == Shown(ss[i].sessions[k].sent))
  {
    RunInv(ss, ops, i);
  }

  /** Frames of another version change nothing. */
  lemma OtherVersionsAreIgnored(ss: seq<System>, ops: seq<Op>, i: nat)
    requires IsRun(ss, ops) && i < |ops| && ops[i].DeliverLate?
    ensures ss[i + 1].ingress == ss[i].ingress
  {
    RunInv(ss, ops, i);
    assert Stepped(ss, ops, i);
    DeliverLateOk(ss[i], ops[i].k);
  }

  // ------------------------------------------------------------------- wakeups

  /** The published values agree with the source, as far as an index shows them. */
  ghost predicate Settled(s: System) { Shown(s.last) == Shown(s.source) }

  /** Nothing is left to do for session `k`: no wakeup, no emit under way, no frame in flight. */
  ghost predicate Quiet(s: System, k: nat)
    requires k < |s.sessions|
  {
    var x := s.sessions[k];
    x.started && !x.token && !x.awake && x.queue == []
  }

  ghost predicate NoEmit(ops: seq<Op>, k: nat, i: nat, j: nat)
    requires j <= |ops|
  {
    forall n :: i <= n < j ==> !(ops[n].Emit? && ops[n].k == k)
  }

  /** A step that does not emit for session `k` leaves its view; and it leaves the published values
      too, or a wakeup for the session. */
  lemma StepWakes(s: System, op: Op, k: nat)
    requires Enabled(s, op) && k < |s.sessions| && !(op.Emit? && op.k == k)
    ensures var s' := Apply(s, op);
            && k < |s'.sessions| && s'.sessions[k].sent == s.sessions[k].sent && s'.sessions[k].started == s.sessions[k].started
            && (s'.last == s.last || s'.sessions[k].token)
            && (s.sessions[k].token || s.sessions[k].awake ==> s'.sessions[k].token || s'.sessions[k].awake)
  {
  }

  /** The last emit of a started session, step `e`: its view is the snapshot taken then, and unless a
      wakeup is on its way nothing has been published since. */
  lemma {:induction false} LastEmit(ss: seq<System>, ops: seq<Op>, i: nat, k: nat) returns (e: nat)
    requires IsRun(ss, ops) && i < |ss| && k < |ss[i].sessions| && ss[i].sessions[k].started
    ensures e < i && ops[e].Emit? && ops[e].k == k && NoEmit(ops, k, e + 1, i) && ss[i].sessions[k].sent == ops[e].snapshot
    ensures ss[i].sessions[k].token || ss[i].sessions[k].awake || ss[i].last == ss[e].last
  {
    e := i - 1;
    assert Stepped(ss, ops, i - 1);
    if ops[i - 1].Emit? && ops[i - 1].k == k {
    } else {
      assert k < |ss[i - 1].sessions|;
      StepWakes(ss[i - 1], ops[i - 1], k);
      e := LastEmit(ss, ops, i - 1, k);
    }
  }

  /** With the published values agreeing with the source, no wakeup pending and nothing in flight, the
      index is current if and only if the snapshot of the session's last emit, step `e`, agreed with
      the values published by then. */
  lemma DrainedIndexIsCurrent(ss: seq<System>, ops: seq<Op>, i: nat) returns (e: nat)
    requires IsRun(ss, ops) && i < |ss| && ss[i].ingress.session.Some? && ss[i].ingress.session.value < |ss[i].sessions|
    requires Quiet(ss[i], ss[i].ingress.session.value) && Settled(ss[i])
    ensures e < i && ops[e].Emit? && ops[e].k == ss[i].ingress.session.value && NoEmit(ops, ops[e].k, e + 1, i)
    ensures ss[i].ingress.index == Shown(ss[i].source) <==> Shown(ss[e].last) == Shown(ops[e].snapshot)
  {
    DrainedIndexIsSent(ss, ops, i);
    e := LastEmit(ss, ops, i, ss[i].ingress.session.value);
  }
}
