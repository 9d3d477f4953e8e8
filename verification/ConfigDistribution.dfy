/** Distribution of the platform configuration: the versioned store and its latest-wins mailboxes
    (`pkg/controlplane/store/memory/memory.go`), and the subscriber that applies only newer
    documents (`pkg/controlplaneclient/config.go`). */
module ConfigDistribution {
  import opened Options

  datatype Doc = Doc(version: nat, body: nat)

  /** Where the goroutine that serves one watch is. */
  datatype Phase = Waiting | Woken | Sending(doc: Doc) | Ended

  /** A mailbox with its goroutine, the documents on their way to the subscriber in order, and the
      version last delivered from here. */
  datatype Watcher = Watcher(latest: Option<Doc>, token: bool, closed: bool, phase: Phase, queue: seq<Doc>, delivered: nat)

  datatype Store = Store(version: nat, current: Option<Doc>, closed: bool)

  /** The subscriber's document and the watch it reads; `applied` is every version it installed. */
  datatype Subscriber = Subscriber(current: Option<Doc>, session: Option<nat>, applied: seq<nat>)

  datatype System = System(store: Store, watchers: seq<Watcher>, sub: Subscriber)

  // ---------------------------------------------------------------- operations

  /** configWatcher.set. */
  function Set(w: Watcher, doc: Doc): Watcher {
    if w.closed then w else w.(latest := Some(doc), token := true)
  }

  function Shut(w: Watcher): Watcher { w.(closed := true, token := true) }

  predicate PutSucceeds(s: Store, expected: nat) { !s.closed && (expected == 0 || expected == s.version) }

  function NewDoc(s: Store, body: nat): Doc { Doc(s.version + 1, body) }

  function Mapped(ws: seq<Watcher>, f: Watcher -> Watcher): seq<Watcher> {
    seq(|ws|, i requires 0 <= i < |ws| => f(ws[i]))
  }

  /** take, after a wakeup. */
  function Taken(w: Watcher): Watcher {
    var emptied := w.(latest := None);
    if w.closed then emptied.(phase := Ended)
    else if w.latest.None? then emptied.(phase := Waiting)
    else emptied.(phase := Sending(w.latest.value))
  }

  /** ConfigSubscriber.apply. */
  function Applied(u: Subscriber, doc: Doc): Subscriber {
    if u.current.Some? && doc.version <= u.current.value.version then u
    else u.(current := Some(doc), applied := u.applied + [doc.version])
  }

  function Seeded(s: Store): Watcher {
    Watcher(s.current, s.current.Some?, false, Waiting, [], 0)
  }

  datatype Op =
    | Put(body: nat, expected: nat)
    | Close
    | Wake(k: nat)
    | Take(k: nat)
    | Send(k: nat)
    | CancelWatch(k: nat)
    | Connect
    | Disconnect
    | Deliver

  predicate Enabled(s: System, op: Op) {
    match op
    case Put(_, _) => true
    case Close => true
    case Wake(k) => k < |s.watchers| && s.watchers[k].phase == Waiting && s.watchers[k].token
    case Take(k) => k < |s.watchers| && s.watchers[k].phase == Woken
    case Send(k) => k < |s.watchers| && s.watchers[k].phase.Sending?
    case CancelWatch(k) => k < |s.watchers| && (s.watchers[k].phase == Waiting || s.watchers[k].phase.Sending?)
    case Connect => s.sub.session.None? && !s.store.closed
    case Disconnect => s.sub.session.Some?
    case Deliver => s.sub.session.Some? && s.sub.session.value < |s.watchers| && s.watchers[s.sub.session.value].queue != []
  }

  function With(s: System, k: nat, w: Watcher): System
    requires k < |s.watchers|
  {
    s.(watchers := s.watchers[k := w])
  }

  function Apply(s: System, op: Op): System
    requires Enabled(s, op)
  {
    match op
    case Put(body, expected) =>
      if !PutSucceeds(s.store, expected) then s
      else
        var doc := NewDoc(s.store, body);
        System(s.store.(version := doc.version, current := Some(doc)), Mapped(s.watchers, (w: Watcher) => Set(w, doc)), s.sub)
    case Close => s.(store := s.store.(closed := true), watchers := Mapped(s.watchers, (w: Watcher) => Shut(w)))
    case Wake(k) => With(s, k, s.watchers[k].(token := false, phase := Woken))
    case Take(k) => With(s, k, Taken(s.watchers[k]))
    case Send(k) => With(s, k, s.watchers[k].(phase := Waiting, queue := s.watchers[k].queue + [s.watchers[k].phase.doc]))
    case CancelWatch(k) => With(s, k, s.watchers[k].(phase := Ended))
    case Connect => s.(watchers := s.watchers + [Seeded(s.store)], sub := s.sub.(session := Some(|s.watchers|)))
    case Disconnect => s.(sub := s.sub.(session := None))
    case Deliver =>
      var k := s.sub.session.value;
      var w := s.watchers[k];
      With(s, k, w.(queue := w.queue[1..], delivered := w.queue[0].version)).(sub := Applied(s.sub, w.queue[0]))
  }

  // ----------------------------------------------------------------- invariant

  /** A document is no newer than the store, and if it is as new it is the stored one. */
  ghost predicate DocOk(s: Store, doc: Doc) {
    doc.version <= s.version && (doc.version == s.version ==> s.current == Some(doc))
  }

  /** A pending document has a wakeup token or a goroutine about to take it. */
  ghost predicate Pending(w: Watcher) { w.latest.Some? && !w.phase.Ended? ==> w.token || w.phase == Woken }

  /** The version of the newest document that has entered this watch. */
  ghost function Newest(w: Watcher): nat {
    if w.latest.Some? then w.latest.value.version
    else if w.phase.Sending? then w.phase.doc.version
    else if w.queue != [] then w.queue[|w.queue| - 1].version
    else w.delivered
  }

  ghost predicate Live(w: Watcher) { !w.phase.Ended? && !w.closed }

  ghost predicate WatcherOk(s: Store, w: Watcher) {
    && Pending(w) && (Live(w) ==> Newest(w) == s.version) && w.delivered <= s.version
    && (w.latest.Some? ==> DocOk(s, w.latest.value)) && (w.phase.Sending? ==> DocOk(s, w.phase.doc))
    && (forall i :: 0 <= i < |w.queue| ==> DocOk(s, w.queue[i]))
  }

  ghost predicate SubOk(s: Store, u: Subscriber, ws: seq<Watcher>) {
    && (u.current.Some? ==> DocOk(s, u.current.value) && u.applied != [] && u.applied[|u.applied| - 1] == u.current.value.version)
    && (u.current.None? ==> u.applied == [])
    && (forall i, j :: 0 <= i < j < |u.applied| ==> u.applied[i] < u.applied[j])
    && (u.session.Some? ==>
          && u.session.value < |ws|
          && var d := ws[u.session.value].delivered;
             d == 0 || (u.current.Some? && d <= u.current.value.version))
  }

  ghost predicate Inv(s: System) {
    && (s.store.version == 0 <==> s.store.current.None?) && (s.store.current.Some? ==> s.store.current.value.version == s.store.version)
    && (forall k :: 0 <= k < |s.watchers| ==> WatcherOk(s.store, s.watchers[k]))
    && SubOk(s.store, s.sub, s.watchers)
  }

  lemma PutOk(s: System, body: nat, expected: nat)
    requires Inv(s)
    ensures Inv(Apply(s, Put(body, expected)))
  {
    if PutSucceeds(s.store, expected) {
      var doc := NewDoc(s.store, body);
      var s' := Apply(s, Put(body, expected));
      forall k | 0 <= k < |s.watchers| ensures WatcherOk(s'.store, s'.watchers[k]) {
        assert WatcherOk(s.store, s.watchers[k]);
        assert s'.watchers[k] == Set(s.watchers[k], doc);
      }
    }
  }

  lemma CloseOk(s: System)
    requires Inv(s)
    ensures Inv(Apply(s, Close))
  {
    var s' := Apply(s, Close);
    forall k | 0 <= k < |s.watchers| ensures WatcherOk(s'.store, s'.watchers[k]) {
      assert WatcherOk(s.store, s.watchers[k]);
      assert s'.watchers[k] == Shut(s.watchers[k]);
    }
  }

  lemma DeliverOk(s: System)
    requires Inv(s) && Enabled(s, Deliver)
    ensures Inv(Apply(s, Deliver))
  {
    var k := s.sub.session.value;
    var w := s.watchers[k];
    assert WatcherOk(s.store, w) && DocOk(s.store, w.queue[0]);
    var w' := w.(queue := w.queue[1..], delivered := w.queue[0].version);
    assert WatcherOk(s.store, w') by {
      forall i | 0 <= i < |w'.queue| ensures DocOk(s.store, w'.queue[i]) { assert w'.queue[i] == w.queue[i + 1]; }
    }
    assert SubOk(s.store, Applied(s.sub, w.queue[0]), s.watchers[k := w']);
  }

  lemma WatcherStepOk(s: System, k: nat, w: Watcher)
    requires Inv(s) && k < |s.watchers| && WatcherOk(s.store, w) && w.delivered == s.watchers[k].delivered
    ensures Inv(With(s, k, w))
  {
  }

  lemma ServeOk(s: Store, w: Watcher)
    requires WatcherOk(s, w)
    ensures w.phase == Waiting && w.token ==> WatcherOk(s, w.(token := false, phase := Woken))
    ensures w.phase == Woken ==> WatcherOk(s, Taken(w))
    ensures w.phase.Sending? ==> WatcherOk(s, w.(phase := Waiting, queue := w.queue + [w.phase.doc]))
    ensures WatcherOk(s, w.(phase := Ended))
  {
  }

  lemma ConnectOk(s: System)
    requires Inv(s) && Enabled(s, Connect)
    ensures Inv(Apply(s, Connect))
  {
    assert WatcherOk(s.store, Seeded(s.store));
  }

  lemma StepInv(s: System, op: Op)
    requires Inv(s) && Enabled(s, op)
    ensures Inv(Apply(s, op))
  {
    if op.Wake? || op.Take? || op.Send? || op.CancelWatch? { ServeOk(s.store, s.watchers[op.k]); }
    match op
    case Put(body, expected) => PutOk(s, body, expected);
    case Close => CloseOk(s);
    case Deliver => DeliverOk(s);
    case Connect => ConnectOk(s);
    case Wake(k) => WatcherStepOk(s, k, Apply(s, op).watchers[k]);
    case Take(k) => WatcherStepOk(s, k, Apply(s, op).watchers[k]);
    case Send(k) => WatcherStepOk(s, k, Apply(s, op).watchers[k]);
    case CancelWatch(k) => WatcherStepOk(s, k, Apply(s, op).watchers[k]);
    case Disconnect =>
  }

  // ---------------------------------------------------------------------- runs

  ghost predicate Stepped(ss: seq<System>, ops: seq<Op>, i: nat)
    requires i < |ops| && |ss| == |ops| + 1
  {
    Enabled(ss[i], ops[i]) && ss[i + 1] == Apply(ss[i], ops[i])
  }

  ghost predicate IsRun(ss: seq<System>, ops: seq<Op>) {
    && |ss| == |ops| + 1 && ss[0] == System(Store(0, None, false), [], Subscriber(None, None, []))
    && forall i :: 0 <= i < |ops| ==> Stepped(ss, ops, i)
  }

  lemma {:induction false} RunInv(ss: seq<System>, ops: seq<Op>, i: nat)
    requires IsRun(ss, ops) && i < |ss|
    ensures Inv(ss[i])
  {
    if i == 0 {
    } else {
      RunInv(ss, ops, i - 1);
      assert Stepped(ss, ops, i - 1);
      StepInv(ss[i - 1], ops[i - 1]);
    }
  }

  /** A subscriber installs strictly increasing versions, across reconnects and duplicates. */
  lemma VersionsIncrease(ss: seq<System>, ops: seq<Op>, i: nat, a: nat, b: nat)
    requires IsRun(ss, ops) && i < |ss| && a < b < |ss[i].sub.applied|
    ensures ss[i].sub.applied[a] < ss[i].sub.applied[b] <= ss[i].store.version
  {
    RunInv(ss, ops, i);
    var u := ss[i].sub;
    assert b < |u.applied| - 1 ==> u.applied[b] < u.applied[|u.applied| - 1];
  }

  /** No wakeup is lost: a pending document has a token or a taker while its watch lives. */
  lemma PendingHasWakeup(ss: seq<System>, ops: seq<Op>, i: nat, k: nat)
    requires IsRun(ss, ops) && i < |ss| && k < |ss[i].watchers| && ss[i].watchers[k].latest.Some? && !ss[i].watchers[k].phase.Ended?
    ensures ss[i].watchers[k].token || ss[i].watchers[k].phase == Woken
  {
    RunInv(ss, ops, i);
    assert WatcherOk(ss[i].store, ss[i].watchers[k]);
  }

  /** When a live watch has nothing left to do the subscriber holds the stored document. */
  lemma QuiescentIsLatest(ss: seq<System>, ops: seq<Op>, i: nat)
    requires IsRun(ss, ops) && i < |ss| && ss[i].sub.session.Some? && ss[i].sub.session.value < |ss[i].watchers|
    requires var w := ss[i].watchers[ss[i].sub.session.value];
             Live(w) && w.phase == Waiting && !w.token && w.queue == []
    ensures ss[i].sub.current == ss[i].store.current
  {
    RunInv(ss, ops, i);
    assert WatcherOk(ss[i].store, ss[i].watchers[ss[i].sub.session.value]);
  }

  lemma {:induction false} VersionGrows(ss: seq<System>, ops: seq<Op>, i: nat, j: nat)
    requires IsRun(ss, ops) && i <= j < |ss|
    ensures ss[i].store.version <= ss[j].store.version
    ensures ss[i].store.version == ss[j].store.version ==> ss[i].store.current == ss[j].store.current
    decreases j
  {
    if i == j {
    } else {
      VersionGrows(ss, ops, i, j - 1);
      assert Stepped(ss, ops, j - 1);
    }
  }

  /** A conditional put succeeds only if nothing was written since the version it names was read:
      no put between the two succeeded, and it replaces the very document that was read. */
  lemma ConditionalPutIsAtomic(ss: seq<System>, ops: seq<Op>, i: nat, j: nat, m: nat)
    requires IsRun(ss, ops) && i <= m < j < |ops| && ops[j].Put? && ops[j].expected != 0
    requires ss[i].store.version == ops[j].expected && ss[j + 1].store.version != ss[j].store.version
    ensures !(ops[m].Put? && PutSucceeds(ss[m].store, ops[m].expected)) && ss[j].store.current == ss[i].store.current
  {
    assert Stepped(ss, ops, j) && Stepped(ss, ops, m);
    VersionGrows(ss, ops, i, m);
    VersionGrows(ss, ops, m + 1, j);
    VersionGrows(ss, ops, i, j);
  }

  // ----------------------------------------------------------------- documents

  /** Step `k` is a put that succeeds: the store is open and the expected version, if any, is current. */
  ghost predicate PutAt(ss: seq<System>, ops: seq<Op>, k: nat)
    requires k < |ops| && |ss| == |ops| + 1
  {
    ops[k].Put? && !ss[k].store.closed && (ops[k].expected == 0 || ops[k].expected == ss[k].store.version)
  }

  /** A document is what some successful put before step `i` was given, under the next version of then. */
  ghost predicate WasPut(ss: seq<System>, ops: seq<Op>, i: nat, doc: Doc)
    requires i <= |ops| && |ss| == |ops| + 1
  {
    exists k :: 0 <= k < i && PutAt(ss, ops, k) && doc == Doc(ss[k].store.version + 1, ops[k].body)
  }

  ghost predicate WatcherPut(ss: seq<System>, ops: seq<Op>, i: nat, w: Watcher)
    requires i <= |ops| && |ss| == |ops| + 1
  {
    && (w.latest.Some? ==> WasPut(ss, ops, i, w.latest.value)) && (w.phase.Sending? ==> WasPut(ss, ops, i, w.phase.doc))
    && (forall n :: 0 <= n < |w.queue| ==> WasPut(ss, ops, i, w.queue[n]))
  }

  ghost predicate AllPut(ss: seq<System>, ops: seq<Op>, i: nat)
    requires i <= |ops| && |ss| == |ops| + 1
  {
    && (ss[i].store.current.Some? ==> WasPut(ss, ops, i, ss[i].store.current.value))
    && (ss[i].sub.current.Some? ==> WasPut(ss, ops, i, ss[i].sub.current.value))
    && (forall k :: 0 <= k < |ss[i].watchers| ==> WatcherPut(ss, ops, i, ss[i].watchers[k]))
  }

  lemma StillPut(ss: seq<System>, ops: seq<Op>, i: nat, w: Watcher)
    requires i < |ops| && |ss| == |ops| + 1 && WatcherPut(ss, ops, i, w)
    ensures WatcherPut(ss, ops, i + 1, w)
  {
  }

  /** A step that is not a put hands documents on. */
  lemma HandedOn(ss: seq<System>, ops: seq<Op>, i: nat)
    requires i < |ops| && |ss| == |ops| + 1 && Stepped(ss, ops, i) && AllPut(ss, ops, i) && !ops[i].Put?
    ensures AllPut(ss, ops, i + 1)
  {
    var s, s' := ss[i], ss[i + 1];
    forall k | 0 <= k < |s.watchers| ensures WatcherPut(ss, ops, i + 1, s.watchers[k]) { StillPut(ss, ops, i, s.watchers[k]); }
    if ops[i].Deliver? {
      var w := s.watchers[s.sub.session.value];
      assert WatcherPut(ss, ops, i + 1, w) && WasPut(ss, ops, i + 1, w.queue[0]);
      assert forall n :: 0 <= n < |w.queue| - 1 ==> w.queue[1..][n] == w.queue[n + 1];
    }
    forall k | 0 <= k < |s'.watchers| ensures WatcherPut(ss, ops, i + 1, s'.watchers[k]) {
      if k < |s.watchers| { assert WatcherPut(ss, ops, i + 1, s.watchers[k]); }
    }
  }

  lemma PutHandsOut(ss: seq<System>, ops: seq<Op>, i: nat)
    requires i < |ops| && |ss| == |ops| + 1 && Stepped(ss, ops, i) && AllPut(ss, ops, i) && ops[i].Put?
    ensures AllPut(ss, ops, i + 1)
  {
    var s, s' := ss[i], ss[i + 1];
    if PutAt(ss, ops, i) { assert WasPut(ss, ops, i + 1, Doc(s.store.version + 1, ops[i].body)); }
    forall k | 0 <= k < |s'.watchers| ensures WatcherPut(ss, ops, i + 1, s'.watchers[k]) { StillPut(ss, ops, i, s.watchers[k]); }
  }

  lemma {:induction false} RunPut(ss: seq<System>, ops: seq<Op>, i: nat)
    requires IsRun(ss, ops) && i < |ss|
    ensures AllPut(ss, ops, i)
  {
    if i == 0 {
    } else {
      RunPut(ss, ops, i - 1);
      assert Stepped(ss, ops, i - 1);
      if ops[i - 1].Put? { PutHandsOut(ss, ops, i - 1); } else { HandedOn(ss, ops, i - 1); }
    }
  }

  /** What a subscriber holds is, version and body, what a successful put was given. */
  lemma HeldWasPut(ss: seq<System>, ops: seq<Op>, i: nat)
    requires IsRun(ss, ops) && i < |ss| && ss[i].sub.current.Some?
    ensures exists k :: 0 <= k < i && PutAt(ss, ops, k) && ss[i].sub.current == Some(Doc(ss[k].store.version + 1, ops[k].body))
  {
    RunPut(ss, ops, i);
  }

  lemma StoreKept(s: System, op: Op)
    requires Enabled(s, op) && !(op.Put? && PutSucceeds(s.store, op.expected))
    ensures Apply(s, op).store.current == s.store.current && Apply(s, op).store.version == s.store.version
  {
  }

  /** The store holds the document of its latest successful put, step `k`, and its version. */
  lemma {:induction false} StoredIsLatestPut(ss: seq<System>, ops: seq<Op>, k: nat, i: nat)
    requires IsRun(ss, ops) && k < i < |ss| && PutAt(ss, ops, k) && forall j :: k < j < i ==> !PutAt(ss, ops, j)
    ensures ss[i].store.current == Some(Doc(ss[k].store.version + 1, ops[k].body)) && ss[i].store.version == ss[k].store.version + 1
    decreases i
  {
    assert Stepped(ss, ops, i - 1);
    if i == k + 1 {
    } else {
      StoredIsLatestPut(ss, ops, k, i - 1);
      assert !PutAt(ss, ops, i - 1);
      StoreKept(ss[i - 1], ops[i - 1]);
    }
  }
}
