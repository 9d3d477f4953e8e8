/** No watch gets stuck: from every reachable state a live watch can bring its subscriber up to date. */
module ConfigProgress {
  import opened ConfigDistribution
  import opened Options

  /** The operations lead from `s` to `s'`, each enabled in its turn. */
  ghost predicate Leads(s: System, ops: seq<Op>, s': System)
    decreases |ops|
  {
    if ops == [] then s == s' else Enabled(s, ops[0]) && Leads(Apply(s, ops[0]), ops[1..], s')
  }

  lemma LeadsOn(s: System, op: Op, ops: seq<Op>, s': System)
    requires Enabled(s, op) && Leads(Apply(s, op), ops, s')
    ensures Leads(s, [op] + ops, s')
  {
    assert ([op] + ops)[1..] == ops;
  }

  /** What the goroutine of a watch and its connection do by themselves. */
  predicate Serves(op: Op, k: nat) { op == Wake(k) || op == Take(k) || op == Send(k) || op == Deliver }

  /** How much they have left to do. */
  ghost function Work(w: Watcher): nat {
    |w.queue| + (if w.token then 4 else 0) + match w.phase
                                            case Waiting => 0
                                            case Woken => 3
                                            case Sending(_) => 2
                                            case Ended => 0
  }

  /** Their next step, while there is something left. */
  ghost function NextOp(w: Watcher, k: nat): Op {
    match w.phase
    case Woken => Take(k)
    case Sending(_) => Send(k)
    case _ => if w.token then Wake(k) else Deliver
  }

  lemma WorkShrinks(s: System, k: nat)
    requires Inv(s) && s.sub.session == Some(k) && Live(s.watchers[k]) && Work(s.watchers[k]) > 0
    ensures var op := NextOp(s.watchers[k], k);
            && Serves(op, k) && Enabled(s, op)
            && var s' := Apply(s, op);
               && s'.sub.session == Some(k) && s'.store == s.store && |s'.watchers| == |s.watchers|
               && Live(s'.watchers[k]) && Work(s'.watchers[k]) < Work(s.watchers[k])
  {
  }

  lemma {:induction false} CatchUp(s: System, k: nat) returns (ops: seq<Op>, s': System)
    requires Inv(s) && s.sub.session == Some(k) && Live(s.watchers[k])
    ensures Leads(s, ops, s') && (forall i :: 0 <= i < |ops| ==> Serves(ops[i], k))
    ensures s'.store == s.store && s'.sub.current == s.store.current
    decreases Work(s.watchers[k])
  {
    if Work(s.watchers[k]) == 0 {
      ops, s' := [], s;
      assert WatcherOk(s.store, s.watchers[k]);
    } else {
      var op := NextOp(s.watchers[k], k);
      WorkShrinks(s, k);
      StepInv(s, op);
      ops, s' := CatchUp(Apply(s, op), k);
      LeadsOn(s, op, ops, s');
      ops := [op] + ops;
    }
  }

  /** In every state of every run whose subscriber reads a watch that has not ended, wakeups, takes, sends and
      deliveries of that watch alone can follow after which the subscriber holds the stored document. */
  lemma WatchCatchesUp(ss: seq<System>, ops: seq<Op>, i: nat) returns (more: seq<Op>, s': System)
    requires IsRun(ss, ops) && i < |ss| && ss[i].sub.session.Some? && ss[i].sub.session.value < |ss[i].watchers|
    requires var w := ss[i].watchers[ss[i].sub.session.value]; !w.closed && !w.phase.Ended?
    ensures Leads(ss[i], more, s') && (forall j :: 0 <= j < |more| ==> Serves(more[j], ss[i].sub.session.value))
    ensures s'.store == ss[i].store && s'.sub.current == ss[i].store.current
  {
    RunInv(ss, ops, i);
    more, s' := CatchUp(ss[i], ss[i].sub.session.value);
  }

  /** And as long as the store is open a subscriber can get such a watch: by connecting, after hanging up if it
      has another. */
  lemma ReconnectCatchesUp(ss: seq<System>, ops: seq<Op>, i: nat) returns (more: seq<Op>, s': System)
    requires IsRun(ss, ops) && i < |ss| && !ss[i].store.closed
    ensures Leads(ss[i], more, s') && s'.store == ss[i].store && s'.sub.current == ss[i].store.current
  {
    RunInv(ss, ops, i);
    var s := ss[i];
    var s1 := if s.sub.session.Some? then Apply(s, Disconnect) else s;
    if s.sub.session.Some? { StepInv(s, Disconnect); }
    StepInv(s1, Connect);
    more, s' := CatchUp(Apply(s1, Connect), |s1.watchers|);
    LeadsOn(s1, Connect, more, s');
    more := [Connect] + more;
    if s.sub.session.Some? {
      LeadsOn(s, Disconnect, more, s');
      more := [Disconnect] + more;
    }
  }
}
