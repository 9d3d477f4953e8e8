/** A run in which the routing index stays behind its source although nothing is left to do. */
module StreamExamples {
  import opened CapacityStream
  import opened Options
  import opened StreamRuns

  lemma Extend(ss: seq<System>, ops: seq<Op>, op: Op) returns (ss': seq<System>, ops': seq<Op>)
    requires IsRun(ss, ops) && Enabled(ss[|ops|], op)
    ensures ss' == ss + [Apply(ss[|ops|], op)] && ops' == ops + [op] && IsRun(ss', ops')
  {
    ss', ops' := ss + [Apply(ss[|ops|], op)], ops + [op];
    forall i | 0 <= i < |ops'| ensures Stepped(ss', ops', i) {
      if i < |ops| { assert Stepped(ss, ops, i); }
    }
  }

  /** A session that starts while the source holds the transient value `b`. */
  lemma StartedOn(a: Capacity, b: Capacity) returns (ss: seq<System>, ops: seq<Op>)
    requires a.fn == b.fn
    ensures IsRun(ss, ops) && |ops| == 4
    ensures ss[4] == System(map[a.fn := b], map[a.fn := a], 1,
                            [Session(0, true, false, false, map[a.fn := b], [Frame(0, 1, true, 1, [b], map[], map[a.fn := b])])],
                            Ingress(0, None, map[], false, Some(0), None))
  {
    var s := System(map[a.fn := a], map[], 0, [], Ingress(0, None, map[], false, None, None));
    assert IsRun([s], []);
    ss, ops := Extend([s], [], Publish(a));
    assert ss[1] == s.(last := map[a.fn := a]);
    ss, ops := Extend(ss, ops, Connect);
    assert ss[2].sessions == [Session(0, false, false, false, map[], [])];
    ss, ops := Extend(ss, ops, ChangeSource(map[a.fn := b]));
    assert Lists(ss[3].source, [b]);
    ss, ops := Extend(ss, ops, Emit(0, 1, map[a.fn := b], [b]));
    assert [] + [Frame(0, 1, true, 1, [b], map[], map[a.fn := b])] == [Frame(0, 1, true, 1, [b], map[], map[a.fn := b])];
  }

  /** The value `a` was published; a session sends the transient value `b`; the source returns to `a`,
      and publishing that again wakes nobody. The index shows `b` until something else wakes the session. */
  lemma StaleUntilWoken(a: Capacity, b: Capacity) returns (ss: seq<System>, ops: seq<Op>)
    requires a.fn == b.fn && a.available != b.available && !a.deleted && !b.deleted
    ensures IsRun(ss, ops) && |ops| == 7 && ss[7].ingress.session == Some(0) && |ss[7].sessions| == 1
    ensures Quiet(ss[7], 0) && Settled(ss[7]) && ss[7].ingress.index != Shown(ss[7].source)
  {
    ss, ops := StartedOn(a, b);
    ss, ops := Extend(ss, ops, Deliver);
    ss, ops := Extend(ss, ops, ChangeSource(map[a.fn := a]));
    ss, ops := Extend(ss, ops, Publish(a));
    assert ss[7].ingress.index == Shown(map[a.fn := b]) by { DrainedIndexIsSent(ss, ops, 7); }
    assert Shown(map[a.fn := b])[a.fn] == b.available && Shown(map[a.fn := a])[a.fn] == a.available;
  }
}
