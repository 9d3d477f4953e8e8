/** A short run in which max_instances does not hold. */
module EvictionExamples {
  import opened ActuatorModel
  import opened EvictionModel
  import opened MaxInstances

  lemma Extend(ss: seq<System>, ops: seq<Op>, op: Op) returns (ss': seq<System>, ops': seq<Op>)
    requires IsRun(ss, ops) && Enabled(ss[|ops|], op)
    ensures ss' == ss + [Apply(ss[|ops|], op)] && ops' == ops + [op] && IsRun(ss', ops')
  {
    ss', ops' := ss + [Apply(ss[|ops|], op)], ops + [op];
    forall i | 0 <= i < |ops'| ensures Stepped(ss', ops', i) {
      if i < |ops| { assert Stepped(ss, ops, i); }
    }
  }

  /** One worker that holds instance 7 or nothing. */
  function Alive(): Node { Register(Node(map[], 0, map[], map[], {}), 7) }

  /** One worker without sandboxes. */
  function Idle(): System {
    System(Actuator([Worker([], 0)], 0, 0, 0, 1, []), [Node(map[], 0, map[], map[], {})], {}, [], {}, {}, [])
  }

  /** A start of a strict batch: no target is enforced. */
  function Launch(): Op { StartJob(0, 7, Coordinated, false, false, 1) }

  function Sole(address: string, stopping: bool): Tracked { Tracked(7, address, stopping, 1) }

  function Launching(): System {
    Idle().(leaf := Actuator([Worker([], 1)], 0, 1, 0, 1, []), jobs := [Job(0, 7, true)])
  }

  lemma LaunchReserves()
    ensures ReserveStart(Idle().leaf, 0, Coordinated, false, false, 1) == Reserved(Launching().leaf)
  {
    assert Idle().leaf.workers[0 := Worker([], 1)] == [Worker([], 1)];
  }

  lemma LaunchBegins()
    ensures Enabled(Idle(), Launch()) && Apply(Idle(), Launch()) == Launching()
  {
    LaunchReserves();
    assert [] + [Job(0, 7, true)] == [Job(0, 7, true)];
  }

  /** A start of instance 7 with max_instances 1 is reserved, */
  lemma Begun() returns (ss: seq<System>, ops: seq<Op>)
    ensures IsRun(ss, ops) && ops == [Launch()] && ss[1] == Launching()
  {
    ss, ops := [Idle()], [];
    assert IsRun(ss, ops);
    LaunchBegins();
    ss, ops := Extend(ss, ops, Launch());
  }

  /** created, */
  lemma Booted(address: string) returns (ss: seq<System>, ops: seq<Op>)
    ensures IsRun(ss, ops) && ops == [Launch(), CreateSandbox(0, address)]
    ensures ss[2] == System(Actuator([Worker([], 1)], 0, 1, 0, 1, []), [Alive()], {Created(0, 7, 1, address)}, [Job(0, 7, true)], {}, {}, [])
  {
    ss, ops := Begun();
    ss, ops := Extend(ss, ops, CreateSandbox(0, address));
  }

  /** and, its response handled, tracked. */
  lemma Launched(address: string) returns (ss: seq<System>, ops: seq<Op>)
    requires address != ""
    ensures IsRun(ss, ops) && ops == [Launch(), CreateSandbox(0, address), FinishJob(0, Created(0, 7, 1, address), true)]
    ensures ss[3] == System(Actuator([Worker([Sole(address, false)], 0)], 1, 0, 0, 1, []), [Alive()],
                            {Created(0, 7, 1, address)}, [Job(0, 7, false)], {7}, {7}, [])
  {
    ss, ops := Booted(address);
    ss, ops := Extend(ss, ops, FinishJob(0, Created(0, 7, 1, address), true));
    assert [] + [Sole(address, false)] == [Sole(address, false)];
  }

  lemma MarkSole(address: string)
    ensures var t, t' := Sole(address, false), Sole(address, true);
            MarkAll([Worker([t], 0)], 1) == ([Worker([t'], 0)], [Victim(0, 7, address)])
  {
    var t, t' := Sole(address, false), Sole(address, true);
    assert [t][..0] == [] && [Worker([t], 0)][..0] == [];
    assert Mark(0, [], 1) == ([], []);
    assert Mark(0, [t], 1).0 == [t'] && Mark(0, [t], 1).1 == [Victim(0, 7, address)];
    assert MarkAll([], 1) == ([], []);
    var (workers, out) := MarkAll([Worker([t], 0)], 1);
    assert workers == [Worker([t'], 0)] && out == [Victim(0, 7, address)];
  }

  /** With max_instances 1 in every start, the only instance is told to stop, its replacement may
      start, draining the first one fails, and the decisions lead to two instances. */
  lemma CancelledStopExceedsMax() returns (ss: seq<System>, ops: seq<Op>)
    ensures IsRun(ss, ops) && |ops| == 6 && Capped(ops, 6, 1)
    ensures Future(ss[5].leaf) == 1 && CancelsStop(ss[5], ops[5]) && Future(ss[6].leaf) == 2
  {
    ss, ops := Launched("host");
    MarkSole("host");
    ss, ops := Extend(ss, ops, Choose(StopSome(1)));
    assert ss[4].leaf == Actuator([Worker([Sole("host", true)], 0)], 1, 0, 1, 1, []);
    assert ss[4].stops == [StopCall(Victim(0, 7, "host"), Draining)];
    ss, ops := Extend(ss, ops, StartJob(0, 8, Coordinated, false, false, 1));
    assert ss[5].leaf == Actuator([Worker([Sole("host", true)], 1)], 1, 1, 1, 1, []);
    assert Find([Sole("host", true)], 7) == 0;
    ss, ops := Extend(ss, ops, FailStop(0));
  }
}
