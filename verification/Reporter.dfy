/** The leaf's routing-state reporter (`pkg/leaf/state/reporter.go`, `routing.go`) as a class. */
module Reporting {
  import opened CapacityStream
  import opened StreamRuns

  /** One routing subscriber: its last sent view and its one-token wakeup channel. */
  class Subscriber {
    const configVersion: nat
    var sent: View
    var notify: bool

    constructor (version: nat)
      ensures configVersion == version && sent == map[] && !notify
    {
      configVersion, sent, notify := version, map[], false;
    }
  }

  class Reporter {
    var revision: nat
    var last: map<nat, Capacity>
    var subs: set<Subscriber>

    constructor ()
      ensures revision == 0 && last == map[] && subs == {}
    {
      revision, last, subs := 0, map[], {};
    }

    method Subscribe(version: nat) returns (sub: Subscriber)
      modifies `subs
      ensures fresh(sub) && subs == old(subs) + {sub} && sub.configVersion == version && sub.sent == map[] && !sub.notify
    {
      sub := new Subscriber(version);
      subs := subs + {sub};
    }

    /** emit: a frame that brings the subscriber from its own last view to the current source. */
    method EmitFrame(sub: Subscriber, current: View, healthyWorkers: nat, full: bool) returns (f: Frame)
      requires Keyed(current) && Keyed(sub.sent)
      modifies `revision, sub`sent
      ensures revision == old(revision) + 1 && sub.sent == current
      ensures f == Frame(sub.configVersion, revision, full, healthyWorkers, f.entries, old(sub.sent), current)
      ensures FrameOk(f, sub.configVersion, revision)
      ensures (if full then ApplyFull(f.entries) else ApplyDelta(Shown(old(sub.sent)), f.entries)) == Shown(current)
    {
      revision := revision + 1;
      var entries;
      if full {
        entries := ListCapacities(current);
        FullShowsView(current, entries);
      } else {
        entries := DiffCapacities(sub.sent, current);
        DeltaBringsForward(sub.sent, current, entries);
      }
      f := Frame(sub.configVersion, revision, full, healthyWorkers, entries, sub.sent, current);
      sub.sent := current;
    }

    /** notifyRoutingLocked: every subscriber ends up with exactly one wakeup pending. */
    method NotifyRouting()
      modifies subs`notify
      ensures forall s :: s in subs ==> s.notify
    {
      var rest := subs;
      while rest != {}
        invariant rest <= subs && forall s :: s in subs && s !in rest ==> s.notify
        decreases |rest|
      {
        var s :| s in rest;
        s.notify := true;
        rest := rest - {s};
      }
    }

    /** Publish: a change is remembered and announced; a repetition is neither. */
    method Publish(c: Capacity)
      modifies `last, subs`notify
      ensures var repeated := c.fn in old(last) && old(last)[c.fn] == c.(fn := old(last)[c.fn].fn);
              && last == (if repeated then old(last) else old(last)[c.fn := c])
              && (forall s :: s in subs ==> s.notify == (old(s.notify) || !repeated))
    {
      if c.fn in last && Same(last[c.fn], c) { return; }
      last := last[c.fn := c];
      NotifyRouting();
    }

    method PublishHeartbeat()
      modifies subs`notify
      ensures forall s :: s in subs ==> s.notify
    {
      NotifyRouting();
    }

    method PublishDeleted(id: nat)
      modifies `last, subs`notify
      ensures last == old(last)[id := Capacity(id, 0, 0, 0, true, 0)] && forall s :: s in subs ==> s.notify
    {
      last := last[id := Tombstone(id)];
      NotifyRouting();
    }
  }
}
