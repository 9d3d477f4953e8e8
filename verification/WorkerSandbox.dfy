/** The worker's revisioned sandbox map of `pkg/worker/sandbox.go` as a class. */
module WorkerSandbox {
  import opened EvictionModel
  import opened EvictionProofs

  /** The buffer of one removal subscriber. */
  const BUFFER: nat := 64

  datatype Event = Event(id: nat, revision: nat)

  /** What a non-blocking send leaves in a subscriber's channel. */
  function Offered(channel: seq<Event>, e: Event): seq<Event> {
    if |channel| < BUFFER then channel + [e] else channel
  }

  function OfferedToAll(subs: map<nat, seq<Event>>, e: Event): map<nat, seq<Event>> {
    map k | k in subs :: Offered(subs[k], e)
  }

  /** Channels hold at most their capacity, and only events of actual removals. */
  ghost predicate ChannelOk(channel: seq<Event>, removed: map<nat, nat>) {
    |channel| <= BUFFER && forall e :: e in channel ==> e.id in removed && removed[e.id] == e.revision
  }

  ghost predicate SubsOk(subs: map<nat, seq<Event>>, next: nat, removed: map<nat, nat>) {
    forall k :: k in subs ==> k < next && ChannelOk(subs[k], removed)
  }

  class SandboxHost {
    var instances: map<nat, nat>
    var stateRevision: nat
    var removalsSubs: map<nat, seq<Event>>
    var removalsNext: nat
    ghost var created: map<nat, nat>
    ghost var removed: map<nat, nat>
    ghost var exited: set<nat>

    ghost function State(): Node
      reads this
    {
      Node(instances, stateRevision, created, removed, exited)
    }

    ghost predicate Valid()
      reads this
    {
      NodeOk(State()) && SubsOk(removalsSubs, removalsNext, removed)
    }

    constructor ()
      ensures Valid() && State() == Node(map[], 0, map[], map[], {})
    {
      instances, stateRevision, removalsSubs, removalsNext := map[], 0, map[], 0;
      created, removed, exited := map[], map[], {};
    }

    /** The registration in CreateSandbox. An id still in the map is overwritten under its new revision;
        the history stays one creation and one removal per id exactly if the id was not removed before. */
    method RegisterInstance(id: nat) returns (revision: nat)
      requires Valid()
      modifies `instances, `stateRevision, `created
      ensures State() == Register(old(State()), id) && revision == created[id] == stateRevision == old(stateRevision) + 1
      ensures instances == old(instances)[id := revision]
      ensures Valid() <==> id !in old(removed)
    {
      ReregisterOk(State(), id);
      stateRevision := stateRevision + 1;
      revision := stateRevision;
      instances := instances[id := revision];
      created := created[id := revision];
    }

    /** SandboxStateSnapshot: the ids of the map with the revision they hold at. */
    method SandboxStateSnapshot() returns (ids: set<nat>, revision: nat)
      requires Valid()
      ensures revision == stateRevision && ids == instances.Keys == LiveAt(State(), revision)
    {
      ids, revision := {}, stateRevision;
      var rest := instances.Keys;
      while rest != {}
        invariant rest <= instances.Keys && ids == instances.Keys - rest
        decreases |rest|
      {
        var id :| id in rest;
        ids := ids + {id};
        rest := rest - {id};
      }
    }

    /** removeInstanceInternal: an instance leaves the map at a revision of its own, and every
        subscriber with room is told, exactly once and with that revision. */
    method DeleteAndNotify(id: nat, notify: bool)
      modifies `instances, `stateRevision, `removed, `removalsSubs
      ensures State() == Unregister(old(State()), id)
      ensures removalsSubs == if notify && id in old(instances)
                              then OfferedToAll(old(removalsSubs), Event(id, stateRevision)) else old(removalsSubs)
    {
      if id !in instances { return; }
      instances := instances - {id};
      stateRevision := stateRevision + 1;
      removed := removed[id := stateRevision];
      if notify { BroadcastRemoval(Event(id, stateRevision)); }
    }

    method RemoveInstanceInternal(id: nat, notify: bool)
      requires Valid()
      modifies `instances, `stateRevision, `removed, `removalsSubs
      ensures Valid() && State() == Unregister(old(State()), id)
      ensures instances == old(instances) - {id} && stateRevision == old(stateRevision) + if id in old(instances) then 1 else 0
      ensures removalsSubs.Keys == old(removalsSubs).Keys
      ensures forall k :: k in removalsSubs ==>
                removalsSubs[k] == if notify && id in old(instances) && |old(removalsSubs)[k]| < 64
                                   then old(removalsSubs)[k] + [Event(id, stateRevision)] else old(removalsSubs)[k]
    {
      UnregisterOk(State(), id);
      if id in instances { }
      DeleteAndNotify(id, notify);
      assert removed == Unregister(old(State()), id).removed;
    }

    /** broadcastRemoval: a non-blocking send to every subscriber. */
    method BroadcastRemoval(e: Event)
      modifies `removalsSubs
      ensures removalsSubs == OfferedToAll(old(removalsSubs), e) && removalsSubs.Keys == old(removalsSubs).Keys
      ensures forall k :: k in removalsSubs ==>
                removalsSubs[k] == if |old(removalsSubs)[k]| < 64 then old(removalsSubs)[k] + [e] else old(removalsSubs)[k]
    {
      var rest := removalsSubs.Keys;
      while rest != {}
        invariant rest <= removalsSubs.Keys == old(removalsSubs).Keys
        invariant forall k :: k in removalsSubs ==>
          removalsSubs[k] == if k in rest then old(removalsSubs)[k] else Offered(old(removalsSubs)[k], e)
        decreases |rest|
      {
        var k :| k in rest;
        if |removalsSubs[k]| < BUFFER { removalsSubs := removalsSubs[k := removalsSubs[k] + [e]]; }
        rest := rest - {k};
      }
    }

    /** SubscribeSandboxRemovals. */
    method Subscribe() returns (k: nat)
      requires Valid()
      modifies `removalsSubs, `removalsNext
      ensures Valid() && State() == old(State()) && k !in old(removalsSubs) && removalsSubs == old(removalsSubs)[k := []]
    {
      k := removalsNext;
      removalsNext := removalsNext + 1;
      removalsSubs := removalsSubs[k := []];
    }
  }
}
