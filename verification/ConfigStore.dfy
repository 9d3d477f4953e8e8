/** The mailbox, the store and the subscriber as classes. */
module ConfigStore {
  import opened ConfigDistribution
  import opened Options

  /** configWatcher: always the newest pending document, and one wakeup token. */
  class ConfigWatcher {
    var latest: Option<Doc>
    var token: bool
    var closed: bool

    constructor ()
      ensures latest == None && !token && !closed
    {
      latest, token, closed := None, false, false;
    }

    /** A document left in an open mailbox replaces the one before and leaves a token. */
    method Set(doc: Doc)
      modifies this
      ensures closed == old(closed)
      ensures if closed then latest == old(latest) && token == old(token) else latest == Some(doc) && token
    {
      if closed { return; }
      latest := Some(doc);
      token := true;
    }

    method Take() returns (doc: Option<Doc>, open: bool)
      modifies `latest
      ensures doc == old(latest) && latest == None && open == !closed
    {
      doc, latest, open := latest, None, !closed;
    }

    method Close()
      modifies `closed, `token
      ensures closed && token
    {
      closed, token := true, true;
    }
  }

  datatype PutResult = Stored(doc: Doc) | StoreClosed | VersionChanged(current: nat)

  class MemoryStore {
    var configVersion: nat
    var platformConfig: Option<Doc>
    var configWatchers: seq<ConfigWatcher>
    var closed: bool

    ghost function State(): Store
      reads this
    {
      Store(configVersion, platformConfig, closed)
    }

    constructor ()
      ensures State() == Store(0, None, false) && configWatchers == []
    {
      configVersion, platformConfig, configWatchers, closed := 0, None, [], false;
    }

    /** emitConfigLocked: every open mailbox ends up with this document and a token. */
    method EmitConfig(doc: Doc)
      modifies configWatchers
      ensures forall w :: w in configWatchers && !w.closed ==> w.latest == Some(doc) && w.token
      ensures forall w :: w in configWatchers ==> w.closed == old(w.closed)
    {
      var i := 0;
      while i < |configWatchers|
        invariant i <= |configWatchers| && forall w :: w in configWatchers ==> w.closed == old(w.closed)
        invariant forall k :: 0 <= k < i && !configWatchers[k].closed ==> configWatchers[k].latest == Some(doc) && configWatchers[k].token
      {
        configWatchers[i].Set(doc);
        i := i + 1;
      }
    }

    /** PutPlatformConfig: succeeds exactly if the store is open and the expected version, if any,
        is the current one; then the version grows by one and every open mailbox is told. */
    method PutPlatformConfig(body: nat, expected: nat) returns (r: PutResult)
      modifies `configVersion, `platformConfig, configWatchers
      ensures r.Stored? <==> !old(closed) && (expected == 0 || expected == old(configVersion))
      ensures r.StoreClosed? <==> old(closed)
      ensures r.Stored? ==> && r.doc == Doc(old(configVersion) + 1, body) == NewDoc(old(State()), body)
                            && State() == Store(r.doc.version, Some(r.doc), false)
                            && forall w :: w in configWatchers && !w.closed ==> w.latest == Some(r.doc) && w.token
      ensures !r.Stored? ==> State() == old(State())
      ensures r.VersionChanged? ==> r.current == configVersion != expected
    {
      if closed { return StoreClosed; }
      if expected != 0 && expected != configVersion { return VersionChanged(configVersion); }
      configVersion := configVersion + 1;
      var stored := Doc(configVersion, body);
      platformConfig := Some(stored);
      EmitConfig(stored);
      r := Stored(stored);
    }

    /** WatchPlatformConfig: a mailbox seeded with the current document. */
    method WatchPlatformConfig() returns (w: ConfigWatcher?)
      modifies `configWatchers
      ensures w == null <==> closed
      ensures w != null ==> fresh(w) && configWatchers == old(configWatchers) + [w] && !w.closed
                            && w.latest == platformConfig && w.token == platformConfig.Some?
      ensures w == null ==> configWatchers == old(configWatchers)
    {
      if closed { return null; }
      var x := new ConfigWatcher();
      if platformConfig.Some? { x.Set(platformConfig.value); }
      configWatchers := configWatchers + [x];
      w := x;
    }

    method Close()
      modifies `closed, `configWatchers, configWatchers
      ensures State() == old(State()).(closed := true) && configWatchers == []
      ensures forall w :: w in old(configWatchers) ==> w.closed && w.token
    {
      closed := true;
      var i := 0;
      while i < |configWatchers|
        invariant i <= |configWatchers| && configWatchers == old(configWatchers) && closed
        invariant forall k :: 0 <= k < i ==> configWatchers[k].closed && configWatchers[k].token
      {
        configWatchers[i].Close();
        i := i + 1;
      }
      configWatchers := [];
    }
  }

  class ConfigSubscriber {
    var current: Option<Doc>
    ghost var applied: seq<nat>

    ghost predicate Valid()
      reads this
    {
      && (current.Some? ==> applied != [] && applied[|applied| - 1] == current.value.version) && (current.None? ==> applied == [])
      && forall i, j :: 0 <= i < j < |applied| ==> applied[i] < applied[j]
    }

    constructor ()
      ensures Valid() && current == None
    {
      current, applied := None, [];
    }

    /** apply: only a newer document is installed and announced. */
    method ApplyDocument(doc: Doc) returns (changed: bool)
      requires Valid()
      modifies this
      ensures Valid() && changed == (old(current).None? || doc.version > old(current).value.version)
      ensures current == (if changed then Some(doc) else old(current)) && applied == old(applied) + if changed then [doc.version] else []
      ensures Subscriber(current, None, applied) == Applied(Subscriber(old(current), None, old(applied)), doc)
    {
      if current.Some? && doc.version <= current.value.version { return false; }
      current := Some(doc);
      applied := applied + [doc.version];
      changed := true;
    }
  }
}
