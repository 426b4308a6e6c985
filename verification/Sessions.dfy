/** The session classes as objects that update their fields. Each method is proved against the
    value-level step of modules SerializedSession and SessionCluster, so what those modules prove of
    steps and runs holds of these objects. */
module Sessions {
  import opened Options
  import opened RulesEngine
  import opened SerializedSession
  import opened SessionCluster

  /** The rules of one node, and what its live channels have been sent so far. */
  class RulesManager<S> {
    const engine: Engine<S>
    const channels: Channels
    const maxBufferSize: int
    var version: Version
    var heard: seq<Output>

    constructor (engine: Engine<S>, channels: Channels, maxBufferSize: int, version: Version)
      ensures this.engine == engine && this.channels == channels && this.maxBufferSize == maxBufferSize
      ensures this.version == version && heard == []
    {
      this.engine, this.channels, this.maxBufferSize := engine, channels, maxBufferSize;
      this.version, heard := version, [];
    }

    function Setup(): Config<S> { Config(engine, channels, maxBufferSize) }

    /** `fireAllRules` of a session of this node. */
    method Fire(k: KieSession<S>) returns (k1: KieSession<S>)
      modifies `heard
      ensures k1 == FireAllRules(engine, k)
      ensures heard == old(heard) + Sends(engine, k, LiveListener)
    {
      heard := heard + Sends(engine, k, LiveListener);
      k1 := FireAllRules(engine, k);
    }
  }

  class HAKieSession<S> {
    const rules: RulesManager<S>
    var session: Option<KieSession<S>>
    var lastFact: Option<Fact>

    constructor (rules: RulesManager<S>, session: Option<KieSession<S>>)
      ensures this.rules == rules && this.session == session && lastFact == None
    {
      this.rules, this.session, lastFact := rules, session, None;
    }

    method Insert(fact: Fact)
      modifies this, rules`heard
      ensures session == Some(Inserted(rules.Setup(), Live(old(session)), rules.version, fact))
      ensures lastFact == Some(fact)
      ensures rules.heard == old(rules.heard) + InsertHeard(rules.Setup(), Live(old(session)), rules.version, fact)
    {
      var k := if session.None? then RegisterChannels(rules.channels, NewKieSession(rules.engine, rules.version))
               else session.value;
      lastFact := Some(fact);
      k := AdvanceClock(k, fact);
      k := k.(memory := rules.engine.insert(k.memory, fact));
      k := rules.Fire(k);
      session := Some(k);
    }

    method Delta() returns (d: Delta)
      ensures d == if lastFact.Some? then FactDelta(lastFact.value) else EmptyDelta
    {
      d := if lastFact.Some? then FactDelta(lastFact.value) else EmptyDelta;
    }

    method Commit()
      modifies `lastFact
      ensures lastFact == None
    {
      lastFact := None;
    }

    method WrapWithSerializedSession() returns (z: HAKieSerializedSession<S>)
      ensures fresh(z) && z.rules == rules && z.View() == Wrap(session, rules.version) && z.Guarded()
    {
      if session.Some? {
        z := new HAKieSerializedSession<S>(rules, rules.version, Some(Serialize(session.value)));
      } else {
        z := new HAKieSerializedSession<S>(rules, rules.version, None);
      }
    }
  }

  class HAKieSerializedSession<S> {
    const rules: RulesManager<S>
    var version: Version
    var session: Option<Saved<S>>
    var size: int
    var buffer: seq<Fact>
    var saving: bool
    var latch: nat           // the current latch object
    var counts: seq<nat>     // the counts of all latches so far
    var submitted: nat       // tasks handed to the executor

    constructor (rules: RulesManager<S>, version: Version, session: Option<Saved<S>>)
      ensures this.rules == rules && View() == Serialized(version, session, [], 0, Idle) && Guarded()
    {
      this.rules, this.version, this.session := rules, version, session;
      size, buffer, saving := 0, [], false;
      latch, counts, submitted := 0, [0], 0;
    }

    /** The latch is closed exactly while a snapshot is submitted. */
    predicate Guarded()
      reads `saving, `latch, `counts
    {
      latch < |counts| && counts[latch] == if saving then 1 else 0
    }

    /** The replica this object is, with a submitted snapshot that has not begun. */
    function View(): Serialized<S>
      reads `version, `session, `buffer, `size, `saving
    {
      Serialized(version, session, buffer, size, if saving then Queued else Idle)
    }

    method ReplayFacts(start: KieSession<S>) returns (k: KieSession<S>)
      modifies `buffer, `size, rules`heard
      ensures k == Replay(rules.engine, rules.channels, start, old(buffer))
      ensures buffer == [] && size == if old(buffer) == [] then old(size) else 0
      ensures rules.heard == old(rules.heard) + ReplayHeard(rules.engine, rules.channels, start, old(buffer))
    {
      hide InsertAll, Sends, FireAllRules, RegisterReplayChannels;
      k := start;
      if buffer != [] {
        k := RegisterReplayChannels(rules.channels, k);
        ghost var start1, replayed := k, [];
        NothingInserted(rules.engine, start1);
        while buffer != []
          invariant replayed + buffer == old(buffer)
          invariant k == InsertAll(rules.engine, start1, replayed)
          invariant rules.heard == old(rules.heard)
          decreases |buffer|
        {
          var fact := buffer[0];
          InsertAllAppend(rules.engine, start1, replayed, fact);
          k := AdvanceClock(k, fact);
          k := k.(memory := rules.engine.insert(k.memory, fact));
          replayed := replayed + [fact];
          buffer := buffer[1..];
        }
        assert replayed == old(buffer);
        size := 0;
        k := rules.Fire(k);
      }
      k := RegisterChannels(rules.channels, k);
    }

    method RebuildSessionAndUpgrade()
      modifies `version, `session, `buffer, `size, rules`heard
      ensures View() == RebuildAndUpgrade(rules.engine, rules.channels, old(View()), rules.version)
      ensures rules.heard == old(rules.heard)
                           + ReplayHeard(rules.engine, rules.channels, DeserializeOrCreate(rules.engine, old(version), old(session)), old(buffer))
    {
      var k := DeserializeOrCreate(rules.engine, version, session);
      k := ReplayFacts(k);
      k := UpdateToVersion(rules.engine, k, rules.version);
      session := Some(Serialize(k));
      version := rules.version;
    }

    method CatchUp()
      modifies `version, `session, `buffer, `size, rules`heard
      ensures View() == UpToDate(rules.engine, rules.channels, old(View()), rules.version)
      ensures rules.heard == old(rules.heard) + UpToDateHeard(rules.engine, rules.channels, old(View()), rules.version)
    {
      if version != rules.version {
        RebuildSessionAndUpgrade();
      }
    }

    method Add(f: Fact)
      requires Guarded()
      modifies this, rules`heard
      ensures Guarded()
      ensures View() == SerializedSession.Add(rules.engine, rules.channels, old(View()), rules.version, rules.maxBufferSize, f)
      ensures submitted == old(submitted) + if saving && !old(saving) then 1 else 0
      ensures rules.heard == old(rules.heard) + UpToDateHeard(rules.engine, rules.channels, old(View()), rules.version)
    {
      CatchUp();
      buffer := buffer + [f];
      size := size + 1;
      if size > rules.maxBufferSize {
        CreateSnapshot();
      }
    }

    /** A new latch, and a task for the executor, unless one is submitted. */
    method CreateSnapshot()
      requires Guarded()
      modifies `saving, `latch, `counts, `submitted
      ensures Guarded() && View() == SerializedSession.CreateSnapshot(old(View()))
      ensures if old(saving) then latch == old(latch) && counts == old(counts) && submitted == old(submitted)
              else latch == |old(counts)| && counts == old(counts) + [1] && submitted == old(submitted) + 1
    {
      if !saving {
        saving := true;
        latch := |counts|;
        counts := counts + [1];
        submitted := submitted + 1;
      }
    }

    /** Replays the buffer on the session of the bytes. */
    method BuildSession() returns (k: KieSession<S>)
      modifies `buffer, `size, rules`heard
      ensures k == Replay(rules.engine, rules.channels, DeserializeOrCreate(rules.engine, rules.version, session), old(buffer))
      ensures buffer == [] && size == if old(buffer) == [] then old(size) else 0
      ensures rules.heard == old(rules.heard)
                           + ReplayHeard(rules.engine, rules.channels, DeserializeOrCreate(rules.engine, rules.version, session), old(buffer))
    {
      k := DeserializeOrCreate(rules.engine, rules.version, session);
      k := ReplayFacts(k);
    }

    /** The submitted task, when nothing interleaves with it. */
    method RunSnapshot()
      requires saving && Guarded()
      modifies this, rules`heard
      ensures !saving && Guarded() && latch == old(latch) && submitted == old(submitted)
      ensures View() == SnapshotAlone(rules.engine, rules.channels, old(View()), rules.version)
      ensures rules.heard == old(rules.heard) + RebuildHeard(rules.engine, rules.channels, old(View()), rules.version)
    {
      hide Replay, ReplayHeard, UpToDate, UpToDateHeard, DeserializeOrCreate;
      UpToDateVersion(rules.engine, rules.channels, View(), rules.version);
      CatchUp();
      var k := BuildSession();
      session := Some(Serialize(k));
      saving := false;
      counts := counts[latch := counts[latch] - 1];
    }

    /** `waitForSnapshotToComplete`: while this thread waits for the latch, the job runs and opens it. */
    method WaitForSnapshotToComplete()
      requires Guarded()
      modifies this, rules`heard
      ensures !saving && Guarded() && counts[latch] == 0
      ensures View() == Waited(rules.engine, rules.channels, old(View()), rules.version)
      ensures rules.heard == old(rules.heard) + WaitHeard(rules.engine, rules.channels, old(View()), rules.version)
    {
      if saving {
        RunSnapshot();
      }
    }

    method Rebuild() returns (h: HAKieSession<S>)
      requires Guarded()
      modifies this, rules`heard
      ensures fresh(h) && h.rules == rules && h.lastFact == None
      ensures h.session == Some(RebuildAfterWait(rules.engine, rules.channels, old(View()), rules.version))
      ensures rules.heard == old(rules.heard) + RebuildAfterWaitHeard(rules.engine, rules.channels, old(View()), rules.version)
      ensures buffer == [] && !saving
    {
      hide Replay, ReplayHeard, UpToDate, UpToDateHeard, DeserializeOrCreate, Waited, WaitHeard;
      WaitForSnapshotToComplete();
      CatchUp();
      var k := BuildSession();
      h := new HAKieSession(rules, Some(k));
    }
  }

  lemma UpToDateVersion<S>(e: Engine<S>, cs: Channels, z: Serialized<S>, cur: Version)
    ensures UpToDate(e, cs, z, cur).version == cur && UpToDate(e, cs, z, cur).job == z.job
  {
  }

  /** A replica whose submitted snapshot has run. */
  function Waited<S>(e: Engine<S>, cs: Channels, z: Serialized<S>, cur: Version): Serialized<S> {
    if z.job.Queued? then SnapshotAlone(e, cs, z, cur) else z
  }

  function WaitHeard<S>(e: Engine<S>, cs: Channels, z: Serialized<S>, cur: Version): seq<Output> {
    if z.job.Queued? then RebuildHeard(e, cs, z, cur) else []
  }

  function RebuildAfterWait<S>(e: Engine<S>, cs: Channels, z: Serialized<S>, cur: Version): KieSession<S> {
    SerializedSession.Rebuild(e, cs, Waited(e, cs, z, cur), cur)
  }

  function RebuildAfterWaitHeard<S>(e: Engine<S>, cs: Channels, z: Serialized<S>, cur: Version): seq<Output> {
    WaitHeard(e, cs, z, cur) + RebuildHeard(e, cs, Waited(e, cs, z, cur), cur)
  }

  lemma NothingInserted<S>(e: Engine<S>, k: KieSession<S>)
    ensures InsertAll(e, k, []) == k
  {
  }

  function SnapshotAlone<S>(e: Engine<S>, cs: Channels, z: Serialized<S>, cur: Version): Serialized<S> {
    var z1 := UpToDate(e, cs, z, cur);
    var k := Replay(e, cs, DeserializeOrCreate(e, cur, z1.session), z1.buffer);
    Serialized(cur, Some(Serialize(k)), [], if z1.buffer == [] then z1.size else 0, Idle)
  }

  /** After a snapshot the count starts again: the next one is submitted if and only if more facts than
      the maximum have arrived since. */
  lemma SnapshotsRecur<S>(e: Engine<S>, cs: Channels, z: Serialized<S>, cur: Version, max: int, fs: seq<Fact>)
    requires Counted(z) && z.job.Queued? && fs != []
    ensures AddAll(e, cs, SnapshotAlone(e, cs, z, cur), cur, max, fs).job.Queued? <==> |fs| > max
  {
    var z1 := SnapshotAlone(e, cs, z, cur);
    AdditionsSubmit(e, cs, z1, cur, max, fs);
    assert z1.buffer + fs == fs;
  }

  function DrainAll<S>(e: Engine<S>, cs: Channels, z: Serialized<S>): (r: Serialized<S>)
    requires z.job.Draining?
    ensures r.job.Draining? && r.buffer == []
    decreases |z.buffer|
  {
    if z.buffer == [] then z else DrainAll(e, cs, JobDrain(e, cs, z))
  }

  lemma {:induction false} DrainAllResult<S>(e: Engine<S>, cs: Channels, z: Serialized<S>, k0: KieSession<S>)
    requires z.job.Draining? && z.job.local == if z.job.drained == [] then k0 else InsertAll(e, RegisterReplayChannels(cs, k0), z.job.drained)
    ensures var all := z.job.drained + z.buffer;
            DrainAll(e, cs, z) == z.(buffer := [],
              job := Draining(if all == [] then k0 else InsertAll(e, RegisterReplayChannels(cs, k0), all), all))
    decreases |z.buffer|
  {
    hide InsertAll, InsertFact, RegisterReplayChannels;
    var all := z.job.drained + z.buffer;
    if z.buffer == [] {
      assert all == z.job.drained;
    } else {
      NothingInserted(e, RegisterReplayChannels(cs, k0));
      InsertAllAppend(e, RegisterReplayChannels(cs, k0), z.job.drained, z.buffer[0]);
      DrainAllResult(e, cs, JobDrain(e, cs, z), k0);
      assert z.job.drained + [z.buffer[0]] + z.buffer[1..] == all;
    }
  }

  /** A snapshot run alone is the job's steps one after the other. */
  lemma SnapshotAloneIsTheJob<S>(e: Engine<S>, cs: Channels, z: Serialized<S>, cur: Version)
    requires z.job.Queued?
    ensures SnapshotAlone(e, cs, z, cur) == JobPublish(JobFire(e, cs, DrainAll(e, cs, JobLoad(e, cs, z, cur))))
  {
    var z1 := JobLoad(e, cs, z, cur);
    DrainAllResult(e, cs, z1, z1.job.local);
    assert [] + z1.buffer == z1.buffer;
  }

  lemma {:induction false} DrainAllMeaning<S(!new)>(e: Engine<S>, cs: Channels, z: Serialized<S>, cur: Version)
    requires Lawful(e) && Consistent(e, z, cur) && z.job.Draining?
    ensures var z1 := DrainAll(e, cs, z);
            Consistent(e, z1, cur) && Meaning(e, z1, cur) == Meaning(e, z, cur)
    decreases |z.buffer|
  {
    hide Lawful, Consistent, Meaning, JobDrain;
    if z.buffer != [] {
      JobDrainMeaning(e, cs, z, cur);
      assert JobDrain(e, cs, z).job.Draining? && |JobDrain(e, cs, z).buffer| < |z.buffer| by { Drains(e, cs, z); }
      DrainAllMeaning(e, cs, JobDrain(e, cs, z), cur);
    }
  }

  lemma Drains<S>(e: Engine<S>, cs: Channels, z: Serialized<S>)
    requires z.job.Draining? && z.buffer != []
    ensures JobDrain(e, cs, z).job.Draining? && |JobDrain(e, cs, z).buffer| < |z.buffer|
  {
  }

  /** Waiting for the snapshot changes nothing that counts: the session that is rebuilt afterwards is in
      the state the replica stood for before, and no live listener hears any of it. */
  lemma WaitingChangesNothing<S(!new)>(e: Engine<S>, cs: Channels, z: Serialized<S>, cur: Version)
    requires Lawful(e) && (z.job.Idle? || z.job.Queued?)
    ensures RebuildAfterWait(e, cs, z, cur).Bare() == Meaning(e, z, cur)
    ensures RebuildAfterWaitHeard(e, cs, z, cur) == []
  {
    hide Lawful, Consistent, Meaning, JobLoad, JobFire, JobPublish, Rebuild, RebuildHeard, SnapshotAlone;
    var z1 := Waited(e, cs, z, cur);
    if z.job.Queued? {
      SnapshotAloneIsTheJob(e, cs, z, cur);
      JobLoadMeaning(e, cs, z, cur);
      var loaded := JobLoad(e, cs, z, cur);
      Loads(e, cs, z, cur);
      DrainAllMeaning(e, cs, loaded, cur);
      var drained := DrainAll(e, cs, loaded);
      JobFireMeaning(e, cs, drained, cur);
      Fires(e, cs, drained);
      JobPublishMeaning(e, JobFire(e, cs, drained), cur);
      CatchingUpIsSilent(e, cs, z, cur);
    }
    RebuildMeaning(e, cs, z1, cur);
    CatchingUpIsSilent(e, cs, z1, cur);
  }

  lemma Loads<S>(e: Engine<S>, cs: Channels, z: Serialized<S>, cur: Version)
    ensures JobLoad(e, cs, z, cur).job.Draining?
  {
  }

  lemma Fires<S>(e: Engine<S>, cs: Channels, z: Serialized<S>)
    requires z.job.Draining? && z.buffer == []
    ensures JobFire(e, cs, z).job.Fired? && JobPublish(JobFire(e, cs, z)).job.Idle?
  {
  }

  // The cache of one node

  datatype Held<S> = Nothing | LiveObject(live: HAKieSession<S>) | StoredObject(stored: HAKieSerializedSession<S>)

  /** The node-level copy that a cached object is. */
  function CopyOf<S>(h: Held<S>): Copy<S>
    reads Objects(h)
  {
    match h
    case Nothing => Absent
    case LiveObject(l) => Live(l.session)
    case StoredObject(z) => Stored(z.View())
  }

  /** `HAKieSessionDeltaFact.merge`: the receiver is no value, a replica, or a live object. */
  method MergeFact<S>(rules: RulesManager<S>, f: Fact, d: Held<S>) returns (z: HAKieSerializedSession<S>)
    requires d.LiveObject? ==> d.live.rules == rules
    requires d.StoredObject? ==> d.stored.rules == rules && d.stored.Guarded()
    modifies rules`heard, match d case StoredObject(z) => {z} case _ => {}
    ensures Stored(z.View()) == Merge(rules.Setup(), FactDelta(f), old(CopyOf(d)), rules.version)
    ensures z.Guarded() && (d.StoredObject? ==> z == d.stored)
    ensures rules.heard == old(rules.heard) + MergeHeard(rules.Setup(), FactDelta(f), old(CopyOf(d)), rules.version)
  {
    match d {
      case Nothing => z := new HAKieSerializedSession<S>(rules, rules.version, None);
      case LiveObject(l) => z := l.WrapWithSerializedSession();
      case StoredObject(s) => z := s;
    }
    z.Add(f);
  }

  /** `HAKieSessionDeltaEmpty.merge`: what is there stays, and nothing becomes an empty replica. */
  method MergeEmpty<S>(rules: RulesManager<S>, d: Held<S>) returns (h: Held<S>)
    ensures CopyOf(h) == Merge(rules.Setup(), EmptyDelta, CopyOf(d), rules.version)
    ensures !d.Nothing? ==> h == d
    ensures d.Nothing? ==> h.StoredObject? && fresh(h.stored) && h.stored.rules == rules
  {
    if d.Nothing? {
      var z := new HAKieSerializedSession<S>(rules, rules.version, None);
      return StoredObject(z);
    }
    h := d;
  }

  datatype UpdateResult = Updated | Refused | EmptyVersion

  /** A version change on one node. An empty version throws; a version that the container refuses, as
      `refused` says, leaves everything as it is; otherwise the live sessions of the container migrate
      at once. */
  method ChangeVersion<S>(rules: RulesManager<S>, v: Version, refused: bool, live: seq<HAKieSession<S>>) returns (r: UpdateResult)
    requires forall i, j :: 0 <= i < j < |live| ==> live[i] != live[j]
    requires forall i :: 0 <= i < |live| ==> live[i].rules == rules
    modifies rules`version, live`session
    ensures r == if v == "" then EmptyVersion else if refused then Refused else Updated
    ensures rules.version == if r.Updated? then v else old(rules.version)
    ensures forall i :: 0 <= i < |live| ==>
      Live(live[i].session) == if r.Updated? then UpgradeCopy(rules.Setup(), Live(old(live[i].session)), v) else Live(old(live[i].session))
  {
    if v == "" { return EmptyVersion; }
    if refused { return Refused; }
    for i := 0 to |live|
      invariant forall j :: i <= j < |live| ==> live[j].session == old(live[j].session)
      invariant forall j :: 0 <= j < i ==>
        Live(live[j].session) == UpgradeCopy(rules.Setup(), Live(old(live[j].session)), v)
    {
      var l := live[i];
      if l.session.Some? {
        l.session := Some(UpdateToVersion(rules.engine, l.session.value, v));
      }
    }
    rules.version := v;
    r := Updated;
  }

  /** `KieSessionSaver.insert` on the node that holds the lock of the group. `put` ships the
      object's delta to the other owners and commits it. */
  class KieSessionSaver<S> {
    const rules: RulesManager<S>
    var cache: map<string, Held<S>>
    var shipped: seq<(string, Delta)>

    constructor (rules: RulesManager<S>)
      ensures this.rules == rules && cache == map[] && shipped == []
    {
      this.rules, cache, shipped := rules, map[], [];
    }

    function Get(group: string): Held<S>
      reads this
    {
      if group in cache then cache[group] else Nothing
    }

    method Put(group: string, h: HAKieSession<S>)
      modifies this, h`lastFact
      ensures cache == old(cache)[group := LiveObject(h)]
      ensures shipped == old(shipped) + [(group, if old(h.lastFact).Some? then FactDelta(old(h.lastFact).value) else EmptyDelta)]
      ensures h.lastFact == None
    {
      var d := h.Delta();
      shipped := shipped + [(group, d)];
      h.Commit();
      cache := cache[group := LiveObject(h)];
    }

    /** The session object to work on: new and put once empty, the live one, or a rebuilt one. */
    method Open(group: string) returns (h: HAKieSession<S>)
      requires Usable(Get(group))
      modifies this, rules`heard, Objects(Get(group))
      ensures h.rules == rules && h.lastFact == None
      ensures fresh(h) || old(Get(group)) == LiveObject(h)
      ensures old(Get(group).LiveObject?) ==> h == old(Get(group).live) && h.session == old(Get(group).live.session)
      ensures Opened(rules.Setup(), Live(h.session), rules.version) == Opened(rules.Setup(), AfterWait(rules, old(CopyOf(Get(group)))), rules.version)
      ensures rules.heard == old(rules.heard) + OpenHeard(rules, old(CopyOf(Get(group))))
      ensures shipped == old(shipped) + if old(Get(group).Nothing?) then [(group, EmptyDelta)] else []
      ensures forall g :: g in old(cache) && g != group ==> g in cache && cache[g] == old(cache)[g]
    {
      var value := Get(group);
      match value {
        case Nothing =>
          h := new HAKieSession(rules, None);
          Put(group, h);
        case LiveObject(l) =>
          h := l;
        case StoredObject(z) =>
          h := z.Rebuild();
      }
    }

    method Insert(group: string, fact: Fact)
      requires Usable(Get(group))
      modifies this, rules`heard, Objects(Get(group))
      ensures Get(group).LiveObject? && Get(group).live.lastFact == None
      ensures CopyOf(Get(group)) == Live(Some(Inserted(rules.Setup(), AfterWait(rules, old(CopyOf(Get(group)))), rules.version, fact)))
      ensures shipped == old(shipped) + Tagged(group, Shipped(old(CopyOf(Get(group))), fact))
      ensures rules.heard == old(rules.heard) + CopyWaitHeard(rules, old(CopyOf(Get(group))))
                           + InsertHeard(rules.Setup(), AfterWait(rules, old(CopyOf(Get(group)))), rules.version, fact)
      ensures forall g :: g in old(cache) && g != group ==> g in cache && cache[g] == old(cache)[g]
    {
      hide Opened, Inserted, InsertHeard, RebuildHeard, WaitHeard, Waited;
      TaggedShipped(group, old(CopyOf(Get(group))), fact);
      var h := Open(group);
      InsertedOnOpened(rules.Setup(), AfterWait(rules, old(CopyOf(Get(group)))), h.session, rules.version, fact);
      h.Insert(fact);
      Put(group, h);
    }

    /** Objects in the cache belong to this node and are committed. */
    predicate Usable(held: Held<S>)
      reads Objects(held)
    {
      match held
      case Nothing => true
      case LiveObject(l) => l.rules == rules && l.lastFact == None
      case StoredObject(z) => z.rules == rules && z.Guarded()
    }
  }

  function Objects<S>(held: Held<S>): set<object> {
    match held
    case Nothing => {}
    case LiveObject(l) => {l}
    case StoredObject(z) => {z}
  }

  /** The copy once a submitted snapshot has run. */
  function AfterWait<S>(rules: RulesManager<S>, copy: Copy<S>): Copy<S>
    reads rules`version
  {
    if copy.Stored? then Stored(Waited(rules.engine, rules.channels, copy.z, rules.version)) else copy
  }

  function CopyWaitHeard<S>(rules: RulesManager<S>, copy: Copy<S>): seq<Output>
    reads rules`version
  {
    if copy.Stored? then WaitHeard(rules.engine, rules.channels, copy.z, rules.version) else []
  }

  function OpenHeard<S>(rules: RulesManager<S>, copy: Copy<S>): seq<Output>
    reads rules`version
  {
    if copy.Stored? then RebuildAfterWaitHeard(rules.engine, rules.channels, copy.z, rules.version) else []
  }

  /** The saver works on the opened session as on the copy it was opened from. */
  lemma InsertedOnOpened<S>(cfg: Config<S>, copy: Copy<S>, session: Option<KieSession<S>>, cur: Version, f: Fact)
    requires Opened(cfg, Live(session), cur) == Opened(cfg, copy, cur)
    ensures Inserted(cfg, Live(session), cur, f) == Inserted(cfg, copy, cur, f)
    ensures InsertHeard(cfg, copy, cur, f) ==
      (if copy.Stored? then RebuildHeard(cfg.engine, cfg.channels, copy.z, cur) else []) + InsertHeard(cfg, Live(session), cur, f)
  {
    hide Opened, RebuildHeard, Sends, FireAllRules, InsertFact;
  }

  lemma TaggedShipped<S>(group: string, copy: Copy<S>, f: Fact)
    ensures Tagged(group, Shipped(copy, f)) ==
      (if copy.Absent? then [(group, EmptyDelta)] else []) + [(group, FactDelta(f))]
  {
  }

  function Tagged(group: string, ds: seq<Delta>): seq<(string, Delta)> {
    seq(|ds|, i requires 0 <= i < |ds| => (group, ds[i]))
  }
}
