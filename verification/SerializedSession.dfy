/** A replica of a group's session as a value: marshalled bytes, the rules version they
    were written under, the facts that arrived since, and the background snapshot job.
    Every function is one indivisible step of `HAKieSerializedSession`; the job's steps
    interleave with additions. The lemmas say which state of the group a replica stands for
    and that no step but an addition changes it. */
module SerializedSession {
  import opened Options
  import opened RulesEngine

  /** The snapshot task: `drained` are the facts it has taken out of the buffer and not yet
      published. `Fired` is after the replay and before the bytes are assigned. */
  datatype Job<+S> =
    | Idle
    | Queued
    | Draining(local: KieSession<S>, drained: seq<Fact>)
    | Fired(local: KieSession<S>, drained: seq<Fact>)
  {
    function Taken(): seq<Fact> { if Draining? || Fired? then drained else [] }
    predicate InFlight() { Draining? || Fired? }
  }

  datatype Serialized<+S> = Serialized(
    version: Version, session: Option<Saved<S>>, buffer: seq<Fact>, size: int, job: Job<S>)

  function Empty<S>(cur: Version): Serialized<S> {
    Serialized(cur, None, [], 0, Idle)
  }

  // Replay

  /** The session that replay returns: fired once if there was anything to replay, and
      back on live channels. */
  function Replay<S>(e: Engine<S>, cs: Channels, k: KieSession<S>, fs: seq<Fact>): KieSession<S> {
    var fired := if fs == [] then k else FireAllRules(e, InsertAll(e, RegisterReplayChannels(cs, k), fs));
    RegisterChannels(cs, fired)
  }

  /** What live listeners hear while the facts are replayed. */
  function ReplayHeard<S>(e: Engine<S>, cs: Channels, k: KieSession<S>, fs: seq<Fact>): seq<Output> {
    if fs == [] then [] else Sends(e, InsertAll(e, RegisterReplayChannels(cs, k), fs), LiveListener)
  }

  // Steps

  predicate IsUpgradeNeeded<S>(z: Serialized<S>, cur: Version) {
    z.version != cur
  }

  /** Replays the buffer under the version of the bytes, migrates, writes new bytes. */
  function RebuildAndUpgrade<S>(e: Engine<S>, cs: Channels, z: Serialized<S>, cur: Version): Serialized<S> {
    var k := Replay(e, cs, DeserializeOrCreate(e, z.version, z.session), z.buffer);
    Serialized(cur, Some(Serialize(UpdateToVersion(e, k, cur))), [], if z.buffer == [] then z.size else 0, z.job)
  }

  function UpToDate<S>(e: Engine<S>, cs: Channels, z: Serialized<S>, cur: Version): Serialized<S> {
    if IsUpgradeNeeded(z, cur) then RebuildAndUpgrade(e, cs, z, cur) else z
  }

  function CreateSnapshot<S>(z: Serialized<S>): Serialized<S> {
    if z.job.Idle? then z.(job := Queued) else z
  }

  function Add<S>(e: Engine<S>, cs: Channels, z: Serialized<S>, cur: Version, max: int, f: Fact): Serialized<S> {
    var z1 := UpToDate(e, cs, z, cur);
    var z2 := z1.(buffer := z1.buffer + [f], size := z1.size + 1);
    if z2.size > max then CreateSnapshot(z2) else z2
  }

  /** The session a promoted replica hands back; its buffer is consumed. */
  function Rebuild<S>(e: Engine<S>, cs: Channels, z: Serialized<S>, cur: Version): KieSession<S> {
    var z1 := UpToDate(e, cs, z, cur);
    Replay(e, cs, DeserializeOrCreate(e, cur, z1.session), z1.buffer)
  }

  function JobLoad<S>(e: Engine<S>, cs: Channels, z: Serialized<S>, cur: Version): Serialized<S> {
    var z1 := UpToDate(e, cs, z, cur);
    z1.(job := Draining(DeserializeOrCreate(e, cur, z1.session), []))
  }

  function JobDrain<S>(e: Engine<S>, cs: Channels, z: Serialized<S>): Serialized<S>
    requires z.job.Draining? && z.buffer != []
  {
    var k := if z.job.drained == [] then RegisterReplayChannels(cs, z.job.local) else z.job.local;
    z.(buffer := z.buffer[1..], job := Draining(InsertFact(e, k, z.buffer[0]), z.job.drained + [z.buffer[0]]))
  }

  function JobFire<S>(e: Engine<S>, cs: Channels, z: Serialized<S>): Serialized<S>
    requires z.job.Draining? && z.buffer == []
  {
    var replayed := z.job.drained != [];
    var k := if replayed then FireAllRules(e, z.job.local) else z.job.local;
    z.(size := if replayed then 0 else z.size, job := Fired(RegisterChannels(cs, k), z.job.drained))
  }

  function JobFireHeard<S>(e: Engine<S>, z: Serialized<S>): seq<Output>
    requires z.job.Draining?
  {
    if z.job.drained == [] then [] else Sends(e, z.job.local, LiveListener)
  }

  function JobPublish<S>(z: Serialized<S>): Serialized<S>
    requires z.job.Fired?
  {
    z.(session := Some(Serialize(z.job.local)), job := Idle)
  }

  // What live listeners hear during those steps

  function UpToDateHeard<S>(e: Engine<S>, cs: Channels, z: Serialized<S>, cur: Version): seq<Output> {
    if IsUpgradeNeeded(z, cur) then ReplayHeard(e, cs, DeserializeOrCreate(e, z.version, z.session), z.buffer) else []
  }

  function RebuildHeard<S>(e: Engine<S>, cs: Channels, z: Serialized<S>, cur: Version): seq<Output> {
    var z1 := UpToDate(e, cs, z, cur);
    UpToDateHeard(e, cs, z, cur) + ReplayHeard(e, cs, DeserializeOrCreate(e, cur, z1.session), z1.buffer)
  }

  // What a replica stands for

  ghost function Held<S>(e: Engine<S>, z: Serialized<S>): State<S> {
    ProcessAll(e, Loaded(e, z.version, z.session), z.job.Taken() + z.buffer)
  }

  /** The group state a replica stands for, seen from the current version. */
  ghost function Meaning<S>(e: Engine<S>, z: Serialized<S>, cur: Version): State<S> {
    Migrate(e, Held(e, z), cur)
  }

  predicate OnlyReplayListeners<S>(k: KieSession<S>) {
    forall c :: c in k.channels ==> k.channels[c] == ReplayListener
  }

  /** The session the job started from, with the listeners it has now. */
  ghost function Origin<S>(e: Engine<S>, z: Serialized<S>): KieSession<S>
    requires z.job.Draining?
  {
    DeserializeOrCreate(e, z.version, z.session).(channels := z.job.local.channels)
  }

  /** The job's local session is the bytes plus the facts it took, and a snapshot is submitted and
      runs under the current version. */
  ghost predicate Consistent<S>(e: Engine<S>, z: Serialized<S>, cur: Version) {
    && (!z.job.Idle? ==> z.version == cur)
    && (z.job.Draining? ==>
          && OnlyReplayListeners(z.job.local)
          && z.job.local == InsertAll(e, Origin(e, z), z.job.drained))
    && (z.job.Fired? ==> z.job.local.Bare() == ProcessAll(e, Loaded(e, z.version, z.session), z.job.drained))
  }

  lemma ReplayMeaning<S(!new)>(e: Engine<S>, cs: Channels, k: KieSession<S>, fs: seq<Fact>)
    requires Lawful(e)
    ensures Replay(e, cs, k, fs).Bare() == ProcessAll(e, k.Bare(), fs)
  {
    if fs != [] { BatchFiring(e, RegisterReplayChannels(cs, k), fs); }
  }

  /** Replay from unmarshalled bytes is never heard by a live listener. */
  lemma ReplayHeardNothing<S>(e: Engine<S>, cs: Channels, v: Version, bytes: Option<Saved<S>>, fs: seq<Fact>)
    ensures ReplayHeard(e, cs, DeserializeOrCreate(e, v, bytes), fs) == []
  {
    if fs != [] {
      var k := RegisterReplayChannels(cs, DeserializeOrCreate(e, v, bytes));
      InsertAllKeeps(e, k, fs);
      var b := InsertAll(e, k, fs);
      ReplayIsSilent(e.sends(b.version, b.clock, b.memory), b.channels);
    }
  }

  /** A session handed back has a live listener on exactly the live names. */
  lemma ReplayListeners<S>(e: Engine<S>, cs: Channels, v: Version, bytes: Option<Saved<S>>, fs: seq<Fact>)
    ensures var k := Replay(e, cs, DeserializeOrCreate(e, v, bytes), fs);
            forall c :: (c in k.channels && k.channels[c] == LiveListener) <==> c in cs.live
  {
    InsertAllKeeps(e, RegisterReplayChannels(cs, DeserializeOrCreate(e, v, bytes)), fs);
  }

  /** Upgrading late, and skipping versions, reaches the state of upgrading at once. */
  lemma UpToDateMeaning<S(!new)>(e: Engine<S>, cs: Channels, z: Serialized<S>, cur: Version)
    requires Lawful(e) && !z.job.InFlight()
    ensures var z1 := UpToDate(e, cs, z, cur);
            && z1.version == cur && z1.job == z.job
            && Held(e, z1) == Meaning(e, z1, cur) == Meaning(e, z, cur)
  {
    assert [] + z.buffer == z.buffer;
    ProcessAllVersion(e, Loaded(e, z.version, z.session), z.buffer);
    if z.version != cur {
      ReplayMeaning(e, cs, DeserializeOrCreate(e, z.version, z.session), z.buffer);
    }
  }

  lemma AddMeaning<S(!new)>(e: Engine<S>, cs: Channels, z: Serialized<S>, cur: Version, max: int, f: Fact)
    requires Lawful(e) && Consistent(e, z, cur)
    ensures var z1 := Add(e, cs, z, cur, max, f);
            Consistent(e, z1, cur) && Meaning(e, z1, cur) == Process(e, Meaning(e, z, cur), f)
  {
    var z1, z2 := UpToDate(e, cs, z, cur), Add(e, cs, z, cur, max, f);
    if z.job.InFlight() {
      assert z1 == z;
      CurrentMeaning(e, z, cur);
    } else {
      UpToDateMeaning(e, cs, z, cur);
    }
    assert z2.version == z1.version == cur && z2.session == z1.session && z2.buffer == z1.buffer + [f];
    assert z2.job == z1.job || (z1.job.Idle? && z2.job.Queued?);
    hide Lawful, ProcessAll, Process, Loaded, UpToDate, Add, Meaning, InsertAll;
    CurrentMeaning(e, z2, cur);
    HeldOneMore(e, z1, z2, f);
  }

  lemma HeldOneMore<S>(e: Engine<S>, z: Serialized<S>, z1: Serialized<S>, f: Fact)
    requires z1.version == z.version && z1.session == z.session && z1.buffer == z.buffer + [f] && z1.job.Taken() == z.job.Taken()
    ensures Held(e, z1) == Process(e, Held(e, z), f)
  {
    hide Process, Loaded;
    var facts := z.job.Taken() + z.buffer;
    assert z1.job.Taken() + z1.buffer == facts + [f];
    assert (facts + [f])[..|facts|] == facts;
  }

  lemma CurrentMeaning<S(!new)>(e: Engine<S>, z: Serialized<S>, cur: Version)
    requires Lawful(e) && z.version == cur
    ensures Meaning(e, z, cur) == Held(e, z)
  {
    ProcessAllVersion(e, Loaded(e, z.version, z.session), z.job.Taken() + z.buffer);
  }

  lemma JobLoadMeaning<S(!new)>(e: Engine<S>, cs: Channels, z: Serialized<S>, cur: Version)
    requires Lawful(e) && z.job.Queued?
    ensures var z1 := JobLoad(e, cs, z, cur);
            Consistent(e, z1, cur) && Meaning(e, z1, cur) == Meaning(e, z, cur)
  {
    UpToDateMeaning(e, cs, z, cur);
    var z1 := JobLoad(e, cs, z, cur);
    assert z1.job.local == InsertAll(e, z1.job.local, []);
  }

  lemma JobDrainMeaning<S(!new)>(e: Engine<S>, cs: Channels, z: Serialized<S>, cur: Version)
    requires Lawful(e) && Consistent(e, z, cur) && z.job.Draining? && z.buffer != []
    ensures var z1 := JobDrain(e, cs, z);
            Consistent(e, z1, cur) && Meaning(e, z1, cur) == Meaning(e, z, cur)
  {
    var z1 := JobDrain(e, cs, z);
    var k := if z.job.drained == [] then RegisterReplayChannels(cs, Origin(e, z)) else Origin(e, z);
    InsertAllAppend(e, k, z.job.drained, z.buffer[0]);
    InsertAllKeeps(e, k, z1.job.drained);
    assert k == Origin(e, z1);
    assert z1.job.Taken() + z1.buffer == z.job.Taken() + z.buffer;
  }

  lemma JobFireMeaning<S(!new)>(e: Engine<S>, cs: Channels, z: Serialized<S>, cur: Version)
    requires Lawful(e) && Consistent(e, z, cur) && z.job.Draining? && z.buffer == []
    ensures var z1 := JobFire(e, cs, z);
            Consistent(e, z1, cur) && Meaning(e, z1, cur) == Meaning(e, z, cur)
    ensures JobFireHeard(e, z) == []
  {
    if z.job.drained != [] { BatchFiring(e, Origin(e, z), z.job.drained); }
    var k := z.job.local;
    ReplayIsSilent(e.sends(k.version, k.clock, k.memory), k.channels);
  }

  lemma JobPublishMeaning<S(!new)>(e: Engine<S>, z: Serialized<S>, cur: Version)
    requires Lawful(e) && Consistent(e, z, cur) && z.job.Fired?
    ensures var z1 := JobPublish(z);
            Consistent(e, z1, cur) && Meaning(e, z1, cur) == Meaning(e, z, cur)
  {
    var z1 := JobPublish(z);
    var base := Loaded(e, z.version, z.session);
    ProcessAllVersion(e, base, z.job.drained);
    ProcessAllJoin(e, base, z.job.drained, z.buffer);
    assert [] + z.buffer == z.buffer;
    assert Loaded(e, z1.version, z1.session) == ProcessAll(e, base, z.job.drained);
  }

  /** A promoted replica is rebuilt to exactly the state it stood for. */
  lemma RebuildMeaning<S(!new)>(e: Engine<S>, cs: Channels, z: Serialized<S>, cur: Version)
    requires Lawful(e) && z.job.Idle?
    ensures Rebuild(e, cs, z, cur).Bare() == Meaning(e, z, cur)
  {
    UpToDateMeaning(e, cs, z, cur);
    var z1 := UpToDate(e, cs, z, cur);
    assert z1.job.Taken() + z1.buffer == z1.buffer;
    ReplayMeaning(e, cs, DeserializeOrCreate(e, cur, z1.session), z1.buffer);
  }

  lemma CatchingUpIsSilent<S>(e: Engine<S>, cs: Channels, z: Serialized<S>, cur: Version)
    ensures UpToDateHeard(e, cs, z, cur) == [] && RebuildHeard(e, cs, z, cur) == []
  {
    ReplayHeardNothing(e, cs, z.version, z.session, z.buffer);
    var z1 := UpToDate(e, cs, z, cur);
    ReplayHeardNothing(e, cs, cur, z1.session, z1.buffer);
  }

  // When a snapshot is submitted

  /** The count is that of the facts in the buffer, and of those that a draining job has taken. */
  predicate Counted<S>(z: Serialized<S>) {
    z.size == |z.buffer| + if z.job.Draining? then |z.job.drained| else 0
  }

  /** An addition to a counted replica submits a snapshot if and only if none is submitted and more
      facts than the maximum wait; so the buffer never holds more with no snapshot to come. */
  lemma AddSubmits<S>(e: Engine<S>, cs: Channels, z: Serialized<S>, cur: Version, max: int, f: Fact)
    requires Counted(z) && (z.job.InFlight() ==> z.version == cur)
    ensures var z1 := Add(e, cs, z, cur, max, f);
      && Counted(z1) && z1.version == cur && z1.buffer == (if z.version == cur then z.buffer else []) + [f]
      && (if z.job.Idle? then z1.job == if |z1.buffer| > max then Queued else Idle else z1.job == z.job)
      && (z1.job.Idle? ==> |z1.buffer| <= max)
  {
  }

  /** The steps of the job keep the count, and it starts again with the replay. */
  lemma JobKeepsCount<S>(e: Engine<S>, cs: Channels, z: Serialized<S>, cur: Version)
    requires Counted(z)
    ensures z.job.Queued? ==> Counted(JobLoad(e, cs, z, cur))
    ensures z.job.Draining? && z.buffer != [] ==> Counted(JobDrain(e, cs, z))
    ensures z.job.Draining? && z.buffer == [] ==> Counted(JobFire(e, cs, z)) && JobFire(e, cs, z).size == 0
    ensures z.job.Fired? ==> Counted(JobPublish(z))
  {
  }

  function AddAll<S>(e: Engine<S>, cs: Channels, z: Serialized<S>, cur: Version, max: int, fs: seq<Fact>): Serialized<S> {
    if fs == [] then z else Add(e, cs, AddAll(e, cs, z, cur, max, fs[..|fs| - 1]), cur, max, fs[|fs| - 1])
  }

  /** However many facts arrive: the count decides when a snapshot is submitted. */
  lemma {:induction false} AdditionsCount<S>(e: Engine<S>, cs: Channels, z: Serialized<S>, cur: Version, max: int, fs: seq<Fact>)
    requires z.job.Idle? && fs != []
    ensures var z0, z1 := UpToDate(e, cs, z, cur), AddAll(e, cs, z, cur, max, fs);
      && z1.version == cur && z1.buffer == z0.buffer + fs && z1.size == z0.size + |fs|
      && z1.job == if z1.size > max then Queued else Idle
  {
    var init, last := fs[..|fs| - 1], fs[|fs| - 1];
    assert init + [last] == fs;
    hide RebuildAndUpgrade;
    if init == [] {
      assert AddAll(e, cs, z, cur, max, init) == z;
    } else {
      AdditionsCount(e, cs, z, cur, max, init);
    }
  }

  /** If the count is that of the buffer, a snapshot is submitted if and only if the buffer has come to
      hold more than the maximum. */
  lemma AdditionsSubmit<S>(e: Engine<S>, cs: Channels, z: Serialized<S>, cur: Version, max: int, fs: seq<Fact>)
    requires Counted(z) && z.job.Idle? && fs != []
    ensures var z1 := AddAll(e, cs, z, cur, max, fs);
      && Counted(z1) && z1.version == cur && z1.buffer == (if z.version == cur then z.buffer else []) + fs
      && z1.job == if |z1.buffer| > max then Queued else Idle
  {
    hide AddAll;
    AdditionsCount(e, cs, z, cur, max, fs);
  }

  // Why the law is asked for

  /** Rules that count their own firings: all of `Lawful` but the last law. */
  function CountingRules(): Engine<int> {
    Engine((v: Version) => 0, (s: int, f: Fact) => s, (v: Version, c: int, s: int) => s + 1,
           (v: Version, c: int, s: int) => [], (v: Version, w: Version, s: int) => s)
  }

  /** Whatever the replica, the rebuilt session of the counting rules is in the state the replica
      stood for if and only if there was at most one fact to replay. */
  lemma CountingRulesDiverge(cs: Channels, z: Serialized<int>)
    requires z.job.Idle?
    ensures Rebuild(CountingRules(), cs, z, z.version).Bare() == Meaning(CountingRules(), z, z.version) <==> |z.buffer| <= 1
  {
    var e := CountingRules();
    var k := DeserializeOrCreate(e, z.version, z.session);
    CountedOnce(RegisterReplayChannels(cs, k), z.buffer);
    assert [] + z.buffer == z.buffer;
    var held := ProcessAll(e, k.Bare(), z.buffer);
    assert Meaning(e, z, z.version) == held;
    hide ProcessAll, InsertAll, Meaning;
    var r := Replay(e, cs, k, z.buffer);
    assert r.memory == (if z.buffer == [] then k.memory else k.memory + 1);
    assert Rebuild(e, cs, z, z.version) == r;
  }

  lemma {:induction false} CountedOnce(k: KieSession<int>, fs: seq<Fact>)
    ensures InsertAll(CountingRules(), k, fs).Bare() == State(k.version, k.memory, if fs == [] then k.clock else fs[|fs| - 1].instant)
    ensures ProcessAll(CountingRules(), k.Bare(), fs)
         == State(k.version, k.memory + |fs|, if fs == [] then k.clock else fs[|fs| - 1].instant)
  {
    if fs != [] { CountedOnce(k, fs[..|fs| - 1]); }
  }
}
