/** The nodes that own one fact group, as a state machine: the primary inserts and ships
    deltas, the others buffer them, snapshot in the background, join by state transfer,
    crash and take over, while rules are upgraded between facts. `Run` folds any sequence
    of steps; the theorems compare every run with one node that processes the same facts
    and upgrades alone. */
module SessionCluster {
  import opened Options
  import opened RulesEngine
  import opened SerializedSession

  type Node = nat

  datatype Delta = EmptyDelta | FactDelta(fact: Fact)

  /** A node's cache value for the group: none, a live session object, or a replica. */
  datatype Copy<+S> = Absent | Live(session: Option<KieSession<S>>) | Stored(z: Serialized<S>)

  /** `inbox` holds deltas sent to the node and not yet merged, oldest first. */
  datatype Replica<+S> = Replica(copy: Copy<S>, inbox: seq<Delta>)

  datatype Config<!S> = Config(engine: Engine<S>, channels: Channels, maxBuffer: int)

  /** What live listeners heard during one step; `kept` is false when the node died
      between firing and putting the session back. */
  datatype Emission = Emission(kept: bool, outputs: seq<Output>)

  datatype Cluster<+S> = Cluster(
    nodes: map<Node, Replica<S>>, primary: Option<Node>, version: Version, heard: seq<Emission>)

  datatype Step =
    | Insert(fact: Fact)        // the saver's critical section on the primary
    | InsertAndDie(fact: Fact)  // the same, but the node dies after firing and before the put
    | Deliver(node: Node)
    | StartSnapshot(node: Node)
    | Load(node: Node)
    | Drain(node: Node)
    | Fire(node: Node)
    | Publish(node: Node)
    | Join(node: Node, source: Node)
    | Crash(node: Node)
    | Promote(node: Node)
    | Upgrade(version: Version)

  // Steps of one node

  function Wrap<S>(session: Option<KieSession<S>>, cur: Version): Serialized<S> {
    match session
    case None => Empty(cur)
    case Some(k) => Serialized(cur, Some(Serialize(k)), [], 0, Idle)
  }

  function Merge<S>(cfg: Config<S>, d: Delta, copy: Copy<S>, cur: Version): Copy<S> {
    match d
    case EmptyDelta => if copy.Absent? then Stored(Empty(cur)) else copy
    case FactDelta(f) =>
      var z := match copy
        case Absent => Empty(cur)
        case Live(session) => Wrap(session, cur)
        case Stored(z) => z;
      Stored(Add(cfg.engine, cfg.channels, z, cur, cfg.maxBuffer, f))
  }

  function MergeHeard<S>(cfg: Config<S>, d: Delta, copy: Copy<S>, cur: Version): seq<Output> {
    if d.FactDelta? && copy.Stored? then UpToDateHeard(cfg.engine, cfg.channels, copy.z, cur) else []
  }

  /** The live session the saver works on: new, reused, or rebuilt from the replica. */
  function Opened<S>(cfg: Config<S>, copy: Copy<S>, cur: Version): KieSession<S> {
    match copy
    case Absent => RegisterChannels(cfg.channels, NewKieSession(cfg.engine, cur))
    case Live(None) => RegisterChannels(cfg.channels, NewKieSession(cfg.engine, cur))
    case Live(Some(k)) => k
    case Stored(z) => Rebuild(cfg.engine, cfg.channels, z, cur)
  }

  function Inserted<S>(cfg: Config<S>, copy: Copy<S>, cur: Version, f: Fact): KieSession<S> {
    FireAllRules(cfg.engine, InsertFact(cfg.engine, Opened(cfg, copy, cur), f))
  }

  function InsertHeard<S>(cfg: Config<S>, copy: Copy<S>, cur: Version, f: Fact): seq<Output> {
    (if copy.Stored? then RebuildHeard(cfg.engine, cfg.channels, copy.z, cur) else [])
    + Sends(cfg.engine, InsertFact(cfg.engine, Opened(cfg, copy, cur), f), LiveListener)
  }

  function Shipped<S>(copy: Copy<S>, f: Fact): seq<Delta> {
    if copy.Absent? then [EmptyDelta, FactDelta(f)] else [FactDelta(f)]
  }

  function UpgradeCopy<S>(cfg: Config<S>, copy: Copy<S>, v: Version): Copy<S> {
    if copy.Live? && copy.session.Some? then Live(Some(UpdateToVersion(cfg.engine, copy.session.value, v))) else copy
  }

  /** What a joining node reads from what the source wrote; see module StateTransfer. */
  function Transferred<S>(copy: Copy<S>, cur: Version): Copy<S> {
    match copy
    case Absent => Absent
    case Live(session) => Stored(Wrap(session, cur))
    case Stored(z) =>
      Stored(Serialized(if z.session.None? then cur else z.version, z.session, z.buffer, 0, Idle))
  }

  /** The writer reads bytes and buffer one after the other, so no snapshot may be submitted or
      running; and a replica without bytes has nowhere to keep its version on the wire. */
  predicate TransferSafe<S>(copy: Copy<S>, cur: Version) {
    copy.Stored? ==> copy.z.job.Idle? && (copy.z.session.None? ==> copy.z.version == cur)
  }

  /** The steps of the snapshot job on one replica. */
  predicate IsJobStep(step: Step) {
    step.StartSnapshot? || step.Load? || step.Drain? || step.Fire? || step.Publish?
  }

  /** A snapshot is submitted by an addition, after it has caught up with the rules. */
  predicate JobEnabled<S>(z: Serialized<S>, cur: Version, step: Step) {
    match step
    case StartSnapshot(_) => z.version == cur
    case Load(_) => z.job.Queued?
    case Drain(_) => z.job.Draining? && z.buffer != []
    case Fire(_) => z.job.Draining? && z.buffer == []
    case Publish(_) => z.job.Fired?
    case _ => false
  }

  function JobStep<S>(cfg: Config<S>, z: Serialized<S>, cur: Version, step: Step): Serialized<S>
    requires JobEnabled(z, cur, step)
  {
    match step
    case StartSnapshot(_) => CreateSnapshot(z)
    case Load(_) => JobLoad(cfg.engine, cfg.channels, z, cur)
    case Drain(_) => JobDrain(cfg.engine, cfg.channels, z)
    case Fire(_) => JobFire(cfg.engine, cfg.channels, z)
    case Publish(_) => JobPublish(z)
  }

  function JobStepHeard<S>(cfg: Config<S>, z: Serialized<S>, cur: Version, step: Step): seq<Output>
    requires JobEnabled(z, cur, step)
  {
    match step
    case Load(_) => UpToDateHeard(cfg.engine, cfg.channels, z, cur)
    case Fire(_) => JobFireHeard(cfg.engine, z)
    case _ => []
  }

  // Steps of the cluster

  predicate Settled<S>(c: Cluster<S>) {
    forall n :: n in c.nodes ==> c.nodes[n].inbox == []
  }

  predicate CanOpen<S>(c: Cluster<S>) {
    && c.primary.Some?
    && c.primary.value in c.nodes
    && var copy := c.nodes[c.primary.value].copy;
       copy.Stored? ==> copy.z.job.Idle?
  }

  predicate Replicates<S>(c: Cluster<S>, n: Node) {
    n in c.nodes && c.nodes[n].copy.Stored?
  }

  predicate Enabled<S>(cfg: Config<S>, c: Cluster<S>, step: Step) {
    match step
    case Insert(_) => CanOpen(c)
    case InsertAndDie(_) => CanOpen(c)
    case Deliver(n) => n in c.nodes && c.nodes[n].inbox != []
    case Join(n, src) =>
      && n !in c.nodes && src in c.nodes && c.nodes[src].inbox == []
      && TransferSafe(c.nodes[src].copy, c.version)
    case Crash(n) => n in c.nodes
    case Promote(n) => n in c.nodes && Settled(c)
    case Upgrade(_) =>
      && Settled(c)
      && forall n :: n in c.nodes && c.nodes[n].copy.Stored? ==> c.nodes[n].copy.z.job.Idle?
    case _ => Replicates(c, step.node) && JobEnabled(c.nodes[step.node].copy.z, c.version, step)
  }

  function SetCopy<S>(c: Cluster<S>, n: Node, copy: Copy<S>, outputs: seq<Output>): Cluster<S>
    requires n in c.nodes
  {
    c.(nodes := c.nodes[n := c.nodes[n].(copy := copy)], heard := c.heard + [Emission(true, outputs)])
  }

  function Without<S>(c: Cluster<S>, n: Node): Cluster<S> {
    c.(nodes := c.nodes - {n}, primary := if c.primary == Some(n) then None else c.primary)
  }

  function Next<S>(cfg: Config<S>, c: Cluster<S>, step: Step): Cluster<S>
    requires Enabled(cfg, c, step)
  {
    var cur := c.version;
    match step
    case Insert(f) =>
      var p := c.primary.value;
      var copy := c.nodes[p].copy;
      c.(nodes := map n | n in c.nodes ::
           if n == p then c.nodes[n].(copy := Live(Some(Inserted(cfg, copy, cur, f))))
           else c.nodes[n].(inbox := c.nodes[n].inbox + Shipped(copy, f)),
         heard := c.heard + [Emission(true, InsertHeard(cfg, copy, cur, f))])
    case InsertAndDie(f) =>
      var p := c.primary.value;
      Without(c, p).(heard := c.heard + [Emission(false, InsertHeard(cfg, c.nodes[p].copy, cur, f))])
    case Deliver(n) =>
      var r := c.nodes[n];
      c.(nodes := c.nodes[n := Replica(Merge(cfg, r.inbox[0], r.copy, cur), r.inbox[1..])],
         heard := c.heard + [Emission(true, MergeHeard(cfg, r.inbox[0], r.copy, cur))])
    case Join(n, src) => c.(nodes := c.nodes[n := Replica(Transferred(c.nodes[src].copy, cur), [])])
    case Crash(n) => Without(c, n)
    case Promote(n) => c.(primary := Some(n))
    case Upgrade(v) =>
      c.(version := v, nodes := map n | n in c.nodes :: c.nodes[n].(copy := UpgradeCopy(cfg, c.nodes[n].copy, v)))
    case _ =>
      var z := c.nodes[step.node].copy.z;
      SetCopy(c, step.node, Stored(JobStep(cfg, z, cur, step)), JobStepHeard(cfg, z, cur, step))
  }

  predicate Init<S>(c: Cluster<S>, v0: Version) {
    && c.version == v0 && c.primary.None? && c.heard == []
    && forall n :: n in c.nodes ==> c.nodes[n] == Replica(Absent, [])
  }

  /** The cluster after a run, or None when some step was not enabled. */
  function Run<S>(cfg: Config<S>, c0: Cluster<S>, steps: seq<Step>): Option<Cluster<S>> {
    if steps == [] then Some(c0) else
      var before := Run(cfg, c0, steps[..|steps| - 1]);
      var step := steps[|steps| - 1];
      if before.Some? && Enabled(cfg, before.value, step) then Some(Next(cfg, before.value, step)) else None
  }

  // The specification: one node that never fails

  datatype Event = Arrived(fact: Fact) | Upgraded(version: Version)

  function Log(steps: seq<Step>): seq<Event> {
    if steps == [] then [] else
      Log(steps[..|steps| - 1]) + Logged(steps[|steps| - 1])
  }

  function Logged(step: Step): seq<Event> {
    match step
    case Insert(f) => [Arrived(f)]
    case Upgrade(v) => [Upgraded(v)]
    case _ => []
  }

  function Handle<S>(e: Engine<S>, s: State<S>, ev: Event): State<S> {
    match ev
    case Arrived(f) => Process(e, s, f)
    case Upgraded(v) => Migrate(e, s, v)
  }

  function Single<S>(e: Engine<S>, v0: Version, log: seq<Event>): State<S> {
    if log == [] then State(v0, e.create(v0), 0) else
      Handle(e, Single(e, v0, log[..|log| - 1]), log[|log| - 1])
  }

  function SingleHeard<S>(cfg: Config<S>, v0: Version, log: seq<Event>): seq<Output> {
    if log == [] then [] else
      var before := log[..|log| - 1];
      SingleHeard(cfg, v0, before) + HandleHeard(cfg, Single(cfg.engine, v0, before), log[|log| - 1])
  }

  /** What the rules send for a fact at its instant, on the live channels. */
  function HandleHeard<S>(cfg: Config<S>, s: State<S>, ev: Event): seq<Output> {
    match ev
    case Arrived(f) => OnChannels(cfg.engine.sends(s.version, f.instant, cfg.engine.insert(s.memory, f)), cfg.channels.live)
    case Upgraded(_) => []
  }

  // Refinement

  function FactOf(d: Delta): seq<Event> {
    if d.FactDelta? then [Arrived(d.fact)] else []
  }

  function FactsOf(inbox: seq<Delta>): seq<Event> {
    if inbox == [] then [] else FactOf(inbox[0]) + FactsOf(inbox[1..])
  }

  ghost function CopyMeaning<S>(e: Engine<S>, copy: Copy<S>, cur: Version): State<S> {
    match copy
    case Absent => State(cur, e.create(cur), 0)
    case Live(None) => State(cur, e.create(cur), 0)
    case Live(Some(k)) => k.Bare()
    case Stored(z) => Meaning(e, z, cur)
  }

  ghost predicate CopyConsistent<S>(cfg: Config<S>, copy: Copy<S>, cur: Version) {
    match copy
    case Absent => true
    case Live(None) => true
    case Live(Some(k)) =>
      k.version == cur && forall c :: (c in k.channels && k.channels[c] == LiveListener) <==> c in cfg.channels.live
    case Stored(z) => Consistent(cfg.engine, z, cur)
  }

  /** The node stands for a prefix of the log; the rest of the log is in its inbox. */
  ghost predicate FollowsLog<S>(cfg: Config<S>, v0: Version, cur: Version, r: Replica<S>, log: seq<Event>) {
    && CopyConsistent(cfg, r.copy, cur)
    && |FactsOf(r.inbox)| <= |log|
    && var k := |log| - |FactsOf(r.inbox)|;
       log[k..] == FactsOf(r.inbox) && CopyMeaning(cfg.engine, r.copy, cur) == Single(cfg.engine, v0, log[..k])
  }

  ghost predicate Inv<S>(cfg: Config<S>, v0: Version, c: Cluster<S>, log: seq<Event>) {
    && c.version == Single(cfg.engine, v0, log).version
    && (c.primary.Some? && c.primary.value in c.nodes ==> c.nodes[c.primary.value].inbox == [])
    && forall n :: n in c.nodes ==> FollowsLog(cfg, v0, c.version, c.nodes[n], log)
  }

  lemma {:induction false} FactsOfAppend(inbox: seq<Delta>, more: seq<Delta>)
    ensures FactsOf(inbox + more) == FactsOf(inbox) + FactsOf(more)
  {
    hide FactsOf;
    if inbox == [] {
      NoFacts(inbox);
      assert inbox + more == more;
    } else {
      FactsOfFirst(inbox);
      FactsOfFirst(inbox + more);
      FactsOfAppend(inbox[1..], more);
      assert (inbox + more)[0] == inbox[0] && (inbox + more)[1..] == inbox[1..] + more;
      var first := FactOf(inbox[0]);
      assert first + FactsOf(inbox[1..]) + FactsOf(more) == first + (FactsOf(inbox[1..]) + FactsOf(more));
    }
  }

  lemma NoFacts(inbox: seq<Delta>)
    requires inbox == []
    ensures FactsOf(inbox) == []
  {
  }

  lemma FactsOfFirst(inbox: seq<Delta>)
    requires inbox != []
    ensures FactsOf(inbox) == FactOf(inbox[0]) + FactsOf(inbox[1..])
  {
  }

  lemma ShippedFacts<S>(copy: Copy<S>, f: Fact)
    ensures FactsOf(Shipped(copy, f)) == [Arrived(f)]
  {
    assert FactsOf([FactDelta(f)]) == [Arrived(f)];
    assert [EmptyDelta, FactDelta(f)][1..] == [FactDelta(f)];
  }

  lemma WrapMeaning<S(!new)>(cfg: Config<S>, session: Option<KieSession<S>>, cur: Version)
    requires Lawful(cfg.engine) && CopyConsistent(cfg, Live(session), cur)
    ensures Consistent(cfg.engine, Wrap(session, cur), cur)
    ensures Meaning(cfg.engine, Wrap(session, cur), cur) == CopyMeaning(cfg.engine, Live(session), cur)
  {
    CurrentMeaning(cfg.engine, Wrap(session, cur), cur);
  }

  lemma EmptyMeaning<S(!new)>(cfg: Config<S>, cur: Version)
    requires Lawful(cfg.engine)
    ensures Consistent(cfg.engine, Empty(cur), cur)
    ensures Meaning(cfg.engine, Empty(cur), cur) == State(cur, cfg.engine.create(cur), 0)
  {
    CurrentMeaning(cfg.engine, Empty(cur), cur);
  }

  lemma MergeMeaning<S(!new)>(cfg: Config<S>, d: Delta, copy: Copy<S>, cur: Version)
    requires Lawful(cfg.engine) && CopyConsistent(cfg, copy, cur)
    ensures var copy1 := Merge(cfg, d, copy, cur);
            && CopyConsistent(cfg, copy1, cur)
            && CopyMeaning(cfg.engine, copy1, cur) ==
               if d.FactDelta? then Process(cfg.engine, CopyMeaning(cfg.engine, copy, cur), d.fact)
               else CopyMeaning(cfg.engine, copy, cur)
    ensures MergeHeard(cfg, d, copy, cur) == []
  {
    EmptyMeaning(cfg, cur);
    if copy.Stored? { CatchingUpIsSilent(cfg.engine, cfg.channels, copy.z, cur); }
    if copy.Live? { WrapMeaning(cfg, copy.session, cur); }
    if d.FactDelta? {
      var z := match copy case Absent => Empty(cur) case Live(session) => Wrap(session, cur) case Stored(z) => z;
      AddMeaning(cfg.engine, cfg.channels, z, cur, cfg.maxBuffer, d.fact);
    }
  }

  lemma DeliverFollows<S(!new)>(cfg: Config<S>, v0: Version, cur: Version, r: Replica<S>, log: seq<Event>)
    requires Lawful(cfg.engine) && r.inbox != [] && FollowsLog(cfg, v0, cur, r, log)
    ensures FollowsLog(cfg, v0, cur, Replica(Merge(cfg, r.inbox[0], r.copy, cur), r.inbox[1..]), log)
  {
    hide Lawful, Single, CopyMeaning, CopyConsistent, Merge, MergeHeard, FactsOf, Process;
    MergeMeaning(cfg, r.inbox[0], r.copy, cur);
    FirstOfInbox(r.inbox, log);
    if r.inbox[0].FactDelta? {
      SingleAppend(cfg.engine, v0, log[..|log| - |FactsOf(r.inbox)|], Arrived(r.inbox[0].fact));
    }
  }

  /** What the rest of the log looks like once the oldest delta is off the inbox. */
  lemma FirstOfInbox(inbox: seq<Delta>, log: seq<Event>)
    requires inbox != [] && |FactsOf(inbox)| <= |log| && log[|log| - |FactsOf(inbox)|..] == FactsOf(inbox)
    ensures var k, k1 := |log| - |FactsOf(inbox)|, |log| - |FactsOf(inbox[1..])|;
            && k1 == k + |FactOf(inbox[0])| <= |log| && log[k1..] == FactsOf(inbox[1..])
            && log[..k1] == log[..k] + FactOf(inbox[0])
  {
    FactsOfFirst(inbox);
    hide FactsOf;
    SplitEnd(log, FactOf(inbox[0]), FactsOf(inbox[1..]));
  }

  lemma SplitEnd<T>(s: seq<T>, a: seq<T>, b: seq<T>)
    requires |a + b| <= |s| && s[|s| - |a + b|..] == a + b
    ensures s[|s| - |b|..] == b && s[..|s| - |b|] == s[..|s| - |a + b|] + a
  {
    var k, end := |s| - |a + b|, s[|s| - |a + b|..];
    assert s == s[..k] + end;
    assert s == s[..k] + a + b;
  }

  lemma OpenedMeaning<S(!new)>(cfg: Config<S>, copy: Copy<S>, cur: Version)
    requires Lawful(cfg.engine) && CopyConsistent(cfg, copy, cur) && (copy.Stored? ==> copy.z.job.Idle?)
    ensures Opened(cfg, copy, cur).Bare() == CopyMeaning(cfg.engine, copy, cur)
    ensures CopyConsistent(cfg, Live(Some(Opened(cfg, copy, cur))), cur)
  {
    if copy.Stored? {
      var e, cs, z := cfg.engine, cfg.channels, copy.z;
      RebuildMeaning(e, cs, z, cur);
      var z1 := UpToDate(e, cs, z, cur);
      ReplayListeners(e, cs, cur, z1.session, z1.buffer);
    }
  }

  lemma InsertedMeaning<S(!new)>(cfg: Config<S>, copy: Copy<S>, cur: Version, f: Fact)
    requires Lawful(cfg.engine) && CopyConsistent(cfg, copy, cur) && (copy.Stored? ==> copy.z.job.Idle?)
    ensures Inserted(cfg, copy, cur, f).Bare() == Process(cfg.engine, CopyMeaning(cfg.engine, copy, cur), f)
    ensures CopyConsistent(cfg, Live(Some(Inserted(cfg, copy, cur, f))), cur)
    ensures InsertHeard(cfg, copy, cur, f) == HandleHeard(cfg, CopyMeaning(cfg.engine, copy, cur), Arrived(f))
  {
    OpenedMeaning(cfg, copy, cur);
    if copy.Stored? { CatchingUpIsSilent(cfg.engine, cfg.channels, copy.z, cur); }
    var k := InsertFact(cfg.engine, Opened(cfg, copy, cur), f);
    HeardIsOnChannels(cfg.engine.sends(k.version, k.clock, k.memory), k.channels, LiveListener);
    assert NamesWith(k.channels, LiveListener) == cfg.channels.live;
  }

  lemma SingleAppend<S>(e: Engine<S>, v0: Version, log: seq<Event>, ev: Event)
    ensures Single(e, v0, log + [ev]) == Handle(e, Single(e, v0, log), ev)
  {
    assert (log + [ev])[..|log|] == log;
  }

  lemma FollowsAppend<S(!new)>(cfg: Config<S>, v0: Version, cur: Version, r: Replica<S>, log: seq<Event>, ds: seq<Delta>, f: Fact)
    requires FollowsLog(cfg, v0, cur, r, log) && FactsOf(ds) == [Arrived(f)]
    ensures FollowsLog(cfg, v0, cur, r.(inbox := r.inbox + ds), log + [Arrived(f)])
  {
    hide Single, CopyMeaning, CopyConsistent, FactsOf;
    FactsOfAppend(r.inbox, ds);
    var k := |log| - |FactsOf(r.inbox)|;
    assert (log + [Arrived(f)])[..k] == log[..k];
    assert (log + [Arrived(f)])[k..] == log[k..] + [Arrived(f)];
  }

  lemma PrimaryFollows<S(!new)>(cfg: Config<S>, v0: Version, cur: Version, r: Replica<S>, log: seq<Event>, f: Fact)
    requires Lawful(cfg.engine) && FollowsLog(cfg, v0, cur, r, log) && r.inbox == [] && (r.copy.Stored? ==> r.copy.z.job.Idle?)
    ensures FollowsLog(cfg, v0, cur, r.(copy := Live(Some(Inserted(cfg, r.copy, cur, f)))), log + [Arrived(f)])
  {
    var log1, k := log + [Arrived(f)], Inserted(cfg, r.copy, cur, f);
    assert CopyMeaning(cfg.engine, Live(Some(k)), cur) == k.Bare();
    assert FactsOf(r.inbox) == [];
    hide Single, Inserted, InsertHeard, Sends, Lawful, CopyConsistent, CopyMeaning, Process, FactsOf;
    SingleAppend(cfg.engine, v0, log, Arrived(f));
    assert log[..|log|] == log && log1[..|log1|] == log1;
    InsertedMeaning(cfg, r.copy, cur, f);
  }

  lemma ArrivalKeepsVersion<S>(e: Engine<S>, v0: Version, log: seq<Event>, f: Fact)
    ensures Single(e, v0, log + [Arrived(f)]).version == Single(e, v0, log).version
  {
    SingleAppend(e, v0, log, Arrived(f));
  }

  /** A node after an insert on the primary. */
  lemma NodeAfterInsert<S>(cfg: Config<S>, c: Cluster<S>, f: Fact, n: Node)
    requires CanOpen(c)
    ensures n in Next(cfg, c, Insert(f)).nodes <==> n in c.nodes
    ensures n in c.nodes ==>
      var p := c.primary.value;
      var copy := c.nodes[p].copy;
      Next(cfg, c, Insert(f)).nodes[n] ==
        if n == p then c.nodes[n].(copy := Live(Some(Inserted(cfg, copy, c.version, f))))
        else c.nodes[n].(inbox := c.nodes[n].inbox + Shipped(copy, f))
  {
    hide Inserted, InsertHeard, Shipped;
  }

  lemma InsertKeepsInv<S(!new)>(cfg: Config<S>, v0: Version, c: Cluster<S>, log: seq<Event>, f: Fact)
    requires Lawful(cfg.engine) && Inv(cfg, v0, c, log) && CanOpen(c)
    ensures Inv(cfg, v0, Next(cfg, c, Insert(f)), log + [Arrived(f)])
  {
    var p := c.primary.value;
    var copy := c.nodes[p].copy;
    var c1, log1 := Next(cfg, c, Insert(f)), log + [Arrived(f)];
    assert c1.version == c.version && c1.primary == c.primary && c.nodes[p].inbox == [] && (copy.Stored? ==> copy.z.job.Idle?);
    ArrivalKeepsVersion(cfg.engine, v0, log, f);
    ShippedFacts(copy, f);
    hide FollowsLog, Inserted, InsertHeard, Single, FactsOf, Shipped, Lawful, Next, Enabled;
    NodeAfterInsert(cfg, c, f, p);
    PrimaryFollows(cfg, v0, c.version, c.nodes[p], log, f);
    forall n | n in c1.nodes
      ensures FollowsLog(cfg, v0, c1.version, c1.nodes[n], log1)
    {
      NodeAfterInsert(cfg, c, f, n);
      if n != p { FollowsAppend(cfg, v0, c.version, c.nodes[n], log, Shipped(copy, f), f); }
    }
  }

  lemma UpgradedMeaning<S(!new)>(cfg: Config<S>, copy: Copy<S>, cur: Version, v: Version)
    requires Lawful(cfg.engine) && CopyConsistent(cfg, copy, cur)
    requires copy.Stored? ==> copy.z.job.Idle?
    ensures CopyConsistent(cfg, UpgradeCopy(cfg, copy, v), v)
    ensures CopyMeaning(cfg.engine, UpgradeCopy(cfg, copy, v), v) == Migrate(cfg.engine, CopyMeaning(cfg.engine, copy, cur), v)
  {
    hide Held;
    if copy.Stored? { MigrateTwice(cfg.engine, Held(cfg.engine, copy.z), cur, v); }
  }

  lemma UpgradeFollows<S(!new)>(cfg: Config<S>, v0: Version, cur: Version, r: Replica<S>, log: seq<Event>, v: Version)
    requires Lawful(cfg.engine) && FollowsLog(cfg, v0, cur, r, log) && r.inbox == []
    requires r.copy.Stored? ==> r.copy.z.job.Idle?
    requires cur == Single(cfg.engine, v0, log).version
    ensures FollowsLog(cfg, v0, v, r.(copy := UpgradeCopy(cfg, r.copy, v)), log + [Upgraded(v)])
  {
    hide CopyMeaning, CopyConsistent, UpgradeCopy, Lawful;
    UpgradedMeaning(cfg, r.copy, cur, v);
    SingleAppend(cfg.engine, v0, log, Upgraded(v));
    var log1 := log + [Upgraded(v)];
    assert log[..|log|] == log && log1[..|log1|] == log1;
  }

  lemma UpgradeKeepsInv<S(!new)>(cfg: Config<S>, v0: Version, c: Cluster<S>, log: seq<Event>, v: Version)
    requires Lawful(cfg.engine) && Inv(cfg, v0, c, log) && Enabled(cfg, c, Upgrade(v))
    ensures Inv(cfg, v0, Next(cfg, c, Upgrade(v)), log + [Upgraded(v)])
  {
    var c1, log1 := Next(cfg, c, Upgrade(v)), log + [Upgraded(v)];
    SingleAppend(cfg.engine, v0, log, Upgraded(v));
    forall n | n in c1.nodes
      ensures FollowsLog(cfg, v0, c1.version, c1.nodes[n], log1)
    {
      UpgradeFollows(cfg, v0, c.version, c.nodes[n], log, v);
    }
  }

  lemma JobStepMeaning<S(!new)>(cfg: Config<S>, z: Serialized<S>, cur: Version, step: Step)
    requires Lawful(cfg.engine) && Consistent(cfg.engine, z, cur) && JobEnabled(z, cur, step)
    ensures var z1 := JobStep(cfg, z, cur, step);
            Consistent(cfg.engine, z1, cur) && Meaning(cfg.engine, z1, cur) == Meaning(cfg.engine, z, cur)
    ensures JobStepHeard(cfg, z, cur, step) == []
  {
    var e, cs := cfg.engine, cfg.channels;
    match step
    case StartSnapshot(_) =>
    case Load(_) => JobLoadMeaning(e, cs, z, cur); CatchingUpIsSilent(e, cs, z, cur);
    case Drain(_) => JobDrainMeaning(e, cs, z, cur);
    case Fire(_) => JobFireMeaning(e, cs, z, cur);
    case Publish(_) => JobPublishMeaning(e, z, cur);
  }

  lemma TransferredMeaning<S(!new)>(cfg: Config<S>, copy: Copy<S>, cur: Version)
    requires Lawful(cfg.engine) && CopyConsistent(cfg, copy, cur) && TransferSafe(copy, cur)
    ensures CopyConsistent(cfg, Transferred(copy, cur), cur)
    ensures CopyMeaning(cfg.engine, Transferred(copy, cur), cur) == CopyMeaning(cfg.engine, copy, cur)
  {
    if copy.Live? { WrapMeaning(cfg, copy.session, cur); }
  }

  lemma NodeChangeKeepsInv<S(!new)>(cfg: Config<S>, v0: Version, c: Cluster<S>, log: seq<Event>, n: Node, r: Replica<S>, hs: seq<Emission>)
    requires Inv(cfg, v0, c, log) && FollowsLog(cfg, v0, c.version, r, log)
    requires c.primary == Some(n) ==> r.inbox == []
    ensures Inv(cfg, v0, c.(nodes := c.nodes[n := r], heard := hs), log)
  {
  }

  lemma DeliverKeepsInv<S(!new)>(cfg: Config<S>, v0: Version, c: Cluster<S>, log: seq<Event>, n: Node)
    requires Lawful(cfg.engine) && Inv(cfg, v0, c, log) && Enabled(cfg, c, Deliver(n))
    ensures Inv(cfg, v0, Next(cfg, c, Deliver(n)), log)
  {
    hide Merge, MergeHeard, Single, CopyMeaning, CopyConsistent, FollowsLog, FactsOf, Lawful;
    var r := c.nodes[n];
    DeliverFollows(cfg, v0, c.version, r, log);
    NodeChangeKeepsInv(cfg, v0, c, log, n, Replica(Merge(cfg, r.inbox[0], r.copy, c.version), r.inbox[1..]),
                       Next(cfg, c, Deliver(n)).heard);
  }

  lemma JoinKeepsInv<S(!new)>(cfg: Config<S>, v0: Version, c: Cluster<S>, log: seq<Event>, n: Node, src: Node)
    requires Lawful(cfg.engine) && Inv(cfg, v0, c, log) && Enabled(cfg, c, Join(n, src))
    ensures Inv(cfg, v0, Next(cfg, c, Join(n, src)), log)
  {
    assert FollowsLog(cfg, v0, c.version, c.nodes[src], log);
    TransferredMeaning(cfg, c.nodes[src].copy, c.version);
    NodeChangeKeepsInv(cfg, v0, c, log, n, Replica(Transferred(c.nodes[src].copy, c.version), []), c.heard);
  }

  lemma JobStepKeepsInv<S(!new)>(cfg: Config<S>, v0: Version, c: Cluster<S>, log: seq<Event>, step: Step)
    requires Lawful(cfg.engine) && Inv(cfg, v0, c, log) && Enabled(cfg, c, step) && IsJobStep(step)
    ensures Inv(cfg, v0, Next(cfg, c, step), log)
  {
    hide Meaning, JobStep, JobStepHeard, Consistent, Lawful, JobEnabled, Single;
    var r := c.nodes[step.node];
    var z1 := JobStep(cfg, r.copy.z, c.version, step);
    assert FollowsLog(cfg, v0, c.version, r, log);
    JobStepMeaning(cfg, r.copy.z, c.version, step);
    NodeChangeKeepsInv(cfg, v0, c, log, step.node, r.(copy := Stored(z1)), Next(cfg, c, step).heard);
  }

  /** Every step that adds nothing to the log keeps every node on a prefix of it. */
  lemma StepKeepsInv<S(!new)>(cfg: Config<S>, v0: Version, c: Cluster<S>, log: seq<Event>, step: Step)
    requires Lawful(cfg.engine) && Inv(cfg, v0, c, log) && Enabled(cfg, c, step)
    requires !step.Insert? && !step.Upgrade?
    ensures Inv(cfg, v0, Next(cfg, c, step), log)
  {
    match step
    case Deliver(n) => DeliverKeepsInv(cfg, v0, c, log, n);
    case Join(n, src) => JoinKeepsInv(cfg, v0, c, log, n, src);
    case InsertAndDie(_) =>
    case Crash(_) =>
    case Promote(_) =>
    case _ => JobStepKeepsInv(cfg, v0, c, log, step);
  }

  lemma {:induction false} RunKeepsInv<S(!new)>(cfg: Config<S>, v0: Version, c0: Cluster<S>, steps: seq<Step>)
    requires Lawful(cfg.engine) && Init(c0, v0) && Run(cfg, c0, steps).Some?
    ensures Inv(cfg, v0, Run(cfg, c0, steps).value, Log(steps))
  {
    if steps == [] {
      StartIsInv(cfg, v0, c0);
    } else {
      hide Inv, Enabled, Next, Lawful, Init;
      var init, step := steps[..|steps| - 1], steps[|steps| - 1];
      RunKeepsInv(cfg, v0, c0, init);
      OneStepKeepsInv(cfg, v0, Run(cfg, c0, init).value, Log(init), step);
    }
  }

  lemma StartIsInv<S(!new)>(cfg: Config<S>, v0: Version, c0: Cluster<S>)
    requires Init(c0, v0)
    ensures Inv(cfg, v0, c0, [])
  {
  }

  lemma OneStepKeepsInv<S(!new)>(cfg: Config<S>, v0: Version, c: Cluster<S>, log: seq<Event>, step: Step)
    requires Lawful(cfg.engine) && Inv(cfg, v0, c, log) && Enabled(cfg, c, step)
    ensures Inv(cfg, v0, Next(cfg, c, step), log + Logged(step))
  {
    match step
    case Insert(f) =>
      assert CanOpen(c);
      hide Inv, Enabled, Next, Lawful, CanOpen;
      InsertKeepsInv(cfg, v0, c, log, f);
    case Upgrade(v) =>
      hide Inv, Enabled, Next, Lawful;
      UpgradeKeepsInv(cfg, v0, c, log, v);
    case _ =>
      hide Inv, Enabled, Next, Lawful;
      StepKeepsInv(cfg, v0, c, log, step);
      assert log + [] == log;
  }

  // Theorems over whole runs

  /** Failover refinement. Whatever the run, each surviving node stands for the state that a
      single node reaches on a prefix of the logged facts and upgrades, and only the facts still
      in the node's inbox are missing. */
  lemma FailoverRefinement<S(!new)>(cfg: Config<S>, v0: Version, c0: Cluster<S>, steps: seq<Step>, n: Node)
    requires Lawful(cfg.engine) && Init(c0, v0) && Run(cfg, c0, steps).Some? && n in Run(cfg, c0, steps).value.nodes
    ensures var c, log := Run(cfg, c0, steps).value, Log(steps);
            var r := c.nodes[n];
            var missing := FactsOf(r.inbox);
            && |missing| <= |log|
            && log == log[..|log| - |missing|] + missing
            && CopyMeaning(cfg.engine, r.copy, c.version) == Single(cfg.engine, v0, log[..|log| - |missing|])
  {
    hide Single, CopyMeaning, CopyConsistent, Run, Lawful, Init, Log, FactsOf, FollowsLog;
    RunKeepsInv(cfg, v0, c0, steps);
    var c, log := Run(cfg, c0, steps).value, Log(steps);
    FollowingMeans(cfg, v0, c.version, c.nodes[n], log);
  }

  lemma FollowingMeans<S(!new)>(cfg: Config<S>, v0: Version, cur: Version, r: Replica<S>, log: seq<Event>)
    requires FollowsLog(cfg, v0, cur, r, log)
    ensures var missing := FactsOf(r.inbox);
            && |missing| <= |log|
            && log == log[..|log| - |missing|] + missing
            && CopyMeaning(cfg.engine, r.copy, cur) == Single(cfg.engine, v0, log[..|log| - |missing|])
  {
    hide Single, CopyMeaning, CopyConsistent, FactsOf;
    var k := |log| - |FactsOf(r.inbox)|;
    assert log == log[..k] + log[k..];
  }

  /** Once every delta is merged, all nodes stand for the state of the single node. */
  lemma SettledNodesAgree<S(!new)>(cfg: Config<S>, v0: Version, c0: Cluster<S>, steps: seq<Step>)
    requires Lawful(cfg.engine) && Init(c0, v0) && Run(cfg, c0, steps).Some? && Settled(Run(cfg, c0, steps).value)
    ensures var c := Run(cfg, c0, steps).value;
            forall n :: n in c.nodes ==>
              CopyMeaning(cfg.engine, c.nodes[n].copy, c.version) == Single(cfg.engine, v0, Log(steps))
  {
    var c, log := Run(cfg, c0, steps).value, Log(steps);
    forall n | n in c.nodes
      ensures CopyMeaning(cfg.engine, c.nodes[n].copy, c.version) == Single(cfg.engine, v0, log)
    {
      FailoverRefinement(cfg, v0, c0, steps, n);
      assert log[..|log|] == log;
    }
  }

  /** Whichever node is primary, and however it got its copy, the session that the saver opens
      on it is in the state of the node that never failed, with live listeners in place. */
  lemma PromotedSessionIsExact<S(!new)>(cfg: Config<S>, v0: Version, c0: Cluster<S>, steps: seq<Step>)
    requires Lawful(cfg.engine) && Init(c0, v0) && Run(cfg, c0, steps).Some? && CanOpen(Run(cfg, c0, steps).value)
    ensures var c := Run(cfg, c0, steps).value;
            var k := Opened(cfg, c.nodes[c.primary.value].copy, c.version);
            && k.Bare() == Single(cfg.engine, v0, Log(steps))
            && forall ch :: (ch in k.channels && k.channels[ch] == LiveListener) <==> ch in cfg.channels.live
  {
    RunKeepsInv(cfg, v0, c0, steps);
    var c, log := Run(cfg, c0, steps).value, Log(steps);
    var copy := c.nodes[c.primary.value].copy;
    assert log[..|log|] == log;
    OpenedMeaning(cfg, copy, c.version);
  }

  function Flatten(es: seq<Emission>): seq<Output> {
    if es == [] then [] else Flatten(es[..|es| - 1]) + es[|es| - 1].outputs
  }

  function Kept(es: seq<Emission>): seq<Emission> {
    if es == [] then [] else
      Kept(es[..|es| - 1]) + (if es[|es| - 1].kept then [es[|es| - 1]] else [])
  }

  /** What was heard from nodes that died between firing and putting. */
  function Orphaned(es: seq<Emission>): seq<Output> {
    if es == [] then [] else
      Orphaned(es[..|es| - 1]) + (if es[|es| - 1].kept then [] else es[|es| - 1].outputs)
  }

  lemma FlattenAppend(es: seq<Emission>, x: Emission)
    ensures Flatten(es + [x]) == Flatten(es) + x.outputs
    ensures Flatten(Kept(es + [x])) == Flatten(Kept(es)) + (if x.kept then x.outputs else [])
    ensures Orphaned(es + [x]) == Orphaned(es) + (if x.kept then [] else x.outputs)
  {
    assert (es + [x])[..|es|] == es;
    if x.kept {
      var kept := Kept(es) + [x];
      assert kept[..|kept| - 1] == Kept(es) && Kept(es + [x]) == kept;
    } else {
      assert Kept(es + [x]) == Kept(es) + [] == Kept(es);
    }
  }

  /** What the saver's critical section sends is what the single node sends. */
  lemma SaverHeard<S(!new)>(cfg: Config<S>, v0: Version, c: Cluster<S>, log: seq<Event>, f: Fact)
    requires Lawful(cfg.engine) && Inv(cfg, v0, c, log) && CanOpen(c)
    ensures InsertHeard(cfg, c.nodes[c.primary.value].copy, c.version, f) == HandleHeard(cfg, Single(cfg.engine, v0, log), Arrived(f))
  {
    hide Lawful, Inserted, InsertHeard, Single, CopyConsistent, HandleHeard, Opened;
    var r := c.nodes[c.primary.value];
    assert FollowsLog(cfg, v0, c.version, r, log);
    NoFacts(r.inbox);
    assert log[..|log|] == log;
    hide CopyMeaning, FactsOf;
    InsertedMeaning(cfg, r.copy, c.version, f);
  }

  /** The other steps are silent. */
  lemma OthersSilent<S(!new)>(cfg: Config<S>, v0: Version, c: Cluster<S>, log: seq<Event>, step: Step)
    requires Lawful(cfg.engine) && Inv(cfg, v0, c, log) && Enabled(cfg, c, step) && !step.Insert? && !step.InsertAndDie?
    ensures var heard := Next(cfg, c, step).heard; heard == c.heard || heard == c.heard + [Emission(true, [])]
  {
    if step.Deliver? {
      assert FollowsLog(cfg, v0, c.version, c.nodes[step.node], log);
      hide Lawful, Inv, Single, CopyMeaning, CopyConsistent, Merge, MergeHeard, FactsOf;
      var r := c.nodes[step.node];
      MergeMeaning(cfg, r.inbox[0], r.copy, c.version);
    } else if IsJobStep(step) {
      assert FollowsLog(cfg, v0, c.version, c.nodes[step.node], log);
      hide Lawful, Inv, Single, CopyMeaning, Consistent, Meaning, JobStep, JobStepHeard, JobEnabled, FactsOf;
      JobStepMeaning(cfg, c.nodes[step.node].copy.z, c.version, step);
    }
  }

  /** What a step adds to the live output. */
  lemma StepHeard<S(!new)>(cfg: Config<S>, v0: Version, c: Cluster<S>, log: seq<Event>, step: Step)
    requires Lawful(cfg.engine) && Inv(cfg, v0, c, log) && Enabled(cfg, c, step)
    ensures Flatten(Kept(Next(cfg, c, step).heard)) == Flatten(Kept(c.heard)) +
              match step
              case Insert(fact) => HandleHeard(cfg, Single(cfg.engine, v0, log), Arrived(fact))
              case _ => []
    ensures Orphaned(Next(cfg, c, step).heard) == Orphaned(c.heard) +
              match step
              case InsertAndDie(fact) => HandleHeard(cfg, Single(cfg.engine, v0, log), Arrived(fact))
              case _ => []
  {
    hide Lawful, Inv, Inserted, InsertHeard, HandleHeard, Single, Flatten, Kept, Orphaned;
    if step.Insert? || step.InsertAndDie? {
      SaverHeard(cfg, v0, c, log, step.fact);
      var x := Emission(step.Insert?, InsertHeard(cfg, c.nodes[c.primary.value].copy, c.version, step.fact));
      assert Next(cfg, c, step).heard == c.heard + [x];
      FlattenAppend(c.heard, x);
    } else {
      OthersSilent(cfg, v0, c, log, step);
      hide Next, Enabled;
      FlattenAppend(c.heard, Emission(true, []));
    }
  }

  /** Replays, snapshots and takeovers are silent: the live output of the puts that completed is
      that of the single node. */
  lemma {:induction false} KeptOutputIsSingleOutput<S(!new)>(cfg: Config<S>, v0: Version, c0: Cluster<S>, steps: seq<Step>)
    requires Lawful(cfg.engine) && Init(c0, v0) && Run(cfg, c0, steps).Some?
    ensures Flatten(Kept(Run(cfg, c0, steps).value.heard)) == SingleHeard(cfg, v0, Log(steps))
  {
    if steps == [] {
    } else {
      var init, step := steps[..|steps| - 1], steps[|steps| - 1];
      KeptOutputIsSingleOutput(cfg, v0, c0, init);
      RunKeepsInv(cfg, v0, c0, init);
      hide Inv, Enabled, Next, Lawful, HandleHeard, Single, Init, Flatten, Kept, SingleHeard;
      StepHeard(cfg, v0, Run(cfg, c0, init).value, Log(init), step);
      SingleHeardLogged(cfg, v0, Log(init), step);
    }
  }

  /** What the single node sends for a step. */
  lemma SingleHeardLogged<S>(cfg: Config<S>, v0: Version, log: seq<Event>, step: Step)
    ensures SingleHeard(cfg, v0, log + Logged(step)) == SingleHeard(cfg, v0, log) +
              match step
              case Insert(fact) => HandleHeard(cfg, Single(cfg.engine, v0, log), Arrived(fact))
              case _ => []
  {
    hide Single, Sends;
    if Logged(step) == [] {
      assert log + [] == log;
    } else {
      assert (log + Logged(step))[..|log|] == log;
    }
  }

  lemma {:induction false} FlattenSplits(es: seq<Emission>)
    ensures |Flatten(es)| == |Flatten(Kept(es))| + |Orphaned(es)|
    ensures Orphaned(es) == [] ==> Flatten(es) == Flatten(Kept(es))
  {
    if es != [] {
      var init, x := es[..|es| - 1], es[|es| - 1];
      FlattenSplits(init);
      assert init + [x] == es;
      FlattenAppend(init, x);
    }
  }

  /** What a single node would have sent for the facts whose node dies before the put. */
  function Lost<S>(cfg: Config<S>, v0: Version, steps: seq<Step>): seq<Output> {
    if steps == [] then [] else
      var init, step := steps[..|steps| - 1], steps[|steps| - 1];
      Lost(cfg, v0, init) +
      (if step.InsertAndDie? then HandleHeard(cfg, Single(cfg.engine, v0, Log(init)), Arrived(step.fact)) else [])
  }

  lemma {:induction false} OrphanedIsLost<S(!new)>(cfg: Config<S>, v0: Version, c0: Cluster<S>, steps: seq<Step>)
    requires Lawful(cfg.engine) && Init(c0, v0) && Run(cfg, c0, steps).Some?
    ensures Orphaned(Run(cfg, c0, steps).value.heard) == Lost(cfg, v0, steps)
  {
    if steps != [] {
      var init, step := steps[..|steps| - 1], steps[|steps| - 1];
      OrphanedIsLost(cfg, v0, c0, init);
      RunKeepsInv(cfg, v0, c0, init);
      hide Inv, Enabled, Next, Lawful, HandleHeard, Single;
      StepHeard(cfg, v0, Run(cfg, c0, init).value, Log(init), step);
    }
  }

  /** Every fact whose node dies before the put is one on which the rules send nothing. */
  ghost predicate DiesInSilence<S>(cfg: Config<S>, v0: Version, steps: seq<Step>) {
    forall i: nat :: i < |steps| && steps[i].InsertAndDie? ==>
      HandleHeard(cfg, Single(cfg.engine, v0, Log(steps[..i])), Arrived(steps[i].fact)) == []
  }

  lemma {:induction false} LostNothing<S>(cfg: Config<S>, v0: Version, steps: seq<Step>)
    ensures Lost(cfg, v0, steps) == [] <==> DiesInSilence(cfg, v0, steps)
  {
    hide HandleHeard, Single, Log;
    if steps != [] {
      var n := |steps| - 1;
      var init := steps[..n];
      LostNothing(cfg, v0, init);
      assert steps[..n] == init;
      forall i: nat | i < n
        ensures init[i] == steps[i] && init[..i] == steps[..i]
      {
      }
    }
  }

  /** Live output exactly once, up to the one window the code leaves open: the whole output
      equals the single node's if and only if every fact whose node dies between firing and
      putting is one on which the single node would have sent nothing. */
  lemma LiveOutputExactlyOnce<S(!new)>(cfg: Config<S>, v0: Version, c0: Cluster<S>, steps: seq<Step>)
    requires Lawful(cfg.engine) && Init(c0, v0) && Run(cfg, c0, steps).Some?
    ensures Flatten(Run(cfg, c0, steps).value.heard) == SingleHeard(cfg, v0, Log(steps)) <==> DiesInSilence(cfg, v0, steps)
  {
    KeptOutputIsSingleOutput(cfg, v0, c0, steps);
    FlattenSplits(Run(cfg, c0, steps).value.heard);
    OrphanedIsLost(cfg, v0, c0, steps);
    LostNothing(cfg, v0, steps);
  }

  const SUM_CONFIG := Config(RunningSum(), Channels({"additions"}, {}), 1000)
  const ONE_NODE: Cluster<Total> := Cluster(map[0 := Replica(Absent, [])], None, "1.0.0", [])

  lemma FirstSum()
    ensures InsertHeard(SUM_CONFIG, Absent, "1.0.0", Fact(1, 5)) == [Output("additions", 5)]
  {
    WeightOfOne("1.0.0");
    var e := SUM_CONFIG.engine;
    var k := InsertFact(e, Opened(SUM_CONFIG, Absent, "1.0.0"), Fact(1, 5));
    assert k.memory == Total(5, true);
    var sent := e.sends(k.version, k.clock, k.memory);
    assert sent == [Output("additions", 5)];
    HeardOne(sent[0], k.channels, LiveListener);
    assert Sends(e, k, LiveListener) == sent;
  }

  /** One node, taken over and lost in the window: the client hears a sum of which no node keeps
      the fact, and a repeated insert will send it again. */
  lemma DyingInTheWindowIsHeard()
    ensures var steps := [Promote(0), InsertAndDie(Fact(1, 5))];
            && Init(ONE_NODE, "1.0.0") && Run(SUM_CONFIG, ONE_NODE, steps).Some? && Log(steps) == []
            && Flatten(Run(SUM_CONFIG, ONE_NODE, steps).value.heard) == [Output("additions", 5)]
            && SingleHeard(SUM_CONFIG, "1.0.0", Log(steps)) == []
  {
    FirstSum();
    hide InsertHeard;
    var p, d := Promote(0), InsertAndDie(Fact(1, 5));
    assert [p, d][..1] == [p] && [p][..0] == [];
    var c1 := Next(SUM_CONFIG, ONE_NODE, p);
    assert Run(SUM_CONFIG, ONE_NODE, [p]) == Some(c1);
    FlattenAppend([], Emission(false, [Output("additions", 5)]));
    assert Log([p, d]) == Log([p]) + [] && Log([p]) == Log([]) + [];
  }
}
