/** What the cluster can always do next: merge what was sent, finish its snapshots, take over, let a
    node join. The theorems of SessionCluster say that no run goes wrong; these say that the runs a
    failover needs are there. */
module Takeover {
  import opened Options
  import opened RulesEngine
  import opened SerializedSession
  import opened SessionCluster

  // Runs in pieces

  lemma RunStep<S>(cfg: Config<S>, c0: Cluster<S>, steps: seq<Step>, step: Step)
    ensures Run(cfg, c0, steps + [step]) ==
      var r := Run(cfg, c0, steps);
      if r.Some? && Enabled(cfg, r.value, step) then Some(Next(cfg, r.value, step)) else None
    ensures Log(steps + [step]) == Log(steps) + Logged(step)
  {
    hide Enabled, Next;
    assert (steps + [step])[..|steps|] == steps;
  }

  lemma {:induction false} RunJoin<S>(cfg: Config<S>, c0: Cluster<S>, a: seq<Step>, b: seq<Step>)
    requires Run(cfg, c0, a).Some?
    ensures Run(cfg, c0, a + b) == Run(cfg, Run(cfg, c0, a).value, b)
    ensures Log(a + b) == Log(a) + Log(b)
  {
    hide Enabled, Next, Logged;
    if b == [] {
      assert a + b == a;
    } else {
      var init, last := b[..|b| - 1], b[|b| - 1];
      RunJoin(cfg, c0, a, init);
      RunStep(cfg, c0, a + init, last);
      assert a + init + [last] == a + b;
    }
  }

  // What goes on without anybody's doing

  /** A delivery or a step of a snapshot task. */
  predicate Quiet(steps: seq<Step>) {
    forall s :: s in steps ==> s.Deliver? || s.Load? || s.Drain? || s.Fire? || s.Publish?
  }

  lemma {:induction false} QuietLogsNothing(steps: seq<Step>)
    requires Quiet(steps)
    ensures Log(steps) == []
  {
    if steps != [] {
      assert steps[|steps| - 1] in steps;
      QuietLogsNothing(steps[..|steps| - 1]);
    }
  }

  /** Nothing to merge and no snapshot submitted. */
  predicate AtRest<S>(r: Replica<S>) {
    r.inbox == [] && (r.copy.Stored? ==> r.copy.z.job.Idle?)
  }

  /** The steps that the task of a replica still has to do. */
  function Work<S>(copy: Copy<S>): nat {
    if !copy.Stored? then 0 else
      match copy.z.job
      case Idle => 0
      case Queued => 3 + |copy.z.buffer|
      case Draining(_, _) => 2 + |copy.z.buffer|
      case Fired(_, _) => 1
  }

  /** The next step of a node that is not at rest. */
  function Pending<S>(r: Replica<S>, n: Node): Step
    requires !AtRest(r)
  {
    if r.inbox != [] then Deliver(n) else
      match r.copy.z.job
      case Queued => Load(n)
      case Draining(_, _) => if r.copy.z.buffer != [] then Drain(n) else Fire(n)
      case Fired(_, _) => Publish(n)
  }

  /** The next step is enabled, brings the node nearer to rest, and touches nothing else. */
  lemma PendingStep<S>(cfg: Config<S>, c: Cluster<S>, n: Node)
    requires n in c.nodes && !AtRest(c.nodes[n])
    ensures var step := Pending(c.nodes[n], n);
      && Quiet([step]) && Enabled(cfg, c, step)
      && var c1 := Next(cfg, c, step);
      && n in c1.nodes && c1.version == c.version && c1.primary == c.primary
      && c1.nodes == c.nodes[n := c1.nodes[n]]
      && (|c1.nodes[n].inbox| < |c.nodes[n].inbox| || (c1.nodes[n].inbox == c.nodes[n].inbox && Work(c1.nodes[n].copy) < Work(c.nodes[n].copy)))
      && (c.nodes[n].inbox == [] && Saving(c.nodes[n].copy, c.version) ==> Saving(c1.nodes[n].copy, c.version))
  {
    hide Add, InsertFact, FireAllRules, RegisterChannels, RegisterReplayChannels, Replay;
  }

  /** A snapshot is under way that takes in all there is, or is finished and has. */
  predicate Saving<S>(copy: Copy<S>, cur: Version) {
    && copy.Stored? && copy.z.version == cur
    && (copy.z.job.Fired? || copy.z.job.Idle? ==> copy.z.buffer == [])
    && (copy.z.job.Idle? ==> copy.z.session.Some?)
  }

  /** A run of quiet steps after which the node is at rest, and all else as before. */
  lemma {:induction false} Rests<S>(cfg: Config<S>, c: Cluster<S>, n: Node) returns (steps: seq<Step>)
    requires n in c.nodes
    ensures Quiet(steps) && Run(cfg, c, steps).Some?
    ensures var c1 := Run(cfg, c, steps).value;
            && n in c1.nodes && c1.nodes == c.nodes[n := c1.nodes[n]] && AtRest(c1.nodes[n])
            && c1.version == c.version && c1.primary == c.primary
    ensures c.nodes[n].inbox == [] && Saving(c.nodes[n].copy, c.version) ==> Saving(Run(cfg, c, steps).value.nodes[n].copy, c.version)
    decreases |c.nodes[n].inbox|, Work(c.nodes[n].copy)
  {
    if AtRest(c.nodes[n]) {
      steps := [];
      assert c.nodes == c.nodes[n := c.nodes[n]];
    } else {
      hide Enabled, Next, Pending, Work;
      var step := Pending(c.nodes[n], n);
      PendingStep(cfg, c, n);
      var c1 := Next(cfg, c, step);
      OneStep(cfg, c, step);
      var more := Rests(cfg, c1, n);
      RunJoin(cfg, c, [step], more);
      steps := [step] + more;
    }
  }

  lemma OneStep<S>(cfg: Config<S>, c: Cluster<S>, step: Step)
    requires Enabled(cfg, c, step)
    ensures Run(cfg, c, [step]) == Some(Next(cfg, c, step))
  {
    hide Enabled, Next;
    RunStep(cfg, c, [], step);
    assert [] + [step] == [step];
  }

  /** All nodes at rest. */
  predicate Calm<S>(c: Cluster<S>) {
    forall n :: n in c.nodes ==> AtRest(c.nodes[n])
  }

  lemma {:induction false} AllRest<S>(cfg: Config<S>, c: Cluster<S>, todo: set<Node>) returns (steps: seq<Step>)
    requires forall n :: n in c.nodes && n !in todo ==> AtRest(c.nodes[n])
    ensures Quiet(steps) && Run(cfg, c, steps).Some?
    ensures var c1 := Run(cfg, c, steps).value;
            Calm(c1) && c1.nodes.Keys == c.nodes.Keys && c1.version == c.version && c1.primary == c.primary
    decreases todo
  {
    hide Run, Log, AtRest;
    if n :| n in todo && n in c.nodes {
      var first := Rests(cfg, c, n);
      var c1 := Run(cfg, c, first).value;
      var more := AllRest(cfg, c1, todo - {n});
      RunJoin(cfg, c, first, more);
      steps := first + more;
    } else {
      NoSteps(cfg, c);
      steps := [];
    }
  }

  lemma NoSteps<S>(cfg: Config<S>, c: Cluster<S>)
    ensures Run(cfg, c, []) == Some(c) && Log([]) == []
  {
  }

  // What a calm cluster can do

  /** After these steps the node is primary and its live session is in the given state. */
  ghost predicate TakesOver<S>(cfg: Config<S>, c0: Cluster<S>, steps: seq<Step>, n: Node, s: State<S>) {
    var r := Run(cfg, c0, steps);
    && r.Some? && r.value.primary == Some(n) && n in r.value.nodes
    && var copy := r.value.nodes[n].copy;
       copy.Live? && copy.session.Some? && copy.session.value.Bare() == s
  }

  /** As soon as all deltas are merged, any surviving node without a submitted snapshot can be
      promoted and insert, whatever copy it has, and its live session is then in the state of the node
      that never failed. */
  lemma TakeoverSucceeds<S(!new)>(cfg: Config<S>, v0: Version, c0: Cluster<S>, steps: seq<Step>, n: Node, f: Fact)
    requires Lawful(cfg.engine) && Init(c0, v0) && Run(cfg, c0, steps).Some?
    requires var c := Run(cfg, c0, steps).value;
             n in c.nodes && AtRest(c.nodes[n]) && forall m :: m in c.nodes ==> c.nodes[m].inbox == []
    ensures TakesOver(cfg, c0, steps + [Promote(n), Insert(f)], n, Single(cfg.engine, v0, Log(steps) + [Arrived(f)]))
  {
    hide Run, Log, Single, Lawful, Init, FactsOf, CopyMeaning, Inserted, Next, Enabled;
    var all, c1 := PromoteAndInsert(cfg, c0, steps, n, f);
    var c2 := Run(cfg, c0, all).value;
    NodeAfterInsert(cfg, c1, f, n);
    var r := c2.nodes[n];
    FailoverRefinement(cfg, v0, c0, all, n);
    NoFacts(r.inbox);
    assert Log(all)[..|Log(all)|] == Log(all);
    MeaningOfLive(cfg, r.copy, c2.version);
  }

  lemma MeaningOfLive<S>(cfg: Config<S>, copy: Copy<S>, cur: Version)
    requires copy.Live? && copy.session.Some?
    ensures CopyMeaning(cfg.engine, copy, cur) == copy.session.value.Bare()
  {
  }

  lemma PromoteAndInsert<S>(cfg: Config<S>, c0: Cluster<S>, steps: seq<Step>, n: Node, f: Fact) returns (all: seq<Step>, c1: Cluster<S>)
    requires Run(cfg, c0, steps).Some?
    requires var c := Run(cfg, c0, steps).value;
             n in c.nodes && AtRest(c.nodes[n]) && forall m :: m in c.nodes ==> c.nodes[m].inbox == []
    ensures all == steps + [Promote(n), Insert(f)] && Log(all) == Log(steps) + [Arrived(f)]
    ensures CanOpen(c1) && c1.primary == Some(n) && n in c1.nodes && c1.nodes[n].inbox == [] && c1.nodes == Run(cfg, c0, steps).value.nodes
    ensures Enabled(cfg, c1, Insert(f)) && Run(cfg, c0, all) == Some(Next(cfg, c1, Insert(f)))
    ensures Next(cfg, c1, Insert(f)).primary == Some(n)
  {
    hide Run, Log, Inserted;
    c1 := Promoted(cfg, Run(cfg, c0, steps).value, n, f);
    hide Enabled, Next, CanOpen, AtRest;
    RunStep(cfg, c0, steps, Promote(n));
    RunStep(cfg, c0, steps + [Promote(n)], Insert(f));
    all := steps + [Promote(n)] + [Insert(f)];
    assert all == steps + [Promote(n), Insert(f)];
    assert Log(steps) + [] == Log(steps);
  }

  lemma Promoted<S>(cfg: Config<S>, c: Cluster<S>, n: Node, f: Fact) returns (c1: Cluster<S>)
    requires n in c.nodes && AtRest(c.nodes[n]) && forall m :: m in c.nodes ==> c.nodes[m].inbox == []
    ensures Enabled(cfg, c, Promote(n)) && c1 == Next(cfg, c, Promote(n))
    ensures CanOpen(c1) && c1.primary == Some(n) && c1.nodes == c.nodes && Enabled(cfg, c1, Insert(f))
    ensures Next(cfg, c1, Insert(f)).primary == Some(n)
  {
    c1 := Next(cfg, c, Promote(n));
  }

  /** When another node than the primary crashes, the primary goes on inserting into the same session. */
  lemma OthersMayCrash<S(!new)>(cfg: Config<S>, v0: Version, c0: Cluster<S>, steps: seq<Step>, other: Node, f: Fact)
    requires Lawful(cfg.engine) && Init(c0, v0) && Run(cfg, c0, steps).Some?
    requires var c := Run(cfg, c0, steps).value;
             CanOpen(c) && other in c.nodes && c.primary != Some(other)
    ensures var c := Run(cfg, c0, steps).value;
            TakesOver(cfg, c0, steps + [Crash(other), Insert(f)], c.primary.value, Single(cfg.engine, v0, Log(steps) + [Arrived(f)]))
  {
    hide Run, Log, Single, Lawful, Init, FactsOf, CopyMeaning, Inserted, InsertHeard;
    var c := Run(cfg, c0, steps).value;
    var c1 := Next(cfg, c, Crash(other));
    RunStep(cfg, c0, steps, Crash(other));
    assert Log(steps) + [] == Log(steps);
    InsertNow(cfg, v0, c0, steps + [Crash(other)], f);
    assert steps + [Crash(other)] + [Insert(f)] == steps + [Crash(other), Insert(f)];
  }

  lemma InsertNow<S(!new)>(cfg: Config<S>, v0: Version, c0: Cluster<S>, steps: seq<Step>, f: Fact)
    requires Lawful(cfg.engine) && Init(c0, v0) && Run(cfg, c0, steps).Some? && CanOpen(Run(cfg, c0, steps).value)
    ensures TakesOver(cfg, c0, steps + [Insert(f)], Run(cfg, c0, steps).value.primary.value,
                      Single(cfg.engine, v0, Log(steps) + [Arrived(f)]))
  {
    var c, all := Run(cfg, c0, steps).value, steps + [Insert(f)];
    var n := c.primary.value;
    RunKeepsInv(cfg, v0, c0, steps);
    assert Enabled(cfg, c, Insert(f)) && Next(cfg, c, Insert(f)).primary == c.primary && c.nodes[n].inbox == [];
    hide Run, Log, Single, Lawful, Init, FactsOf, CopyMeaning, Inserted, InsertHeard, Next, Enabled, Inv, CanOpen;
    RunStep(cfg, c0, steps, Insert(f));
    var c1 := Run(cfg, c0, all).value;
    NodeAfterInsert(cfg, c, f, n);
    FailoverRefinement(cfg, v0, c0, all, n);
    NoFacts(c1.nodes[n].inbox);
    assert Log(all)[..|Log(all)|] == Log(all);
    MeaningOfLive(cfg, c1.nodes[n].copy, c1.version);
  }

  /** From every reachable cluster, whatever it is in the middle of, and for every surviving node:
      deliveries and steps of snapshot tasks lead to a takeover by that node, and the fact inserted
      next finds the state of the node that never failed. */
  lemma TakeoverIsAlwaysPossible<S(!new)>(cfg: Config<S>, v0: Version, c0: Cluster<S>, steps: seq<Step>, n: Node, f: Fact)
    requires Lawful(cfg.engine) && Init(c0, v0) && Run(cfg, c0, steps).Some? && n in Run(cfg, c0, steps).value.nodes
    ensures exists quiet :: (Quiet(quiet)
      && TakesOver(cfg, c0, steps + quiet + [Promote(n), Insert(f)], n, Single(cfg.engine, v0, Log(steps) + [Arrived(f)])))
  {
    hide Run, Log, Single, Lawful, Init, TakesOver;
    var quiet := CalmRun(cfg, c0, steps);
    TakeoverSucceeds(cfg, v0, c0, steps + quiet, n, f);
    assert Quiet(quiet) && TakesOver(cfg, c0, steps + quiet + [Promote(n), Insert(f)], n, Single(cfg.engine, v0, Log(steps) + [Arrived(f)]));
  }

  lemma CalmRun<S>(cfg: Config<S>, c0: Cluster<S>, steps: seq<Step>) returns (quiet: seq<Step>)
    requires Run(cfg, c0, steps).Some?
    ensures Quiet(quiet) && Run(cfg, c0, steps + quiet).Some? && Log(steps + quiet) == Log(steps)
    ensures var c, c1 := Run(cfg, c0, steps).value, Run(cfg, c0, steps + quiet).value;
            Calm(c1) && c1.nodes.Keys == c.nodes.Keys && c1.version == c.version && c1.primary == c.primary
  {
    hide Run, Log;
    var c := Run(cfg, c0, steps).value;
    quiet := AllRest(cfg, c, c.nodes.Keys);
    RunJoin(cfg, c0, steps, quiet);
    QuietLogsNothing(quiet);
    assert Log(steps) + [] == Log(steps);
  }

  /** In the same way the rules can always be upgraded, and then every node stands for the migrated state. */
  lemma UpgradeIsAlwaysPossible<S(!new)>(cfg: Config<S>, v0: Version, c0: Cluster<S>, steps: seq<Step>, v: Version)
    requires Lawful(cfg.engine) && Init(c0, v0) && Run(cfg, c0, steps).Some?
    ensures exists quiet :: Quiet(quiet) && AgreesOn(cfg, c0, steps + quiet + [Upgrade(v)], v, Migrate(cfg.engine, Single(cfg.engine, v0, Log(steps)), v))
  {
    hide Run, Log, Single, Lawful, Init, CopyMeaning;
    var quiet := CalmRun(cfg, c0, steps);
    var before := steps + quiet;
    RunStep(cfg, c0, before, Upgrade(v));
    var c, c1 := Run(cfg, c0, before).value, Run(cfg, c0, before + [Upgrade(v)]).value;
    SingleAppend(cfg.engine, v0, Log(before), Upgraded(v));
    SettledNodesAgree(cfg, v0, c0, before + [Upgrade(v)]);
    assert Quiet(quiet) && AgreesOn(cfg, c0, before + [Upgrade(v)], v, Migrate(cfg.engine, Single(cfg.engine, v0, Log(steps)), v));
  }

  ghost predicate AgreesOn<S>(cfg: Config<S>, c0: Cluster<S>, steps: seq<Step>, v: Version, s: State<S>) {
    var r := Run(cfg, c0, steps);
    && r.Some? && r.value.version == v
    && forall n :: n in r.value.nodes ==> CopyMeaning(cfg.engine, r.value.nodes[n].copy, v) == s
  }

  /** A node can join from any node at rest whose replica, if it has no bytes, is on the current
      version, and stands for the state of the node that never failed. */
  lemma JoinSucceeds<S(!new)>(cfg: Config<S>, v0: Version, c0: Cluster<S>, steps: seq<Step>, n: Node, source: Node)
    requires Lawful(cfg.engine) && Init(c0, v0) && Run(cfg, c0, steps).Some?
    requires var c := Run(cfg, c0, steps).value;
      && n !in c.nodes && source in c.nodes && AtRest(c.nodes[source])
      && var copy := c.nodes[source].copy;
         copy.Stored? && copy.z.session.None? ==> copy.z.version == c.version
    ensures var r := Run(cfg, c0, steps + [Join(n, source)]);
      && r.Some? && n in r.value.nodes && AtRest(r.value.nodes[n])
      && CopyMeaning(cfg.engine, r.value.nodes[n].copy, r.value.version) == Single(cfg.engine, v0, Log(steps))
  {
    hide Run, Log, Single, Lawful, Init, CopyMeaning, FactsOf;
    var all := steps + [Join(n, source)];
    RunStep(cfg, c0, steps, Join(n, source));
    assert Log(steps) + [] == Log(steps);
    FailoverRefinement(cfg, v0, c0, all, n);
    NoFacts([]);
    assert Log(all)[..|Log(all)|] == Log(all);
  }

  /** A snapshot that is submitted on an up-to-date replica can be finished, and then the bytes alone
      are the state of the node that never failed. */
  lemma SnapshotHoldsTheState<S(!new)>(cfg: Config<S>, v0: Version, c0: Cluster<S>, steps: seq<Step>, n: Node)
    requires Lawful(cfg.engine) && Init(c0, v0) && Run(cfg, c0, steps).Some?
    requires var c := Run(cfg, c0, steps).value;
      && n in c.nodes && AtRest(c.nodes[n]) && c.nodes[n].copy.Stored? && c.nodes[n].copy.z.version == c.version
    ensures exists quiet :: Quiet(quiet) && HoldsTheState(cfg, c0, steps + [StartSnapshot(n)] + quiet, n, Single(cfg.engine, v0, Log(steps)))
  {
    hide Run, Log, Single, Lawful, Init, CopyMeaning, FactsOf;
    var start := steps + [StartSnapshot(n)];
    RunStep(cfg, c0, steps, StartSnapshot(n));
    assert Log(steps) + [] == Log(steps);
    var c := Run(cfg, c0, start).value;
    var quiet := Rests(cfg, c, n);
    RunJoin(cfg, c0, start, quiet);
    QuietLogsNothing(quiet);
    var all := start + quiet;
    assert Log(all) == Log(steps) + [] == Log(steps);
    FailoverRefinement(cfg, v0, c0, all, n);
    NoFacts([]);
    assert Log(all)[..|Log(all)|] == Log(all);
    var copy := Run(cfg, c0, all).value.nodes[n].copy;
    BytesAreTheState(cfg, copy, c.version);
    assert Quiet(quiet) && HoldsTheState(cfg, c0, start + quiet, n, Single(cfg.engine, v0, Log(steps)));
  }

  /** The replica has nothing but its bytes, and they are the given state. */
  ghost predicate HoldsTheState<S>(cfg: Config<S>, c0: Cluster<S>, steps: seq<Step>, n: Node, s: State<S>) {
    var r := Run(cfg, c0, steps);
    && r.Some? && n in r.value.nodes
    && var copy := r.value.nodes[n].copy;
       && copy.Stored? && copy.z.buffer == [] && copy.z.job.Idle? && copy.z.session.Some?
       && State(copy.z.version, copy.z.session.value.memory, copy.z.session.value.clock) == s
  }

  lemma BytesAreTheState<S(!new)>(cfg: Config<S>, copy: Copy<S>, cur: Version)
    requires Lawful(cfg.engine) && copy.Stored? && copy.z.buffer == [] && copy.z.job.Idle? && copy.z.session.Some? && copy.z.version == cur
    ensures CopyMeaning(cfg.engine, copy, cur) == State(cur, copy.z.session.value.memory, copy.z.session.value.clock)
  {
    CurrentMeaning(cfg.engine, copy.z, cur);
    assert copy.z.job.Taken() + copy.z.buffer == [];
  }

  // A failover of two nodes with the summing rules

  const TWO_NODES: Cluster<Total> := Cluster(map[0 := Replica(Absent, []), 1 := Replica(Absent, [])], None, "1.0.0", [])
  const BEFORE_CRASH := [Promote(0), Insert(Fact(1, 5)), Deliver(1), Deliver(1)]

  lemma FirstPrimary()
    ensures Enabled(SUM_CONFIG, TWO_NODES, Promote(0))
    ensures var c := Next(SUM_CONFIG, TWO_NODES, Promote(0));
            c.primary == Some(0) && c.version == "1.0.0" && c.nodes == TWO_NODES.nodes
  {
  }

  lemma Crashed(c: Cluster<Total>)
    requires c.nodes.Keys == {0, 1}
    ensures Enabled(SUM_CONFIG, c, Crash(0))
    ensures var c1 := Next(SUM_CONFIG, c, Crash(0)); c1.nodes.Keys == {1} && c1.nodes[1] == c.nodes[1]
  {
  }

  /** Node 0 has inserted, and both deltas are on their way to node 1. */
  lemma Sent(c: Cluster<Total>, f: Fact)
    requires c.primary == Some(0) && c.version == "1.0.0" && c.nodes == TWO_NODES.nodes
    ensures Enabled(SUM_CONFIG, c, Insert(f))
    ensures var c1 := Next(SUM_CONFIG, c, Insert(f));
            c1.version == "1.0.0" && c1.nodes.Keys == {0, 1} && c1.nodes[1] == Replica(Absent, [EmptyDelta, FactDelta(f)])
  {
    hide Inserted, InsertHeard;
    NodeAfterInsert(SUM_CONFIG, c, f, 1);
    assert [] + [EmptyDelta, FactDelta(f)] == [EmptyDelta, FactDelta(f)];
  }

  lemma MergedEmpty(c: Cluster<Total>, f: Fact)
    requires c.version == "1.0.0" && c.nodes.Keys == {0, 1} && c.nodes[1] == Replica(Absent, [EmptyDelta, FactDelta(f)])
    ensures Enabled(SUM_CONFIG, c, Deliver(1))
    ensures var c1 := Next(SUM_CONFIG, c, Deliver(1));
            c1.version == "1.0.0" && c1.nodes.Keys == {0, 1} && c1.nodes[1] == Replica(Stored(Empty("1.0.0")), [FactDelta(f)])
  {
    hide MergeHeard;
    assert [EmptyDelta, FactDelta(f)][1..] == [FactDelta(f)];
  }

  lemma MergedFact(c: Cluster<Total>, f: Fact)
    requires c.version == "1.0.0" && c.nodes.Keys == {0, 1} && c.nodes[1] == Replica(Stored(Empty("1.0.0")), [FactDelta(f)])
    ensures Enabled(SUM_CONFIG, c, Deliver(1))
    ensures var c1 := Next(SUM_CONFIG, c, Deliver(1));
            c1.nodes.Keys == {0, 1} && c1.nodes[1] == Replica(Stored(Serialized("1.0.0", None, [f], 1, Idle)), [])
  {
    hide MergeHeard, RebuildAndUpgrade;
    assert [] + [f] == [f] && [FactDelta(f)][1..] == [];
  }

  lemma FiveSteps<S>(cfg: Config<S>, c: Cluster<S>, s0: Step, s1: Step, s2: Step, s3: Step, s4: Step)
    requires Enabled(cfg, c, s0) && var c1 := Next(cfg, c, s0); Enabled(cfg, c1, s1) && var c2 := Next(cfg, c1, s1);
      Enabled(cfg, c2, s2) && var c3 := Next(cfg, c2, s2); Enabled(cfg, c3, s3) && Enabled(cfg, Next(cfg, c3, s3), s4)
    ensures Run(cfg, c, [s0, s1, s2, s3] + [s4]) == Some(Next(cfg, Next(cfg, Next(cfg, Next(cfg, Next(cfg, c, s0), s1), s2), s3), s4))
    ensures Log([s0, s1, s2, s3] + [s4]) == Logged(s0) + Logged(s1) + Logged(s2) + Logged(s3) + Logged(s4)
  {
    hide Run, Log, Next, Enabled, Logged;
    NoSteps(cfg, c);
    RunStep(cfg, c, [], s0);
    RunStep(cfg, c, [s0], s1);
    RunStep(cfg, c, [s0, s1], s2);
    RunStep(cfg, c, [s0, s1, s2], s3);
    RunStep(cfg, c, [s0, s1, s2, s3], s4);
    assert [] + [s0] == [s0] && [s0] + [s1] == [s0, s1] && [s0, s1] + [s2] == [s0, s1, s2] && [s0, s1, s2] + [s3] == [s0, s1, s2, s3];
    assert [] + Logged(s0) == Logged(s0);
  }

  lemma FirstHalf()
    ensures var r := Run(SUM_CONFIG, TWO_NODES, BEFORE_CRASH + [Crash(0)]);
      r.Some? && r.value.nodes.Keys == {1} && r.value.nodes[1] == Replica(Stored(Serialized("1.0.0", None, [Fact(1, 5)], 1, Idle)), [])
    ensures Log(BEFORE_CRASH + [Crash(0)]) == [Arrived(Fact(1, 5))]
  {
    hide Run, Log, Next, Enabled;
    var cfg, f := SUM_CONFIG, Fact(1, 5);
    FirstPrimary();
    var c1 := Next(cfg, TWO_NODES, Promote(0));
    Sent(c1, f);
    var c2 := Next(cfg, c1, Insert(f));
    MergedEmpty(c2, f);
    var c3 := Next(cfg, c2, Deliver(1));
    MergedFact(c3, f);
    var c4 := Next(cfg, c3, Deliver(1));
    Crashed(c4);
    FiveSteps(cfg, TWO_NODES, Promote(0), Insert(f), Deliver(1), Deliver(1), Crash(0));
  }

  lemma SumsOfTwo()
    ensures var log := [Arrived(Fact(1, 5)), Arrived(Fact(2, 7))];
      && Single(RunningSum(), "1.0.0", log) == State("1.0.0", Total(12, false), 2)
      && SingleHeard(SUM_CONFIG, "1.0.0", log) == [Output("additions", 5), Output("additions", 12)]
  {
    WeightOfOne("1.0.0");
    var f, g := Arrived(Fact(1, 5)), Arrived(Fact(2, 7));
    assert [f, g][..1] == [f] && [f][..0] == [];
    var s0, s1 := State("1.0.0", Total(0, false), 0), State("1.0.0", Total(5, false), 1);
    assert Single(RunningSum(), "1.0.0", [f]) == s1;
    OneOnChannels(Output("additions", 5));
    OneOnChannels(Output("additions", 12));
    assert HandleHeard(SUM_CONFIG, s0, f) == [Output("additions", 5)];
    assert HandleHeard(SUM_CONFIG, s1, g) == [Output("additions", 12)];
  }

  lemma OneOnChannels(o: Output)
    ensures OnChannels([o], {o.channel}) == [o]
  {
    assert [o][..0] == [];
  }

  /** Without a death in the window the whole live output is that of the single node. */
  lemma NobodyDies<S(!new)>(cfg: Config<S>, v0: Version, c0: Cluster<S>, steps: seq<Step>)
    requires Lawful(cfg.engine) && Init(c0, v0) && Run(cfg, c0, steps).Some? && forall s :: s in steps ==> !s.InsertAndDie?
    ensures Flatten(Run(cfg, c0, steps).value.heard) == SingleHeard(cfg, v0, Log(steps))
  {
    hide Lawful, Init, Run, Flatten, SingleHeard, Log, HandleHeard;
    LiveOutputExactlyOnce(cfg, v0, c0, steps);
  }

  lemma SecondHalf<S(!new)>(cfg: Config<S>, v0: Version, c0: Cluster<S>, half: seq<Step>, n: Node, f: Fact)
    requires Lawful(cfg.engine) && Init(c0, v0) && Run(cfg, c0, half).Some? && forall s :: s in half ==> !s.InsertAndDie?
    requires var c := Run(cfg, c0, half).value; c.nodes.Keys == {n} && AtRest(c.nodes[n])
    ensures var all, log := half + [Promote(n), Insert(f)], Log(half) + [Arrived(f)];
      && TakesOver(cfg, c0, all, n, Single(cfg.engine, v0, log))
      && Run(cfg, c0, all).value.nodes.Keys == {n}
      && Flatten(Run(cfg, c0, all).value.heard) == SingleHeard(cfg, v0, log)
  {
    hide Lawful, Init, Run, Flatten, SingleHeard, Log, HandleHeard, Single, Next, Enabled;
    TakeoverSucceeds(cfg, v0, c0, half, n, f);
    var all, c1 := PromoteAndInsert(cfg, c0, half, n, f);
    SameNodes(cfg, c1, f);
    NobodyDies(cfg, v0, c0, all);
  }

  lemma SameNodes<S>(cfg: Config<S>, c: Cluster<S>, f: Fact)
    requires CanOpen(c)
    ensures Next(cfg, c, Insert(f)).nodes.Keys == c.nodes.Keys
  {
    hide Inserted, InsertHeard;
    forall n ensures n in Next(cfg, c, Insert(f)).nodes <==> n in c.nodes { NodeAfterInsert(cfg, c, f, n); }
  }

  /** The primary inserts 5 and dies when its delta is merged; the other node takes over from its
      replica and inserts 7: it is then live with the sum 12, and 5 and 12 have been heard. */
  lemma Failover()
    ensures var steps := BEFORE_CRASH + [Crash(0)] + [Promote(1), Insert(Fact(2, 7))];
      && Init(TWO_NODES, "1.0.0") && TakesOver(SUM_CONFIG, TWO_NODES, steps, 1, State("1.0.0", Total(12, false), 2))
      && Run(SUM_CONFIG, TWO_NODES, steps).value.nodes.Keys == {1}
      && Flatten(Run(SUM_CONFIG, TWO_NODES, steps).value.heard) == [Output("additions", 5), Output("additions", 12)]
  {
    RunningSumIsLawful();
    FirstHalf();
    SumsOfTwo();
    hide Run, Log, Single, SingleHeard, Flatten, Lawful, TakesOver;
    SecondHalf(SUM_CONFIG, "1.0.0", TWO_NODES, BEFORE_CRASH + [Crash(0)], 1, Fact(2, 7));
    assert [Arrived(Fact(1, 5))] + [Arrived(Fact(2, 7))] == [Arrived(Fact(1, 5)), Arrived(Fact(2, 7))];
  }
}
