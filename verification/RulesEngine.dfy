/** The rule engine as the session code sees it: a session created by, inserted into,
    fired, marshalled and migrated through the operations of `RulesManager` and
    `KieSessionUtils`. What rules do is a parameter: an `Engine` is any choice of those
    operations, and `Lawful` lists what replay relies on. */
module RulesEngine {
  import opened Options

  datatype Fact = Fact(instant: int, amount: int)

  type Version = string

  datatype Output = Output(channel: string, value: int)

  /** Who listens on a channel name of a session. */
  datatype Listener = LiveListener | ReplayListener

  /** The channel names that the rules configuration declares, live and for replay. */
  datatype Channels = Channels(live: set<string>, replay: set<string>)

  /** What a rule set does to the working memory `S`. Firing sees the pseudo clock;
      `sends` is what that firing writes to channels. */
  datatype Engine<!S> = Engine(
    create: Version -> S,
    insert: (S, Fact) -> S,
    fire: (Version, int, S) -> S,
    sends: (Version, int, S) -> seq<Output>,
    migrate: (Version, Version, S) -> S)

  /** A live session: the rules it runs, its memory, its pseudo clock and its listeners. */
  datatype KieSession<+S> = KieSession(version: Version, memory: S, clock: int, channels: map<string, Listener>) {
    function Bare(): State<S> { State(version, memory, clock) }
  }

  /** Everything of a session but its listeners. */
  datatype State<+S> = State(version: Version, memory: S, clock: int)

  /** The marshalled bytes of a session; listeners are not part of them. */
  datatype Saved<+S> = Saved(memory: S, clock: int)

  /** A firing between two insertions leaves no trace in the memory that the next firing produces. */
  ghost predicate FiringCanWait<S(!new)>(e: Engine<S>) {
    forall v, s, f: Fact, g: Fact ::
      e.fire(v, g.instant, e.insert(e.fire(v, f.instant, e.insert(s, f)), g)) == e.fire(v, g.instant, e.insert(e.insert(s, f), g))
  }

  /** What replay needs of a rule engine. */
  ghost predicate Lawful<S(!new)>(e: Engine<S>) {
    && (forall v, s :: e.migrate(v, v, s) == s)
    && (forall u, v, w, s :: e.migrate(v, w, e.migrate(u, v, s)) == e.migrate(u, w, s))
    && (forall v, w :: e.migrate(v, w, e.create(v)) == e.create(w))
    && FiringCanWait(e)
  }

  // Operations of the session code

  function NewKieSession<S>(e: Engine<S>, v: Version): KieSession<S> {
    KieSession(v, e.create(v), 0, map[])
  }

  function Serialize<S>(k: KieSession<S>): Saved<S> {
    Saved(k.memory, k.clock)
  }

  function DeserializeOrCreate<S>(e: Engine<S>, v: Version, bytes: Option<Saved<S>>): KieSession<S> {
    match bytes
    case None => NewKieSession(e, v)
    case Some(b) => KieSession(v, b.memory, b.clock, map[])
  }

  function RegisterChannels<S>(cs: Channels, k: KieSession<S>): KieSession<S> {
    k.(channels := k.channels + map c | c in cs.live :: LiveListener)
  }

  function RegisterReplayChannels<S>(cs: Channels, k: KieSession<S>): KieSession<S> {
    k.(channels := k.channels + map c | c in cs.replay :: ReplayListener)
  }

  /** Moves the pseudo clock by the difference to the fact's instant, backwards too. */
  function AdvanceClock<S>(k: KieSession<S>, f: Fact): KieSession<S> {
    k.(clock := k.clock + (f.instant - k.clock))
  }

  function InsertFact<S>(e: Engine<S>, k: KieSession<S>, f: Fact): KieSession<S> {
    var k1 := AdvanceClock(k, f);
    k1.(memory := e.insert(k1.memory, f))
  }

  function FireAllRules<S>(e: Engine<S>, k: KieSession<S>): KieSession<S> {
    k.(memory := e.fire(k.version, k.clock, k.memory))
  }

  function Heard(outputs: seq<Output>, channels: map<string, Listener>, listener: Listener): seq<Output> {
    if outputs == [] then [] else
      var o := outputs[0];
      (if o.channel in channels && channels[o.channel] == listener then [o] else [])
      + Heard(outputs[1..], channels, listener)
  }

  /** What the given kind of listener hears when the session fires. */
  function Sends<S>(e: Engine<S>, k: KieSession<S>, listener: Listener): seq<Output> {
    Heard(e.sends(k.version, k.clock, k.memory), k.channels, listener)
  }

  function UpdateToVersion<S>(e: Engine<S>, k: KieSession<S>, v: Version): KieSession<S> {
    k.(version := v, memory := e.migrate(k.version, v, k.memory))
  }

  function InsertAll<S>(e: Engine<S>, k: KieSession<S>, fs: seq<Fact>): KieSession<S> {
    if fs == [] then k else InsertFact(e, InsertAll(e, k, fs[..|fs| - 1]), fs[|fs| - 1])
  }

  // The specification: one fact at a time

  function Process<S>(e: Engine<S>, s: State<S>, f: Fact): State<S> {
    State(s.version, e.fire(s.version, f.instant, e.insert(s.memory, f)), f.instant)
  }

  function ProcessAll<S>(e: Engine<S>, s: State<S>, fs: seq<Fact>): State<S> {
    if fs == [] then s else Process(e, ProcessAll(e, s, fs[..|fs| - 1]), fs[|fs| - 1])
  }

  function Migrate<S>(e: Engine<S>, s: State<S>, v: Version): State<S> {
    State(v, e.migrate(s.version, v, s.memory), s.clock)
  }

  lemma MigrateTwice<S(!new)>(e: Engine<S>, s: State<S>, v: Version, w: Version)
    requires Lawful(e)
    ensures Migrate(e, Migrate(e, s, v), w) == Migrate(e, s, w)
  {
  }

  function Loaded<S>(e: Engine<S>, v: Version, bytes: Option<Saved<S>>): State<S> {
    DeserializeOrCreate(e, v, bytes).Bare()
  }

  /** Inserting a batch and firing once reaches the state of firing after every fact. */
  lemma {:induction false} BatchFiring<S(!new)>(e: Engine<S>, k: KieSession<S>, fs: seq<Fact>)
    requires FiringCanWait(e) && fs != []
    ensures FireAllRules(e, InsertAll(e, k, fs)).Bare() == ProcessAll(e, k.Bare(), fs)
  {
    var init, last := fs[..|fs| - 1], fs[|fs| - 1];
    if init == [] {
      assert ProcessAll(e, k.Bare(), fs) == Process(e, k.Bare(), last);
    } else {
      BatchFiring(e, k, init);
      InsertAllKeeps(e, k, init);
      var f, before := init[|init| - 1], InsertAll(e, k, init[..|init| - 1]);
      InsertAllKeeps(e, k, init[..|init| - 1]);
      assert ProcessAll(e, k.Bare(), init).memory == e.fire(k.version, f.instant, e.insert(before.memory, f));
    }
  }

  ghost predicate BatchesAgree<S(!new)>(e: Engine<S>) {
    forall k: KieSession<S>, fs: seq<Fact> :: fs != [] ==>
      FireAllRules(e, InsertAll(e, k, fs)).Bare() == ProcessAll(e, k.Bare(), fs)
  }

  /** The law is exactly what replaying a batch needs. */
  lemma BatchFiringNeedsTheLaw<S(!new)>(e: Engine<S>)
    ensures BatchesAgree(e) <==> FiringCanWait(e)
  {
    if FiringCanWait(e) {
      forall k: KieSession<S>, fs: seq<Fact> | fs != []
        ensures FireAllRules(e, InsertAll(e, k, fs)).Bare() == ProcessAll(e, k.Bare(), fs)
      {
        BatchFiring(e, k, fs);
      }
    }
    if BatchesAgree(e) {
      forall v, s, f: Fact, g: Fact
        ensures e.fire(v, g.instant, e.insert(e.fire(v, f.instant, e.insert(s, f)), g)) == e.fire(v, g.instant, e.insert(e.insert(s, f), g))
      {
        var k := KieSession(v, s, 0, map[]);
        TwoFacts(e, k, f, g);
        assert FireAllRules(e, InsertAll(e, k, [f, g])).Bare() == ProcessAll(e, k.Bare(), [f, g]);
      }
    }
  }

  lemma TwoFacts<S>(e: Engine<S>, k: KieSession<S>, f: Fact, g: Fact)
    ensures InsertAll(e, k, [f, g]) == InsertFact(e, InsertFact(e, k, f), g)
    ensures ProcessAll(e, k.Bare(), [f, g]) == Process(e, Process(e, k.Bare(), f), g)
  {
    InsertAllAppend(e, k, [], f);
    InsertAllAppend(e, k, [f], g);
    assert [] + [f] == [f] && [f] + [g] == [f, g];
    ProcessAllJoin(e, k.Bare(), [f], [g]);
    assert forall s: State<S>, h: Fact :: ProcessAll(e, s, [h]) == Process(e, s, h) by {
      forall s: State<S>, h: Fact ensures ProcessAll(e, s, [h]) == Process(e, s, h) {
        assert [h][..|[h]| - 1] == [];
      }
    }
  }

  lemma {:induction false} InsertAllKeeps<S>(e: Engine<S>, k: KieSession<S>, fs: seq<Fact>)
    ensures InsertAll(e, k, fs).version == k.version && InsertAll(e, k, fs).channels == k.channels
  {
    if fs != [] { InsertAllKeeps(e, k, fs[..|fs| - 1]); }
  }

  lemma {:induction false} InsertAllAppend<S>(e: Engine<S>, k: KieSession<S>, fs: seq<Fact>, f: Fact)
    ensures InsertAll(e, k, fs + [f]) == InsertFact(e, InsertAll(e, k, fs), f)
  {
    assert (fs + [f])[..|fs|] == fs;
  }

  lemma {:induction false} InsertAllJoin<S>(e: Engine<S>, k: KieSession<S>, fs: seq<Fact>, gs: seq<Fact>)
    ensures InsertAll(e, InsertAll(e, k, fs), gs) == InsertAll(e, k, fs + gs)
  {
    if gs == [] {
      assert fs + gs == fs;
    } else {
      var init := gs[..|gs| - 1];
      InsertAllJoin(e, k, fs, init);
      assert (fs + gs)[..|fs + gs| - 1] == fs + init;
    }
  }

  lemma {:induction false} ProcessAllJoin<S>(e: Engine<S>, s: State<S>, fs: seq<Fact>, gs: seq<Fact>)
    ensures ProcessAll(e, ProcessAll(e, s, fs), gs) == ProcessAll(e, s, fs + gs)
  {
    if gs == [] {
      assert fs + gs == fs;
    } else {
      var init := gs[..|gs| - 1];
      ProcessAllJoin(e, s, fs, init);
      assert (fs + gs)[..|fs + gs| - 1] == fs + init;
    }
  }

  lemma {:induction false} ProcessAllVersion<S>(e: Engine<S>, s: State<S>, fs: seq<Fact>)
    ensures ProcessAll(e, s, fs).version == s.version
  {
    if fs != [] { ProcessAllVersion(e, s, fs[..|fs| - 1]); }
  }

  // What is heard

  /** The outputs on the given channel names, in order. */
  function OnChannels(outputs: seq<Output>, names: set<string>): seq<Output> {
    if outputs == [] then [] else
      OnChannels(outputs[..|outputs| - 1], names)
      + (if outputs[|outputs| - 1].channel in names then [outputs[|outputs| - 1]] else [])
  }

  function NamesWith(channels: map<string, Listener>, listener: Listener): set<string> {
    set c | c in channels && channels[c] == listener
  }

  /** A listener hears all outputs of its channels and no others, each one once and in order. */
  lemma {:induction false} HeardIsOnChannels(outputs: seq<Output>, channels: map<string, Listener>, listener: Listener)
    ensures Heard(outputs, channels, listener) == OnChannels(outputs, NamesWith(channels, listener))
  {
    if outputs != [] {
      var init, last := outputs[..|outputs| - 1], outputs[|outputs| - 1];
      assert init + [last] == outputs;
      HeardJoin(init, [last], channels, listener);
      HeardOne(last, channels, listener);
      HeardIsOnChannels(init, channels, listener);
    }
  }

  lemma {:induction false} HeardJoin(a: seq<Output>, b: seq<Output>, channels: map<string, Listener>, listener: Listener)
    ensures Heard(a + b, channels, listener) == Heard(a, channels, listener) + Heard(b, channels, listener)
  {
    if a == [] {
      assert a + b == b;
    } else {
      assert (a + b)[0] == a[0] && (a + b)[1..] == a[1..] + b;
      HeardJoin(a[1..], b, channels, listener);
    }
  }

  lemma HeardOne(o: Output, channels: map<string, Listener>, listener: Listener)
    ensures Heard([o], channels, listener) == if o.channel in NamesWith(channels, listener) then [o] else []
  {
    assert [o][1..] == [];
  }

  /** What a replay sends goes to the replay channels: their listeners hear all of it and live ones nothing. */
  lemma ReplayIsHeardOnReplayChannels<S>(e: Engine<S>, cs: Channels, k: KieSession<S>, fs: seq<Fact>)
    requires k.channels == map[]
    ensures var b := InsertAll(e, RegisterReplayChannels(cs, k), fs);
            && Sends(e, b, ReplayListener) == OnChannels(e.sends(k.version, b.clock, b.memory), cs.replay)
            && Sends(e, b, LiveListener) == []
  {
    var k1 := RegisterReplayChannels(cs, k);
    InsertAllKeeps(e, k1, fs);
    var b := InsertAll(e, k1, fs);
    hide InsertAll;
    HeardIsOnChannels(e.sends(b.version, b.clock, b.memory), b.channels, ReplayListener);
    assert NamesWith(b.channels, ReplayListener) == cs.replay;
    ReplayIsSilent(e.sends(b.version, b.clock, b.memory), b.channels);
  }

  /** A session whose listeners are all replay listeners is silent on the live side. */
  lemma {:induction false} ReplayIsSilent(outputs: seq<Output>, channels: map<string, Listener>)
    requires forall c :: c in channels ==> channels[c] == ReplayListener
    ensures Heard(outputs, channels, LiveListener) == []
  {
    if outputs != [] { ReplayIsSilent(outputs[1..], channels); }
  }

  // Two concrete engines

  /** The rule of the cluster tests: the amounts add up, and a firing that follows an
      insertion sends the weighted total. Version 1.0.0 weighs 1, 2.0.0 weighs 2, 3.0.0 weighs 3. */
  datatype Total = Total(sum: int, inserted: bool)

  function Weight(v: Version): int {
    if v == "2.0.0" then 2 else if v == "3.0.0" then 3 else 1
  }

  lemma WeightOfOne(v: Version)
    requires |v| > 0 && v[0] == '1'
    ensures Weight(v) == 1
  {
  }

  function RunningSum(): Engine<Total> {
    Engine(
      (v: Version) => Total(0, false),
      (s: Total, f: Fact) => Total(s.sum + f.amount, true),
      (v: Version, c: int, s: Total) => Total(s.sum, false),
      (v: Version, c: int, s: Total) =>
        if s.inserted && Weight(v) * s.sum > 0 then [Output("additions", Weight(v) * s.sum)] else [],
      (v: Version, w: Version, s: Total) => s)
  }

  lemma RunningSumIsLawful()
    ensures Lawful(RunningSum())
  {
  }

  /** A sum is sent when a fact has come, and once. */
  lemma SumIsSentOnce(v: Version, c: int, s: Total)
    ensures RunningSum().sends(v, c, RunningSum().create(v)) == []
    ensures RunningSum().sends(v, c, RunningSum().fire(v, c, s)) == []
  {
  }

  function SumOf(fs: seq<Fact>): int {
    if fs == [] then 0 else SumOf(fs[..|fs| - 1]) + fs[|fs| - 1].amount
  }

  lemma {:induction false} InsertedSum(k: KieSession<Total>, fs: seq<Fact>)
    ensures InsertAll(RunningSum(), k, fs).memory == if fs == [] then k.memory else Total(k.memory.sum + SumOf(fs), true)
  {
    if fs != [] { InsertedSum(k, fs[..|fs| - 1]); }
  }

  /** Replaying facts from bytes sends one sum, that of all of them, to the replay channel and nothing
      to the live one. */
  lemma ReplayOfSums(cs: Channels, saved: Saved<Total>, fs: seq<Fact>)
    requires fs != [] && "additions" in cs.replay && saved.memory.sum + SumOf(fs) > 0
    ensures var k := DeserializeOrCreate(RunningSum(), "1.0.0", Some(saved));
            var b := InsertAll(RunningSum(), RegisterReplayChannels(cs, k), fs);
            && Sends(RunningSum(), b, ReplayListener) == [Output("additions", saved.memory.sum + SumOf(fs))]
            && Sends(RunningSum(), b, LiveListener) == []
  {
    WeightOfOne("1.0.0");
    var e := RunningSum();
    var k := DeserializeOrCreate(e, "1.0.0", Some(saved));
    InsertedSum(RegisterReplayChannels(cs, k), fs);
    ReplayIsHeardOnReplayChannels(e, cs, k, fs);
    var sum := Output("additions", saved.memory.sum + SumOf(fs));
    assert [sum][..0] == [] && OnChannels([sum], cs.replay) == [sum];
  }

  /** Rules that keep their conclusions in the memory: points weighted by the version
      that fired, plus what was inserted and not yet fired. */
  datatype Points = Points(earned: int, waiting: int)

  function RewardPoints(): Engine<Points> {
    Engine(
      (v: Version) => Points(0, 0),
      (s: Points, f: Fact) => Points(s.earned, s.waiting + f.amount),
      (v: Version, c: int, s: Points) => Points(s.earned + Weight(v) * s.waiting, 0),
      (v: Version, c: int, s: Points) => [],
      (v: Version, w: Version, s: Points) => s)
  }

  lemma RewardPointsIsLawful()
    ensures Lawful(RewardPoints())
  {
    var e := RewardPoints();
    forall v: Version, s: Points, f: Fact, g: Fact
      ensures e.fire(v, g.instant, e.insert(e.fire(v, f.instant, e.insert(s, f)), g)) == e.fire(v, g.instant, e.insert(e.insert(s, f), g))
    {
      assert Weight(v) * (s.waiting + f.amount + g.amount) == Weight(v) * (s.waiting + f.amount) + Weight(v) * g.amount;
    }
  }
}
