/** What becomes of a replica when the rules are upgraded while its snapshot task holds a
    session. The job's session is migrated with the container it was built on; the replica's
    version label is not, and the next addition rebuilds from the bytes that the job is about to
    overwrite. The engine here is the free one: its memory is the facts fired, each with the
    version that fired it, so a result is right for it only if it is right in every detail. */
module UpgradeInFlight {
  import opened Options
  import opened RulesEngine
  import opened SerializedSession
  import opened SessionCluster

  datatype Firing = Firing(fact: Fact, version: Version)

  /** `form` is the representation the memory is in; migrating shifts it. */
  datatype Trace = Trace(form: int, fired: seq<Firing>, waiting: seq<Fact>)

  function Tag(fs: seq<Fact>, v: Version): (r: seq<Firing>)
    ensures |r| == |fs| && forall i :: 0 <= i < |fs| ==> r[i] == Firing(fs[i], v)
  {
    seq(|fs|, i requires 0 <= i < |fs| => Firing(fs[i], v))
  }

  /** The representation of each version is a parameter; versions may share one. */
  function Free(form: Version -> int): Engine<Trace> {
    Engine(
      (v: Version) => Trace(form(v), [], []),
      (s: Trace, f: Fact) => s.(waiting := s.waiting + [f]),
      (v: Version, c: int, s: Trace) => s.(fired := s.fired + Tag(s.waiting, v), waiting := []),
      (v: Version, c: int, s: Trace) => [],
      (u: Version, v: Version, s: Trace) => s.(form := s.form + form(v) - form(u)))
  }

  lemma FreeIsLawful(form: Version -> int)
    ensures Lawful(Free(form))
  {
    var e := Free(form);
    forall v: Version, s: Trace, f: Fact, g: Fact
      ensures e.fire(v, g.instant, e.insert(e.fire(v, f.instant, e.insert(s, f)), g)) == e.fire(v, g.instant, e.insert(e.insert(s, f), g))
    {
      var w := s.waiting + [f];
      TagJoin(w, [g], v);
      assert [] + [g] == [g];
      assert s.fired + Tag(w, v) + Tag([g], v) == s.fired + (Tag(w, v) + Tag([g], v));
    }
  }

  lemma TagJoin(fs: seq<Fact>, gs: seq<Fact>, v: Version)
    ensures Tag(fs + gs, v) == Tag(fs, v) + Tag(gs, v)
  {
  }

  // The run of the job after the upgrade, beside additions

  datatype Move = Arrives(fact: Fact) | TaskDrains | TaskFires | TaskPublishes

  predicate CanMove<S>(z: Serialized<S>, m: Move) {
    match m
    case Arrives(_) => true
    case TaskDrains => z.job.Draining? && z.buffer != []
    case TaskFires => z.job.Draining? && z.buffer == []
    case TaskPublishes => z.job.Fired?
  }

  function Moved<S>(cfg: Config<S>, z: Serialized<S>, cur: Version, m: Move): Serialized<S>
    requires CanMove(z, m)
  {
    match m
    case Arrives(f) => Add(cfg.engine, cfg.channels, z, cur, cfg.maxBuffer, f)
    case TaskDrains => JobDrain(cfg.engine, cfg.channels, z)
    case TaskFires => JobFire(cfg.engine, cfg.channels, z)
    case TaskPublishes => JobPublish(z)
  }

  function After<S>(cfg: Config<S>, z: Serialized<S>, cur: Version, moves: seq<Move>): Option<Serialized<S>> {
    if moves == [] then Some(z) else
      var before := After(cfg, z, cur, moves[..|moves| - 1]);
      var m := moves[|moves| - 1];
      if before.Some? && CanMove(before.value, m) then Some(Moved(cfg, before.value, cur, m)) else None
  }

  function Arrivals(moves: seq<Move>): seq<Fact> {
    if moves == [] then [] else
      var m := moves[|moves| - 1];
      Arrivals(moves[..|moves| - 1]) + (if m.Arrives? then [m.fact] else [])
  }

  /** The upgrade itself, as the replica sees it. */
  function Interrupted<S>(e: Engine<S>, z: Serialized<S>, v: Version): Serialized<S> {
    match z.job
    case Draining(k, taken) => z.(job := Draining(UpdateToVersion(e, k, v), taken))
    case Fired(k, taken) => z.(job := Fired(UpdateToVersion(e, k, v), taken))
    case _ => z
  }

  // Closed forms of the free engine

  function Clock(c: int, fs: seq<Fact>): int {
    if fs == [] then c else fs[|fs| - 1].instant
  }

  function Traced(m: Trace, v: Version, fs: seq<Fact>): Trace {
    if fs == [] then m else Trace(m.form, m.fired + Tag(m.waiting + fs, v), [])
  }

  lemma {:induction false} InsertAllFree(form: Version -> int, k: KieSession<Trace>, fs: seq<Fact>)
    ensures var r := InsertAll(Free(form), k, fs);
            r.version == k.version && r.memory == k.memory.(waiting := k.memory.waiting + fs) && r.clock == Clock(k.clock, fs)
  {
    if fs == [] {
      assert k.memory.waiting + fs == k.memory.waiting;
    } else {
      InsertAllFree(form, k, fs[..|fs| - 1]);
      assert k.memory.waiting + fs[..|fs| - 1] + [fs[|fs| - 1]] == k.memory.waiting + fs;
    }
  }

  lemma {:induction false} TracedJoin(m: Trace, v: Version, fs: seq<Fact>, gs: seq<Fact>)
    ensures Traced(Traced(m, v, fs), v, gs) == Traced(m, v, fs + gs)
  {
    if fs == [] {
      assert fs + gs == gs;
    } else if gs == [] {
      assert fs + gs == fs;
    } else {
      assert m.waiting + (fs + gs) == (m.waiting + fs) + gs && [] + gs == gs;
      TagJoin(m.waiting + fs, gs, v);
      assert m.fired + Tag(m.waiting + fs, v) + Tag(gs, v) == m.fired + (Tag(m.waiting + fs, v) + Tag(gs, v));
    }
  }

  lemma {:induction false} ProcessAllFree(form: Version -> int, s: State<Trace>, fs: seq<Fact>)
    ensures ProcessAll(Free(form), s, fs) == State(s.version, Traced(s.memory, s.version, fs), Clock(s.clock, fs))
  {
    if fs != [] {
      var init, last := fs[..|fs| - 1], fs[|fs| - 1];
      ProcessAllFree(form, s, init);
      TracedJoin(s.memory, s.version, init, [last]);
      assert init + [last] == fs;
      var m := Traced(s.memory, s.version, init);
      assert Process(Free(form), State(s.version, m, Clock(s.clock, init)), last).memory == Traced(m, s.version, [last]);
    }
  }

  // Upgraded while the job drains

  /** `start` is the state that the bytes stood for at the upgrade, and `shift` the migration. The
      task's session is those bytes migrated, with the facts `held` that it takes, and of the facts
      that were there at the upgrade only `kept` are still anywhere. */
  ghost predicate WhileDraining(z: Serialized<Trace>, start: State<Trace>, v: Version, shift: int,
                                there: seq<Fact>, kept: seq<Fact>, arrived: seq<Fact>) {
    && z.job.InFlight()
    && z.version == (if arrived == [] then start.version else v)
    && kept <= there && (arrived == [] ==> kept == there)
    && z.job.drained + z.buffer == kept + arrived
    && z.job.local.version == v
    && z.job.local.clock == Clock(start.clock, z.job.drained)
    && var m := start.memory.(form := start.memory.form + shift);
       (z.job.Draining? ==> z.job.local.memory == m.(waiting := m.waiting + z.job.drained)) &&
       (z.job.Fired? ==> z.job.local.memory == Traced(m, v, z.job.drained) && (arrived == [] ==> z.buffer == []))
  }

  lemma DrainingArrival(cfg: Config<Trace>, z: Serialized<Trace>, start: State<Trace>, v: Version, shift: int,
                        there: seq<Fact>, kept: seq<Fact>, arrived: seq<Fact>, f: Fact) returns (kept1: seq<Fact>)
    requires v != start.version && WhileDraining(z, start, v, shift, there, kept, arrived)
    ensures WhileDraining(Add(cfg.engine, cfg.channels, z, v, cfg.maxBuffer, f), start, v, shift, there, kept1, arrived + [f])
  {
    hide Traced, Clock;
    var z1 := Add(cfg.engine, cfg.channels, z, v, cfg.maxBuffer, f);
    assert z1.job == z.job && z1.version == v;
    kept1 := kept;
    if arrived == [] {
      kept1 := z.job.drained;
      assert z1.buffer == [] + [f] == [f];
      assert kept1 <= kept by { assert kept == kept + [] == z.job.drained + z.buffer; }
    } else {
      assert z1.buffer == z.buffer + [f];
      assert z1.job.drained + (z.buffer + [f]) == z1.job.drained + z.buffer + [f];
      assert kept + arrived + [f] == kept + (arrived + [f]);
    }
  }

  lemma DrainingMove(cfg: Config<Trace>, form: Version -> int, z: Serialized<Trace>, start: State<Trace>, v: Version, shift: int,
                     there: seq<Fact>, kept: seq<Fact>, arrived: seq<Fact>, m: Move) returns (kept1: seq<Fact>)
    requires cfg.engine == Free(form) && v != start.version
    requires WhileDraining(z, start, v, shift, there, kept, arrived) && CanMove(z, m) && !m.TaskPublishes?
    ensures WhileDraining(Moved(cfg, z, v, m), start, v, shift, there, kept1, arrived + (if m.Arrives? then [m.fact] else []))
  {
    kept1 := kept;
    assert arrived + [] == arrived;
    match m
    case Arrives(f) => kept1 := DrainingArrival(cfg, z, start, v, shift, there, kept, arrived, f);
    case TaskDrains =>
      assert z.job.drained + [z.buffer[0]] + z.buffer[1..] == z.job.drained + z.buffer;
      var w := start.memory.waiting;
      assert w + z.job.drained + [z.buffer[0]] == w + (z.job.drained + [z.buffer[0]]);
    case TaskFires =>
      if z.job.drained == [] {
        assert start.memory.waiting + [] == start.memory.waiting;
      }
  }

  lemma OnlyWhileInFlight<S>(cfg: Config<S>, z: Serialized<S>, v: Version, m: Move)
    requires CanMove(z, m) && Moved(cfg, z, v, m).job.InFlight()
    ensures z.job.InFlight() && !m.TaskPublishes?
  {
  }

  lemma {:induction false} DrainingRun(cfg: Config<Trace>, form: Version -> int, z: Serialized<Trace>, start: State<Trace>, v: Version,
                                       shift: int, there: seq<Fact>, moves: seq<Move>) returns (kept: seq<Fact>)
    requires cfg.engine == Free(form) && v != start.version && WhileDraining(z, start, v, shift, there, there, [])
    requires var z1 := After(cfg, z, v, moves); z1.Some? && z1.value.job.InFlight()
    ensures WhileDraining(After(cfg, z, v, moves).value, start, v, shift, there, kept, Arrivals(moves))
  {
    if moves == [] {
      kept := there;
    } else {
      hide WhileDraining, Moved, CanMove;
      var init, m := moves[..|moves| - 1], moves[|moves| - 1];
      OnlyWhileInFlight(cfg, After(cfg, z, v, init).value, v, m);
      var before := DrainingRun(cfg, form, z, start, v, shift, there, init);
      kept := DrainingMove(cfg, form, After(cfg, z, v, init).value, start, v, shift, there, before, Arrivals(init), m);
    }
  }

  // Upgraded after the job has fired

  /** The job's session holds its facts, fired under the old version, and will be what is
      published; the first addition moves the facts of the buffer into bytes that are lost. */
  ghost predicate AfterFiring(z: Serialized<Trace>, local: KieSession<Trace>, u: Version, v: Version,
                              there: seq<Fact>, arrived: seq<Fact>) {
    && z.job.Fired? && z.job.local == local
    && (arrived == [] ==> z.version == u && z.buffer == there)
    && (arrived != [] ==> z.version == v && z.buffer == arrived)
  }

  lemma {:induction false} FiredRun(cfg: Config<Trace>, z: Serialized<Trace>, local: KieSession<Trace>, v: Version, moves: seq<Move>)
    requires z.version != v && AfterFiring(z, local, z.version, v, z.buffer, [])
    requires var z1 := After(cfg, z, v, moves); z1.Some? && z1.value.job.InFlight()
    ensures AfterFiring(After(cfg, z, v, moves).value, local, z.version, v, z.buffer, Arrivals(moves))
  {
    if moves != [] {
      var init, m := moves[..|moves| - 1], moves[|moves| - 1];
      OnlyWhileInFlight(cfg, After(cfg, z, v, init).value, v, m);
      FiredRun(cfg, z, local, v, init);
      if m.Arrives? { assert [] + [m.fact] == [m.fact]; }
    }
  }

  // The exact condition

  /** Right now, is the upgrade harmless? `adds` says that the replica is added to before the job
      publishes. The job has to hold nothing unfired, the buffer nothing that the rebuild would
      put into bytes about to be overwritten; and without an addition the old label stays on
      bytes of the new rules, which the representation must not tell apart. */
  predicate Harmless(form: Version -> int, z: Serialized<Trace>, v: Version, adds: bool) {
    && (z.job.Draining? ==> z.job.drained == [] && z.buffer == [])
    && (z.job.Fired? && adds ==> z.buffer == [])
    && (!adds ==> form(z.version) == form(v))
  }

  function Weighs(m: Trace): nat { |m.fired| + |m.waiting| }

  lemma TracedWeighs(m: Trace, v: Version, fs: seq<Fact>)
    ensures Weighs(Traced(m, v, fs)) == Weighs(m) + |fs|
  {
  }

  /** A first firing under another version shows. */
  lemma FiringShows(m: Trace, u: Version, v: Version, fs: seq<Fact>, gs: seq<Fact>, form: int, form1: int)
    requires u != v && fs != []
    ensures Traced(Traced(m, u, fs).(form := form), v, gs).fired != Traced(m.(form := form1), v, fs + gs).fired
  {
    var l, r := Traced(Traced(m, u, fs).(form := form), v, gs), Traced(m.(form := form1), v, fs + gs);
    var n := |m.fired|;
    assert l.fired[n].version == u && r.fired[n].version == v;
  }

  /** The state a single node would be in: all facts under the old rules, the migration, then
      what arrived under the new ones. */
  ghost function Ideal<S>(cfg: Config<S>, z: Serialized<S>, v: Version, moves: seq<Move>): State<S> {
    ProcessAll(cfg.engine, Migrate(cfg.engine, Meaning(cfg.engine, z, z.version), v), Arrivals(moves))
  }

  /** The same, computed: `held` under the old rules from `start`, the migration, then `arrived`. */
  function IdealState(form: Version -> int, start: State<Trace>, held: seq<Fact>, v: Version, arrived: seq<Fact>): State<Trace> {
    var m := Traced(start.memory, start.version, held);
    var m1 := m.(form := m.form + form(v) - form(start.version));
    State(v, Traced(m1, v, arrived), Clock(start.clock, held + arrived))
  }

  /** What a replica stands for once the job has published its session. */
  function PublishedState(form: Version -> int, z: Serialized<Trace>, v: Version): State<Trace>
    requires z.job.Fired?
  {
    var m := Traced(z.job.local.memory, z.version, z.buffer);
    State(v, m.(form := m.form + form(v) - form(z.version)), Clock(z.job.local.clock, z.buffer))
  }

  lemma IdealFree(cfg: Config<Trace>, form: Version -> int, z: Serialized<Trace>, v: Version, moves: seq<Move>)
    requires cfg.engine == Free(form)
    ensures Ideal(cfg, z, v, moves)
         == IdealState(form, Loaded(cfg.engine, z.version, z.session), z.job.Taken() + z.buffer, v, Arrivals(moves))
  {
    hide ProcessAll, Tag, Arrivals;
    var s := Loaded(cfg.engine, z.version, z.session);
    var held := z.job.Taken() + z.buffer;
    ProcessAllFree(form, s, held);
    ProcessAllFree(form, Migrate(cfg.engine, Meaning(cfg.engine, z, z.version), v), Arrivals(moves));
    if Arrivals(moves) == [] { assert held + [] == held; }
  }

  lemma IdleFree(form: Version -> int, z: Serialized<Trace>, v: Version)
    requires z.job.Idle? && z.session.Some?
    ensures var b := z.session.value;
            var m := Traced(b.memory, z.version, z.buffer);
            Meaning(Free(form), z, v) == State(v, m.(form := m.form + form(v) - form(z.version)), Clock(b.clock, z.buffer))
  {
    assert [] + z.buffer == z.buffer;
    ProcessAllFree(form, Loaded(Free(form), z.version, z.session), z.buffer);
  }

  lemma PublishedFree(form: Version -> int, z: Serialized<Trace>, v: Version)
    requires z.job.Fired?
    ensures Meaning(Free(form), JobPublish(z), v) == PublishedState(form, z, v)
  {
    hide Meaning, Free, Traced, Clock;
    IdleFree(form, JobPublish(z), v);
  }

  lemma InterruptedDraining(form: Version -> int, z: Serialized<Trace>, v: Version)
    requires Consistent(Free(form), z, z.version) && z.job.Draining?
    ensures var there := z.job.drained + z.buffer;
            WhileDraining(Interrupted(Free(form), z, v), Loaded(Free(form), z.version, z.session), v, form(v) - form(z.version), there, there, [])
  {
    InsertAllFree(form, Origin(Free(form), z), z.job.drained);
    var there := z.job.drained + z.buffer;
    assert there + [] == there;
  }

  lemma PublishLast(cfg: Config<Trace>, form: Version -> int, z0: Serialized<Trace>, v: Version, moves: seq<Move>)
    requires cfg.engine == Free(form) && After(cfg, z0, v, moves + [TaskPublishes]).Some?
    ensures var zf := After(cfg, z0, v, moves);
            && zf.Some? && zf.value.job.Fired?
            && Meaning(cfg.engine, After(cfg, z0, v, moves + [TaskPublishes]).value, v) == PublishedState(form, zf.value, v)
  {
    hide Meaning, PublishedState, Free;
    assert (moves + [TaskPublishes])[..|moves|] == moves;
    PublishedFree(form, After(cfg, z0, v, moves).value, v);
  }

  lemma DrainingUpgrade(cfg: Config<Trace>, form: Version -> int, z: Serialized<Trace>, v: Version, moves: seq<Move>)
    requires cfg.engine == Free(form) && Consistent(cfg.engine, z, z.version) && z.job.Draining? && z.version != v
    requires After(cfg, Interrupted(cfg.engine, z, v), v, moves + [TaskPublishes]).Some?
    ensures var z1 := After(cfg, Interrupted(cfg.engine, z, v), v, moves + [TaskPublishes]).value;
            Meaning(cfg.engine, z1, v) == Ideal(cfg, z, v, moves) <==> Harmless(form, z, v, Arrivals(moves) != [])
  {
    var start := Loaded(cfg.engine, z.version, z.session);
    assert start.version == z.version;
    var there := z.job.drained + z.buffer;
    var z0 := Interrupted(cfg.engine, z, v);
    InterruptedDraining(form, z, v);
    hide After, Ideal, Arrivals, Interrupted, Consistent, Meaning, Loaded, Free, WhileDraining, IdealState, PublishedState;
    PublishLast(cfg, form, z0, v, moves);
    IdealFree(cfg, form, z, v, moves);
    var kept := DrainingRun(cfg, form, z0, start, v, form(v) - form(z.version), there, moves);
    DrainingOutcome(form, After(cfg, z0, v, moves).value, start, v, there, kept, Arrivals(moves));
  }

  lemma DrainingOutcome(form: Version -> int, zf: Serialized<Trace>, start: State<Trace>, v: Version,
                        there: seq<Fact>, kept: seq<Fact>, arrived: seq<Fact>)
    requires start.version != v && WhileDraining(zf, start, v, form(v) - form(start.version), there, kept, arrived) && zf.job.Fired?
    ensures PublishedState(form, zf, v) == IdealState(form, start, there, v, arrived)
       <==> there == [] && (arrived == [] ==> form(v) == form(start.version))
  {
    var shift := form(v) - form(start.version);
    var m0 := start.memory.(form := start.memory.form + shift);
    var ideal := Traced(start.memory, start.version, there);
    TracedJoin(m0, v, zf.job.drained, zf.buffer);
    TracedWeighs(start.memory, start.version, there);
    TracedWeighs(ideal.(form := ideal.form + shift), v, arrived);
    TracedWeighs(m0, v, kept + arrived);
    if there != [] { FiringShows(start.memory, start.version, v, there, arrived, ideal.form + shift, m0.form); }
    assert arrived == [] ==> zf.job.drained + [] == zf.job.drained && kept + [] == kept;
    if there == [] { assert kept == [] && [] + arrived == arrived; }
    if |kept| == |there| { assert kept == there; }
  }

  lemma InterruptedFired(form: Version -> int, z: Serialized<Trace>, v: Version)
    requires Consistent(Free(form), z, z.version) && z.job.Fired?
    ensures var start := Loaded(Free(form), z.version, z.session);
            var m := Traced(start.memory, z.version, z.job.drained);
            var z0 := Interrupted(Free(form), z, v);
            && AfterFiring(z0, z0.job.local, z.version, v, z.buffer, []) && z0.version == z.version && z0.buffer == z.buffer
            && z0.job.local.memory == m.(form := m.form + form(v) - form(z.version))
            && z0.job.local.clock == Clock(start.clock, z.job.drained)
  {
    ProcessAllFree(form, Loaded(Free(form), z.version, z.session), z.job.drained);
  }

  lemma FiredUpgrade(cfg: Config<Trace>, form: Version -> int, z: Serialized<Trace>, v: Version, moves: seq<Move>)
    requires cfg.engine == Free(form) && Consistent(cfg.engine, z, z.version) && z.job.Fired? && z.version != v
    requires After(cfg, Interrupted(cfg.engine, z, v), v, moves + [TaskPublishes]).Some?
    ensures var z1 := After(cfg, Interrupted(cfg.engine, z, v), v, moves + [TaskPublishes]).value;
            Meaning(cfg.engine, z1, v) == Ideal(cfg, z, v, moves) <==> Harmless(form, z, v, Arrivals(moves) != [])
  {
    var start := Loaded(cfg.engine, z.version, z.session);
    assert start.version == z.version;
    var z0 := Interrupted(cfg.engine, z, v);
    InterruptedFired(form, z, v);
    hide After, Ideal, Arrivals, Interrupted, Consistent, Meaning, Loaded, Free, Traced, Clock, IdealState, PublishedState;
    PublishLast(cfg, form, z0, v, moves);
    FiredRun(cfg, z0, z0.job.local, v, moves);
    IdealFree(cfg, form, z, v, moves);
    FiredOutcome(form, After(cfg, z0, v, moves).value, start, v, z.job.drained, z.buffer, Arrivals(moves));
  }

  lemma FiredOutcome(form: Version -> int, zf: Serialized<Trace>, start: State<Trace>, v: Version,
                     d: seq<Fact>, b: seq<Fact>, arrived: seq<Fact>)
    requires zf.job.Fired? && AfterFiring(zf, zf.job.local, start.version, v, b, arrived)
    requires var m := Traced(start.memory, start.version, d);
             && zf.job.local.memory == m.(form := m.form + form(v) - form(start.version))
             && zf.job.local.clock == Clock(start.clock, d)
    ensures PublishedState(form, zf, v) == IdealState(form, start, d + b, v, arrived)
       <==> (if arrived == [] then form(v) == form(start.version) else b == [])
  {
    var u, shift := start.version, form(v) - form(start.version);
    var m, ideal := Traced(start.memory, u, d), Traced(start.memory, u, d + b);
    TracedJoin(start.memory, u, d, b);
    TracedForm(m, shift, u, b);
    TracedWeighs(start.memory, u, d + b);
    TracedWeighs(start.memory, u, d);
    TracedWeighs(m.(form := m.form + shift), v, arrived);
    TracedWeighs(ideal.(form := ideal.form + shift), v, arrived);
    ClockJoin(start.clock, d, b, arrived);
    hide Traced, Clock;
    TracedForm(ideal.(form := ideal.form + shift), 0, v, []);
    if b == [] { assert d + b == d; }
  }

  lemma ClockJoin(c: int, d: seq<Fact>, b: seq<Fact>, arrived: seq<Fact>)
    ensures Clock(Clock(c, d), b) == Clock(c, d + b + [])
    ensures b == [] ==> Clock(Clock(c, d), arrived) == Clock(c, d + b + arrived)
  {
  }

  lemma TracedForm(m: Trace, shift: int, v: Version, fs: seq<Fact>)
    ensures var r := Traced(m, v, fs);
            Traced(m.(form := m.form + shift), v, fs) == r.(form := r.form + shift) && r.form == m.form
    ensures Traced(m, v, []) == m
  {
  }

  /** An upgrade that comes while a snapshot holds a session is harmless exactly under the
      condition above, whatever was added and however the job ran on before it published. */
  lemma UpgradeWhileSaving(cfg: Config<Trace>, form: Version -> int, z: Serialized<Trace>, v: Version, moves: seq<Move>)
    requires cfg.engine == Free(form) && Consistent(cfg.engine, z, z.version) && z.job.InFlight() && z.version != v
    requires After(cfg, Interrupted(cfg.engine, z, v), v, moves + [TaskPublishes]).Some?
    ensures var z1 := After(cfg, Interrupted(cfg.engine, z, v), v, moves + [TaskPublishes]).value;
            Meaning(cfg.engine, z1, v) == Ideal(cfg, z, v, moves) <==> Harmless(form, z, v, Arrivals(moves) != [])
  {
    hide After, Ideal, Arrivals, Interrupted, Consistent, Meaning, Free, Harmless;
    if z.job.Draining? { DrainingUpgrade(cfg, form, z, v, moves); } else { FiredUpgrade(cfg, form, z, v, moves); }
  }

  // Harmless for every engine

  /** Nothing was taken or waiting at the upgrade, to the state `s`; all facts came later. */
  ghost predicate WhileClean<S>(e: Engine<S>, z: Serialized<S>, s: State<S>, u: Version, arrived: seq<Fact>) {
    && z.job.InFlight()
    && z.version == (if arrived == [] then u else s.version)
    && (z.job.Draining? ==>
          && z.job.drained + z.buffer == arrived
          && z.job.local == InsertAll(e, KieSession(s.version, s.memory, s.clock, z.job.local.channels), z.job.drained))
    && (z.job.Fired? ==> ProcessAll(e, z.job.local.Bare(), z.buffer) == ProcessAll(e, s, arrived)
                         && z.job.local.version == s.version && (arrived == [] ==> z.buffer == []))
  }

  /** What an addition does to a replica whose buffer is empty or whose version is current. */
  lemma AddsOne<S>(cfg: Config<S>, z: Serialized<S>, cur: Version, f: Fact)
    requires z.job.InFlight() && (z.version != cur ==> z.buffer == [])
    ensures var z1 := Add(cfg.engine, cfg.channels, z, cur, cfg.maxBuffer, f);
            z1.buffer == z.buffer + [f] && z1.job == z.job && z1.version == cur
  {
    assert [] + [f] == [f];
  }

  lemma CleanArrival<S(!new)>(cfg: Config<S>, z: Serialized<S>, s: State<S>, u: Version, arrived: seq<Fact>, f: Fact)
    requires WhileClean(cfg.engine, z, s, u, arrived) && u != s.version
    ensures WhileClean(cfg.engine, Add(cfg.engine, cfg.channels, z, s.version, cfg.maxBuffer, f), s, u, arrived + [f])
  {
    assert arrived == [] ==> z.buffer == [];
    AddsOne(cfg, z, s.version, f);
    hide InsertAll, Add, Process, ProcessAll;
    if z.job.Draining? {
      assert z.job.drained + (z.buffer + [f]) == z.job.drained + z.buffer + [f];
    } else {
      ProcessOneMore(cfg.engine, z.job.local.Bare(), z.buffer, f);
      ProcessOneMore(cfg.engine, s, arrived, f);
    }
  }

  lemma ProcessOneMore<S>(e: Engine<S>, s: State<S>, fs: seq<Fact>, f: Fact)
    ensures ProcessAll(e, s, fs + [f]) == Process(e, ProcessAll(e, s, fs), f)
  {
    hide Process;
    assert (fs + [f])[..|fs|] == fs;
  }

  lemma CleanDrain<S(!new)>(cfg: Config<S>, z: Serialized<S>, s: State<S>, u: Version, arrived: seq<Fact>)
    requires WhileClean(cfg.engine, z, s, u, arrived) && CanMove(z, TaskDrains)
    ensures WhileClean(cfg.engine, JobDrain(cfg.engine, cfg.channels, z), s, u, arrived)
  {
    var e := cfg.engine;
    var k0 := KieSession(s.version, s.memory, s.clock, z.job.local.channels);
    var k1 := if z.job.drained == [] then RegisterReplayChannels(cfg.channels, k0) else k0;
    InsertAllAppend(e, k1, z.job.drained, z.buffer[0]);
    InsertAllKeeps(e, k1, z.job.drained + [z.buffer[0]]);
    assert z.job.drained + [z.buffer[0]] + z.buffer[1..] == z.job.drained + z.buffer;
  }

  lemma CleanFire<S(!new)>(cfg: Config<S>, z: Serialized<S>, s: State<S>, u: Version, arrived: seq<Fact>)
    requires Lawful(cfg.engine) && WhileClean(cfg.engine, z, s, u, arrived) && CanMove(z, TaskFires)
    ensures WhileClean(cfg.engine, JobFire(cfg.engine, cfg.channels, z), s, u, arrived)
  {
    var e := cfg.engine;
    var k0 := KieSession(s.version, s.memory, s.clock, z.job.local.channels);
    InsertAllKeeps(e, k0, z.job.drained);
    if z.job.drained != [] { BatchFiring(e, k0, z.job.drained); }
    assert z.job.drained + [] == z.job.drained;
  }

  lemma CleanMove<S(!new)>(cfg: Config<S>, z: Serialized<S>, s: State<S>, u: Version, arrived: seq<Fact>, m: Move)
    requires Lawful(cfg.engine) && WhileClean(cfg.engine, z, s, u, arrived) && CanMove(z, m) && !m.TaskPublishes? && u != s.version
    ensures WhileClean(cfg.engine, Moved(cfg, z, s.version, m), s, u, arrived + (if m.Arrives? then [m.fact] else []))
  {
    hide WhileClean, Lawful;
    assert arrived + [] == arrived;
    match m
    case Arrives(f) => CleanArrival(cfg, z, s, u, arrived, f);
    case TaskDrains => CleanDrain(cfg, z, s, u, arrived);
    case TaskFires => CleanFire(cfg, z, s, u, arrived);
  }

  lemma {:induction false} CleanRun<S(!new)>(cfg: Config<S>, z: Serialized<S>, s: State<S>, moves: seq<Move>)
    requires Lawful(cfg.engine) && WhileClean(cfg.engine, z, s, z.version, []) && z.version != s.version
    requires var z1 := After(cfg, z, s.version, moves); z1.Some? && z1.value.job.InFlight()
    ensures WhileClean(cfg.engine, After(cfg, z, s.version, moves).value, s, z.version, Arrivals(moves))
  {
    if moves != [] {
      hide WhileClean, Moved, CanMove, Lawful;
      var init, m := moves[..|moves| - 1], moves[|moves| - 1];
      var before := After(cfg, z, s.version, init).value;
      OnlyWhileInFlight(cfg, before, s.version, m);
      CleanRun(cfg, z, s, init);
      CleanMove(cfg, before, s, z.version, Arrivals(init), m);
    }
  }

  /** Where nothing was at stake at the upgrade and the replica is added to before the job
      publishes, no engine can tell. */
  lemma HarmlessForEveryEngine<S(!new)>(cfg: Config<S>, z: Serialized<S>, v: Version, moves: seq<Move>)
    requires Lawful(cfg.engine) && Consistent(cfg.engine, z, z.version) && z.job.InFlight() && z.version != v
    requires After(cfg, Interrupted(cfg.engine, z, v), v, moves + [TaskPublishes]).Some?
    requires z.buffer == [] && (z.job.Draining? ==> z.job.drained == []) && Arrivals(moves) != []
    ensures var z1 := After(cfg, Interrupted(cfg.engine, z, v), v, moves + [TaskPublishes]).value;
            Meaning(cfg.engine, z1, v) == Ideal(cfg, z, v, moves)
  {
    var e := cfg.engine;
    var s := Migrate(e, Held(e, z), v);
    var z0 := Interrupted(e, z, v);
    CurrentMeaning(e, z, z.version);
    assert z.job.Taken() + [] == z.job.Taken();
    assert ProcessAll(e, z0.job.local.Bare(), []) == z0.job.local.Bare() == s;
    assert WhileClean(e, z0, s, z.version, []);
    assert (moves + [TaskPublishes])[..|moves|] == moves;
    CleanRun(cfg, z0, s, moves);
    var zf := After(cfg, z0, v, moves).value;
    var z1 := JobPublish(zf);
    assert [] + z1.buffer == z1.buffer;
    assert Loaded(e, v, z1.session) == zf.job.local.Bare();
    CurrentMeaning(e, z1, v);
  }

  // Such runs are there

  lemma AfterStep<S>(cfg: Config<S>, z: Serialized<S>, cur: Version, moves: seq<Move>, m: Move)
    ensures After(cfg, z, cur, moves + [m]) ==
      var r := After(cfg, z, cur, moves);
      if r.Some? && CanMove(r.value, m) then Some(Moved(cfg, r.value, cur, m)) else None
    ensures Arrivals(moves + [m]) == Arrivals(moves) + if m.Arrives? then [m.fact] else []
  {
    hide CanMove, Moved;
    assert (moves + [m])[..|moves|] == moves;
  }

  /** While a task holds a session, any facts can arrive. */
  lemma {:induction false} AllArrive<S>(cfg: Config<S>, z: Serialized<S>, cur: Version, fs: seq<Fact>) returns (moves: seq<Move>)
    requires z.job.InFlight()
    ensures After(cfg, z, cur, moves).Some? && After(cfg, z, cur, moves).value.job.InFlight() && Arrivals(moves) == fs
  {
    if fs == [] {
      moves := [];
    } else {
      var before := AllArrive(cfg, z, cur, fs[..|fs| - 1]);
      var m := Arrives(fs[|fs| - 1]);
      AfterStep(cfg, z, cur, before, m);
      moves := before + [m];
      hide After, Arrivals;
      AddKeepsJob(cfg, After(cfg, z, cur, before).value, cur, m.fact);
    }
  }

  lemma AddKeepsJob<S>(cfg: Config<S>, z: Serialized<S>, cur: Version, f: Fact)
    requires z.job.InFlight()
    ensures Moved(cfg, z, cur, Arrives(f)).job.InFlight()
  {
  }

  /** And the task can take and fire all there is. */
  lemma {:induction false} TaskFinishes<S>(cfg: Config<S>, z: Serialized<S>, cur: Version, moves: seq<Move>) returns (all: seq<Move>)
    requires After(cfg, z, cur, moves).Some? && After(cfg, z, cur, moves).value.job.InFlight()
    ensures After(cfg, z, cur, all).Some? && After(cfg, z, cur, all).value.job.Fired? && Arrivals(all) == Arrivals(moves)
    decreases |After(cfg, z, cur, moves).value.buffer|
  {
    var z1 := After(cfg, z, cur, moves).value;
    if z1.job.Fired? {
      all := moves;
    } else if z1.buffer == [] {
      all := moves + [TaskFires];
      AfterStep(cfg, z, cur, moves, TaskFires);
    } else {
      AfterStep(cfg, z, cur, moves, TaskDrains);
      hide After, Arrivals;
      DrainsOne(cfg, z1, cur);
      all := TaskFinishes(cfg, z, cur, moves + [TaskDrains]);
    }
  }

  lemma DrainsOne<S>(cfg: Config<S>, z: Serialized<S>, cur: Version)
    requires z.job.Draining? && z.buffer != []
    ensures var z1 := Moved(cfg, z, cur, TaskDrains); z1.job.Draining? && |z1.buffer| < |z.buffer|
  {
  }

  /** Whatever arrives after an upgrade in flight, the interrupted task can publish after it. */
  lemma PublishIsAlwaysPossible<S>(cfg: Config<S>, z: Serialized<S>, v: Version, fs: seq<Fact>)
    requires z.job.InFlight()
    ensures exists moves :: Arrivals(moves) == fs && After(cfg, Interrupted(cfg.engine, z, v), v, moves + [TaskPublishes]).Some?
  {
    var z0 := Interrupted(cfg.engine, z, v);
    assert z0.job.InFlight();
    hide After, Arrivals, Interrupted;
    var arrived := AllArrive(cfg, z0, v, fs);
    var moves := TaskFinishes(cfg, z0, v, arrived);
    AfterStep(cfg, z0, v, moves, TaskPublishes);
    assert Arrivals(moves) == fs && After(cfg, z0, v, moves + [TaskPublishes]).Some?;
  }

  // Two runs of the weighted engine

  /** A replica that has been sent facts 1, 2 and 4, where the upgrade came while a snapshot held
      fact 1: the addition of 4 rebuilds from the old bytes, and the snapshot then overwrites
      the bytes that held fact 2. */
  function InterruptedSnapshot(): Serialized<Points> {
    var e, cs := RewardPoints(), Channels({}, {});
    var z0 := Serialized("1.0.0", None, [Fact(1, 1)], 1, Queued);
    var z1 := JobDrain(e, cs, JobLoad(e, cs, z0, "1.0.0"));
    var z2 := Add(e, cs, z1, "1.0.0", 1000, Fact(2, 2));
    var z3 := Add(e, cs, Interrupted(e, z2, "1.0.1"), "1.0.1", 1000, Fact(4, 4));
    JobPublish(JobFire(e, cs, JobDrain(e, cs, z3)))
  }

  lemma UpgradeDuringSnapshotLosesFacts()
    ensures Meaning(RewardPoints(), InterruptedSnapshot(), "1.0.1").memory.earned == 5
    ensures Single(RewardPoints(), "1.0.0", [Arrived(Fact(1, 1)), Arrived(Fact(2, 2)), Upgraded("1.0.1"), Arrived(Fact(4, 4))]).memory.earned == 7
  {
    InterruptedSnapshotResult();
    SinglePoints();
  }

  lemma SinglePoints()
    ensures Single(RewardPoints(), "1.0.0", [Arrived(Fact(1, 1)), Arrived(Fact(2, 2)), Upgraded("1.0.1"), Arrived(Fact(4, 4))])
         == State("1.0.1", Points(7, 0), 4)
  {
    var e := RewardPoints();
    var f1, f2, u, f4 := Arrived(Fact(1, 1)), Arrived(Fact(2, 2)), Upgraded("1.0.1"), Arrived(Fact(4, 4));
    PointsOfTwo();
    SingleAppend(e, "1.0.0", [f1, f2], u);
    SingleAppend(e, "1.0.0", [f1, f2, u], f4);
    assert [f1, f2] + [u] == [f1, f2, u] && [f1, f2, u] + [f4] == [f1, f2, u, f4];
    hide Single;
    WeightOfOne("1.0.1");
    assert Single(e, "1.0.0", [f1, f2, u]) == State("1.0.1", Points(3, 0), 2);
  }

  lemma PointsOfTwo()
    ensures Single(RewardPoints(), "1.0.0", [Arrived(Fact(1, 1)), Arrived(Fact(2, 2))]) == State("1.0.0", Points(3, 0), 2)
  {
    var e := RewardPoints();
    var f1, f2 := Arrived(Fact(1, 1)), Arrived(Fact(2, 2));
    WeightOfOne("1.0.0");
    SingleAppend(e, "1.0.0", [], f1);
    SingleAppend(e, "1.0.0", [f1], f2);
    assert [] + [f1] == [f1] && [f1] + [f2] == [f1, f2];
  }

  lemma InterruptedSnapshotResult()
    ensures InterruptedSnapshot() == Serialized("1.0.1", Some(Saved(Points(5, 0), 4)), [], 0, Idle)
  {
    WeightOfOne("1.0.0");
    WeightOfOne("1.0.1");
  }

  /** No fact is lost, but one that was added under the old rules counts under the new ones: the
      snapshot held fact 1, and fires it after the upgrade. */
  function LateFiring(): Serialized<Points> {
    var e, cs := RewardPoints(), Channels({}, {});
    var z0 := Serialized("1.0.0", None, [Fact(1, 1)], 1, Queued);
    var z1 := JobDrain(e, cs, JobLoad(e, cs, z0, "1.0.0"));
    JobPublish(JobFire(e, cs, Interrupted(e, z1, "2.0.0")))
  }

  lemma UpgradeDuringSnapshotFiresUnderLaterRules()
    ensures Meaning(RewardPoints(), LateFiring(), "2.0.0").memory.earned == 2
    ensures Single(RewardPoints(), "1.0.0", [Arrived(Fact(1, 1)), Upgraded("2.0.0")]).memory.earned == 1
  {
    WeightOfOne("1.0.0");
    var e, cs := RewardPoints(), Channels({}, {});
    var z1 := JobDrain(e, cs, JobLoad(e, cs, Serialized("1.0.0", None, [Fact(1, 1)], 1, Queued), "1.0.0"));
    assert z1.job.drained == [Fact(1, 1)] && z1.job.local.memory == Points(0, 1) && z1.buffer == [];
    assert LateFiring() == Serialized("1.0.0", Some(Saved(Points(2, 0), 1)), [], 0, Idle);
    SingleAppend(RewardPoints(), "1.0.0", [], Arrived(Fact(1, 1)));
    SingleAppend(RewardPoints(), "1.0.0", [Arrived(Fact(1, 1))], Upgraded("2.0.0"));
    assert [] + [Arrived(Fact(1, 1))] == [Arrived(Fact(1, 1))];
    assert [Arrived(Fact(1, 1))] + [Upgraded("2.0.0")] == [Arrived(Fact(1, 1)), Upgraded("2.0.0")];
  }
}
