/** Upgrading a replica at the grain of its fields. `add` and the snapshot task both look at the
    version label, and whoever finds it old replays the buffer into a session of the bytes,
    assigns the new bytes and then the new label, with nothing to keep the other out. This
    module lets the rules be upgraded at any moment and interleaves everything; it is about
    which facts survive, so bytes are the facts folded into them. Beside the facts, the state
    records which folds the bytes come from and which fold took each fact. */
module CatchUpRace {
  import opened Options
  import opened RulesEngine

  /** Some bytes, or the session built on them: the facts in it, and the folds it comes from. */
  datatype View = View(facts: seq<Fact>, from: set<nat>)

  /** A session that was unmarshalled from the bytes and takes facts out of the buffer. */
  datatype Fold = Fold(id: nat, view: View)

  datatype Phase =
    | Rest
    | Checking             // the job is submitted and has not looked at the label
    | Behind               // the label was old
    | CatchingUp(fold: Fold)
    | Caught               // new bytes, old label
    | Current              // the label was, or is now, the current one
    | Building(fold: Fold) // the snapshot proper
  {
    predicate Folding() { CatchingUp? || Building? }
  }

  datatype Actor = Merger | Task

  datatype Shared = Shared(
    bytes: View, version: Version, rules: Version, buffer: seq<Fact>, merger: Phase, task: Phase,
    history: seq<Fact>, took: seq<nat>, folds: nat, writer: Option<View>)
  {
    function Of(a: Actor): Phase { if a.Merger? then merger else task }
    function With(a: Actor, p: Phase): Shared { if a.Merger? then this.(merger := p) else this.(task := p) }
    predicate AtRest() { !merger.Folding() && !task.Folding() }
  }

  datatype Step =
    | Upgrade(version: Version)
    | Check(actor: Actor)
    | Load(actor: Actor)
    | Drain(actor: Actor)
    | Assign(actor: Actor)
    | Label(actor: Actor)
    | Offer(fact: Fact, submit: bool)
    | Fail(actor: Actor)
    | ReadBytes            // a state transfer reads the bytes, and will read the buffer

  const START := Shared(View([], {}), "1.0.0", "1.0.0", [], Rest, Rest, [], [], 0, None)

  predicate Enabled(s: Shared, step: Step) {
    match step
    case Upgrade(_) => true
    case Check(a) => if a.Merger? then s.merger.Rest? else s.task.Checking?
    case Load(a) => s.Of(a).Behind? || (a.Task? && s.task.Current?)
    case Drain(a) => s.Of(a).Folding() && s.buffer != []
    case Assign(a) => s.Of(a).Folding()
    case Label(a) => s.Of(a).Caught?
    case Offer(_, _) => s.merger.Current?
    case Fail(a) => s.Of(a).Behind? || s.Of(a).Folding() || (a.Task? && s.task.Current?)
    case ReadBytes => true
  }

  function Next(s: Shared, step: Step): Shared
    requires Enabled(s, step)
  {
    match step
    case Upgrade(v) => s.(rules := v)
    case Check(a) => s.With(a, if s.version != s.rules then Behind else Current)
    case Load(a) =>
      var fold := Fold(s.folds, View(s.bytes.facts, s.bytes.from + {s.folds}));
      s.With(a, if s.Of(a).Behind? then CatchingUp(fold) else Building(fold)).(folds := s.folds + 1)
    case Drain(a) =>
      var fold := s.Of(a).fold;
      var fold1 := fold.(view := fold.view.(facts := fold.view.facts + [s.buffer[0]]));
      s.With(a, s.Of(a).(fold := fold1)).(buffer := s.buffer[1..], took := s.took + [fold.id])
    case Assign(a) => s.With(a, if s.Of(a).CatchingUp? then Caught else Rest).(bytes := s.Of(a).fold.view)
    case Label(a) => s.With(a, Current).(version := s.rules)
    case Offer(f, submit) =>
      s.(buffer := s.buffer + [f], history := s.history + [f], merger := Rest,
         task := if submit && s.task.Rest? then Checking else s.task)
    case Fail(a) => s.With(a, Rest)
    case ReadBytes => s.(writer := Some(s.bytes))
  }

  function Run(s: Shared, steps: seq<Step>): Option<Shared>
    decreases |steps|
  {
    if steps == [] then Some(s)
    else if Enabled(s, steps[0]) then Run(Next(s, steps[0]), steps[1..]) else None
  }

  // What a view holds

  /** The facts that one of the given folds took, in order. */
  function Select(history: seq<Fact>, took: seq<nat>, from: set<nat>): seq<Fact>
    requires |took| <= |history|
  {
    if took == [] then [] else
      var n := |took| - 1;
      Select(history, took[..n], from) + (if took[n] in from then [history[n]] else [])
  }

  predicate AllIn(took: seq<nat>, from: set<nat>) {
    forall p :: 0 <= p < |took| ==> took[p] in from
  }

  lemma {:induction false} SelectAll(history: seq<Fact>, took: seq<nat>, from: set<nat>)
    requires |took| <= |history|
    ensures AllIn(took, from) ==> Select(history, took, from) == history[..|took|]
    ensures !AllIn(took, from) ==> |Select(history, took, from)| < |took|
    ensures |Select(history, took, from)| <= |took|
  {
    if took != [] {
      var n := |took| - 1;
      SelectAll(history, took[..n], from);
      assert history[..n] + [history[n]] == history[..|took|];
    }
  }

  lemma {:induction false} SelectMore(history: seq<Fact>, took: seq<nat>, from: set<nat>, f: Fact)
    requires |took| <= |history|
    ensures Select(history + [f], took, from) == Select(history, took, from)
  {
    if took != [] { SelectMore(history, took[..|took| - 1], from, f); }
  }

  /** A fold that took nothing does not matter. */
  lemma {:induction false} SelectFresh(history: seq<Fact>, took: seq<nat>, from: set<nat>, id: nat)
    requires |took| <= |history| && forall p :: 0 <= p < |took| ==> took[p] != id
    ensures Select(history, took, from + {id}) == Select(history, took, from)
  {
    if took != [] { SelectFresh(history, took[..|took| - 1], from, id); }
  }

  lemma SelectDrained(history: seq<Fact>, took: seq<nat>, from: set<nat>, id: nat)
    requires |took| < |history|
    ensures Select(history, took + [id], from)
         == Select(history, took, from) + (if id in from then [history[|took|]] else [])
  {
    assert (took + [id])[..|took|] == took;
  }

  // The invariant

  ghost predicate ViewOK(s: Shared, v: View) {
    && |s.took| <= |s.history|
    && v.facts == Select(s.history, s.took, v.from)
    && forall i :: i in v.from ==> i < s.folds
  }

  /** The fold of the phase, if there is one, has been assigned to nothing this view comes from. */
  predicate Apart(v: View, p: Phase) {
    p.Folding() ==> p.fold.id !in v.from
  }

  ghost predicate PhaseOK(s: Shared, p: Phase, other: Phase) {
    p.Folding() ==> ViewOK(s, p.fold.view) && p.fold.id in p.fold.view.from && Apart(p.fold.view, other)
  }

  ghost predicate Inv(s: Shared) {
    && |s.took| <= |s.history| && s.buffer == s.history[|s.took|..]
    && (forall p :: 0 <= p < |s.took| ==> s.took[p] < s.folds)
    && ViewOK(s, s.bytes) && Apart(s.bytes, s.merger) && Apart(s.bytes, s.task)
    && PhaseOK(s, s.merger, s.task) && PhaseOK(s, s.task, s.merger)
    && (s.writer.Some? ==> ViewOK(s, s.writer.value) && Apart(s.writer.value, s.merger) && Apart(s.writer.value, s.task))
  }

  lemma ViewDrained(s: Shared, v: View, id: nat)
    requires ViewOK(s, v) && |s.took| < |s.history|
    ensures var s1 := s.(took := s.took + [id]);
            ViewOK(s1, if id in v.from then v.(facts := v.facts + [s.history[|s.took|]]) else v)
  {
    SelectDrained(s.history, s.took, v.from, id);
    assert v.facts + [] == v.facts;
  }

  lemma DrainKeepsInv(s: Shared, a: Actor)
    requires Inv(s) && Enabled(s, Drain(a))
    ensures Inv(Next(s, Drain(a)))
  {
    hide Select;
    var id, other := s.Of(a).fold.id, s.Of(if a.Merger? then Task else Merger);
    assert s.buffer[0] == s.history[|s.took|] && s.buffer[1..] == s.history[|s.took| + 1..];
    ViewDrained(s, s.bytes, id);
    ViewDrained(s, s.Of(a).fold.view, id);
    if other.Folding() { ViewDrained(s, other.fold.view, id); }
    if s.writer.Some? { ViewDrained(s, s.writer.value, id); }
  }

  lemma OfferKeepsInv(s: Shared, f: Fact, submit: bool)
    requires Inv(s) && Enabled(s, Offer(f, submit))
    ensures Inv(Next(s, Offer(f, submit)))
  {
    hide Select;
    SelectMore(s.history, s.took, s.bytes.from, f);
    if s.task.Folding() { SelectMore(s.history, s.took, s.task.fold.view.from, f); }
    if s.writer.Some? { SelectMore(s.history, s.took, s.writer.value.from, f); }
    assert (s.history + [f])[|s.took|..] == s.history[|s.took|..] + [f];
  }

  lemma LoadKeepsInv(s: Shared, a: Actor)
    requires Inv(s) && Enabled(s, Load(a))
    ensures Inv(Next(s, Load(a)))
  {
    hide Select;
    SelectFresh(s.history, s.took, s.bytes.from, s.folds);
  }

  lemma AssignKeepsInv(s: Shared, a: Actor)
    requires Inv(s) && Enabled(s, Assign(a))
    ensures Inv(Next(s, Assign(a)))
  {
    hide Select;
  }

  lemma FailKeepsInv(s: Shared, a: Actor)
    requires Inv(s) && Enabled(s, Fail(a))
    ensures Inv(Next(s, Fail(a)))
  {
    hide Select;
  }

  lemma {:induction false} StepKeepsInv(s: Shared, step: Step)
    requires Inv(s) && Enabled(s, step)
    ensures Inv(Next(s, step))
  {
    match step
    case Assign(a) => AssignKeepsInv(s, a);
    case Fail(a) => FailKeepsInv(s, a);
    case Drain(a) => DrainKeepsInv(s, a);
    case Offer(f, submit) => OfferKeepsInv(s, f, submit);
    case Load(a) => LoadKeepsInv(s, a);
    case _ => hide Select;
  }

  lemma {:induction false} RunKeepsInv(s: Shared, steps: seq<Step>)
    requires Inv(s) && Run(s, steps).Some?
    ensures Inv(Run(s, steps).value)
    decreases |steps|
  {
    if steps != [] {
      hide Inv, Enabled, Next;
      StepKeepsInv(s, steps[0]);
      RunKeepsInv(Next(s, steps[0]), steps[1..]);
    }
  }

  // What the order of the steps alone says

  /** A fold under way: its number, and the folds that bytes assigned by it come from. */
  datatype Entry = NoFold | Open(id: nat, from: set<nat>)

  /** The folds the bytes come from, who took each fact, and the folds under way: nothing here depends
      on facts, bytes or versions. */
  datatype Ledger = Ledger(bytes: set<nat>, merger: Entry, task: Entry, took: seq<nat>, folds: nat) {
    function Of(a: Actor): Entry { if a.Merger? then merger else task }
    function With(a: Actor, e: Entry): Ledger { if a.Merger? then this.(merger := e) else this.(task := e) }
  }

  function Booked(l: Ledger, step: Step): Ledger {
    match step
    case Load(a) => l.With(a, Open(l.folds, l.bytes + {l.folds})).(folds := l.folds + 1)
    case Drain(a) => if l.Of(a).Open? then l.(took := l.took + [l.Of(a).id]) else l
    case Assign(a) => if l.Of(a).Open? then l.With(a, NoFold).(bytes := l.Of(a).from) else l
    case Fail(a) => l.With(a, NoFold)
    case _ => l
  }

  function Account(steps: seq<Step>): Ledger {
    if steps == [] then Ledger({}, NoFold, NoFold, [], 0)
    else Booked(Account(steps[..|steps| - 1]), steps[|steps| - 1])
  }

  /** Every fold that took a fact is among those the bytes come from. */
  predicate NothingOverwritten(steps: seq<Step>) {
    AllIn(Account(steps).took, Account(steps).bytes)
  }

  predicate Books(p: Phase, e: Entry) {
    if p.Folding() then e == Open(p.fold.id, p.fold.view.from) else e == NoFold
  }

  predicate Matches(s: Shared, l: Ledger) {
    s.bytes.from == l.bytes && Books(s.merger, l.merger) && Books(s.task, l.task) && s.took == l.took && s.folds == l.folds
  }

  lemma {:induction false} AccountMatches(before: seq<Step>, s: Shared, steps: seq<Step>)
    requires Matches(s, Account(before)) && Run(s, steps).Some?
    ensures Matches(Run(s, steps).value, Account(before + steps))
    decreases |steps|
  {
    if steps == [] {
      assert before + steps == before;
    } else {
      var first := before + [steps[0]];
      assert first[..|first| - 1] == before;
      StepMatches(s, Account(before), steps[0]);
      AccountMatches(first, Next(s, steps[0]), steps[1..]);
      assert before + steps == first + steps[1..];
    }
  }

  lemma StepMatches(s: Shared, l: Ledger, step: Step)
    requires Matches(s, l) && Enabled(s, step)
    ensures Matches(Next(s, step), Booked(l, step))
  {
  }

  // Which schedules lose facts

  lemma ViewIsComplete(s: Shared, v: View)
    requires ViewOK(s, v) && s.buffer == s.history[|s.took|..]
    ensures v.facts + s.buffer == s.history <==> AllIn(s.took, v.from)
  {
    SelectAll(s.history, s.took, v.from);
    assert s.history[..|s.took|] + s.history[|s.took|..] == s.history;
    if !AllIn(s.took, v.from) { assert |v.facts + s.buffer| < |s.history|; }
  }

  /** Whatever the schedule: bytes and buffer are all of history, in order, if and only if every fold
      that took a fact is among those the bytes come from, which the order of the steps decides. */
  lemma CatchUpConserves(steps: seq<Step>)
    requires Run(START, steps).Some?
    ensures var s := Run(START, steps).value;
            s.bytes.facts + s.buffer == s.history <==> NothingOverwritten(steps)
  {
    RunKeepsInv(START, steps);
    ViewIsComplete(Run(START, steps).value, Run(START, steps).value.bytes);
    RunMatches(steps);
  }

  /** The writer of a state transfer reads the bytes first: what it writes is all of history if and
      only if every fold that has taken a fact by the time it reads the buffer is among those the
      bytes it has read come from. */
  lemma WriterConserves(before: seq<Step>, after: seq<Step>)
    requires Run(START, before + [ReadBytes] + after).Some? && ReadBytes !in after
    ensures var s := Run(START, before + [ReadBytes] + after).value;
            s.writer.Some? &&
            (s.writer.value.facts + s.buffer == s.history
             <==> AllIn(Account(before + [ReadBytes] + after).took, Account(before).bytes))
  {
    assert Inv(START);
    hide Run, Account, Inv, Enabled, Next, Select;
    var upTo := before + [ReadBytes];
    RunSplits(START, upTo, after);
    RunSplits(START, before, [ReadBytes]);
    var s0, s := Run(START, before).value, Run(START, upTo + after).value;
    RunMatches(before);
    RunMatches(upTo + after);
    RunKeepsInv(START, upTo + after);
    RunRead(s0);
    WriterKeeps(s0.(writer := Some(s0.bytes)), after);
    WriterIsComplete(s);
  }

  lemma RunMatches(steps: seq<Step>)
    requires Run(START, steps).Some?
    ensures Matches(Run(START, steps).value, Account(steps))
  {
    AccountMatches([], START, steps);
    assert [] + steps == steps;
  }

  lemma RunRead(s: Shared)
    ensures Run(s, [ReadBytes]) == Some(s.(writer := Some(s.bytes)))
  {
    assert [ReadBytes][1..] == [];
  }

  lemma WriterIsComplete(s: Shared)
    requires Inv(s) && s.writer.Some?
    ensures s.writer.value.facts + s.buffer == s.history <==> AllIn(s.took, s.writer.value.from)
  {
    hide Select;
    ViewIsComplete(s, s.writer.value);
  }

  lemma {:induction false} RunSplits(s: Shared, steps: seq<Step>, more: seq<Step>)
    requires Run(s, steps + more).Some?
    ensures Run(s, steps).Some? && Run(s, steps + more) == Run(Run(s, steps).value, more)
    decreases |steps|
  {
    hide Enabled, Next;
    if steps == [] {
      assert steps + more == more;
    } else {
      assert (steps + more)[1..] == steps[1..] + more;
      RunSplits(Next(s, steps[0]), steps[1..], more);
    }
  }

  lemma {:induction false} WriterKeeps(s: Shared, steps: seq<Step>)
    requires Run(s, steps).Some? && ReadBytes !in steps
    ensures Run(s, steps).value.writer == s.writer
    decreases |steps|
  {
    if steps != [] { WriterKeeps(Next(s, steps[0]), steps[1..]); }
  }

  /** Every fact is in the bytes or in the session of a fold that is still going on. */
  predicate Held(s: Shared) {
    forall p :: 0 <= p < |s.took| ==>
      s.took[p] in s.bytes.from || (s.merger.Folding() && s.took[p] == s.merger.fold.id)
      || (s.task.Folding() && s.took[p] == s.task.fold.id)
  }

  predicate TookNothing(s: Shared, ids: set<nat>) {
    forall p :: 0 <= p < |s.took| ==> s.took[p] !in ids
  }

  /** The guard: nobody has assigned bytes with facts since the fold loaded its own, and a fold
      that is given up has taken nothing. */
  predicate InTurn(s: Shared, step: Step) {
    match step
    case Assign(a) => s.Of(a).Folding() ==> TookNothing(s, s.bytes.from - s.Of(a).fold.view.from)
    case Fail(a) => s.Of(a).Folding() ==> TookNothing(s, {s.Of(a).fold.id})
    case _ => true
  }

  lemma AssignHolds(s: Shared, a: Actor)
    requires Inv(s) && Held(s) && Enabled(s, Assign(a))
    ensures Held(Next(s, Assign(a))) <==> InTurn(s, Assign(a))
  {
    hide Select;
    var s1, fold, lost := Next(s, Assign(a)), s.Of(a).fold, s.bytes.from - s.Of(a).fold.view.from;
    assert s1.took == s.took;
    if p :| 0 <= p < |s.took| && s.took[p] in lost {
      assert s1.took[p] !in s1.bytes.from;
      assert !Held(s1);
    } else {
      forall p | 0 <= p < |s.took| ensures s.took[p] !in lost {}
    }
  }

  lemma FailHolds(s: Shared, a: Actor)
    requires Inv(s) && Held(s) && Enabled(s, Fail(a))
    ensures Held(Next(s, Fail(a))) <==> InTurn(s, Fail(a))
  {
    hide Select;
    var s1 := Next(s, Fail(a));
    assert s1.took == s.took;
    if s.Of(a).Folding() {
      var id := s.Of(a).fold.id;
      if p :| 0 <= p < |s.took| && s.took[p] == id {
        assert s1.took[p] !in s1.bytes.from;
        assert !Held(s1);
      } else {
        forall p | 0 <= p < |s.took| ensures s.took[p] !in {id} {}
      }
    }
  }

  /** A fold can be given up at any moment, and lets go of a fact exactly if it has taken one. */
  lemma GivingUp(s: Shared, a: Actor)
    requires Inv(s) && Held(s) && s.Of(a).Folding()
    ensures Enabled(s, Fail(a))
    ensures var s1 := Next(s, Fail(a));
      && s1.bytes == s.bytes && s1.buffer == s.buffer && s1.version == s.version && s1.Of(a).Rest?
      && (Held(s1) <==> s.Of(a).fold.id !in s.took)
  {
    hide Select;
    FailHolds(s, a);
  }

  /** A step lets go of a fact exactly when it is out of turn. */
  lemma StepHolds(s: Shared, step: Step)
    requires Inv(s) && Held(s) && Enabled(s, step)
    ensures Held(Next(s, step)) <==> InTurn(s, step)
  {
    hide Select;
    var s1 := Next(s, step);
    match step
    case Drain(a) =>
      var id := s.Of(a).fold.id;
      assert s1.took[..|s.took|] == s.took && s1.took[|s.took|] == id;
      forall p | 0 <= p < |s1.took|
        ensures s1.took[p] in s1.bytes.from || (s1.merger.Folding() && s1.took[p] == s1.merger.fold.id)
                || (s1.task.Folding() && s1.took[p] == s1.task.fold.id)
      {
        if p < |s.took| { assert s1.took[p] == s.took[p]; }
      }
    case Assign(a) => AssignHolds(s, a);
    case Fail(a) => FailHolds(s, a);
    case _ =>
      assert s1.took == s.took;
  }

  predicate AllInTurn(s: Shared, steps: seq<Step>)
    requires Run(s, steps).Some?
    decreases |steps|
  {
    steps == [] || (InTurn(s, steps[0]) && AllInTurn(Next(s, steps[0]), steps[1..]))
  }

  lemma {:induction false} RunHolds(s: Shared, steps: seq<Step>)
    requires Inv(s) && Held(s) && Run(s, steps).Some? && AllInTurn(s, steps)
    ensures Held(Run(s, steps).value)
    decreases |steps|
  {
    if steps != [] {
      hide Inv, Held, Enabled, Next, InTurn;
      StepKeepsInv(s, steps[0]);
      StepHolds(s, steps[0]);
      RunHolds(Next(s, steps[0]), steps[1..]);
    }
  }

  /** When folds keep their turns, whatever upgrades come and whenever, a replica at rest holds all
      of history in order. */
  lemma TurnsConserve(steps: seq<Step>)
    requires Run(START, steps).Some? && Run(START, steps).value.AtRest() && AllInTurn(START, steps)
    ensures var s := Run(START, steps).value; s.bytes.facts + s.buffer == s.history
  {
    RunHolds(START, steps);
    RunKeepsInv(START, steps);
    ViewIsComplete(Run(START, steps).value, Run(START, steps).value.bytes);
  }

  ghost predicate Gone(s: Shared, p: nat) {
    && p < |s.took| && s.took[p] !in s.bytes.from
    && (s.merger.Folding() ==> s.took[p] !in s.merger.fold.view.from)
    && (s.task.Folding() ==> s.took[p] !in s.task.fold.view.from)
  }

  lemma StepKeepsGone(s: Shared, step: Step, p: nat)
    requires Inv(s) && Gone(s, p) && Enabled(s, step)
    ensures Gone(Next(s, step), p)
  {
    hide Select;
  }

  lemma {:induction false} RunKeepsGone(s: Shared, steps: seq<Step>, p: nat)
    requires Inv(s) && Gone(s, p) && Run(s, steps).Some?
    ensures Gone(Run(s, steps).value, p)
    decreases |steps|
  {
    if steps != [] {
      hide Inv, Gone, Enabled, Next;
      StepKeepsInv(s, steps[0]);
      StepKeepsGone(s, steps[0], p);
      RunKeepsGone(Next(s, steps[0]), steps[1..], p);
    }
  }

  /** What is missing at rest never comes back. */
  lemma LossIsForGood(s: Shared, steps: seq<Step>)
    requires Inv(s) && s.AtRest() && s.bytes.facts + s.buffer != s.history && Run(s, steps).Some?
    ensures var s1 := Run(s, steps).value; s1.bytes.facts + s1.buffer != s1.history
  {
    ViewIsComplete(s, s.bytes);
    var p: nat :| p < |s.took| && s.took[p] !in s.bytes.from;
    RunKeepsInv(s, steps);
    RunKeepsGone(s, steps, p);
    ViewIsComplete(Run(s, steps).value, Run(s, steps).value.bytes);
  }

  /** Two folds of the same bytes, the other one assigned first: all facts are kept if and only if
      that one took none. */
  lemma LaterAssignmentWins(s: Shared, a: Actor)
    requires Inv(s) && Held(s) && Enabled(s, Assign(a)) && !s.Of(if a.Merger? then Task else Merger).Folding()
    ensures var s1 := Next(s, Assign(a));
            s1.bytes.facts + s1.buffer == s1.history <==> TookNothing(s, s.bytes.from - s.Of(a).fold.view.from)
  {
    StepKeepsInv(s, Assign(a));
    AssignHolds(s, a);
    ViewIsComplete(Next(s, Assign(a)), Next(s, Assign(a)).bytes);
  }

  // What the replica can always do

  /** Steps that an actor has still to do, in which it gives nothing up. */
  function Rank(p: Phase, buffer: seq<Fact>): nat {
    match p
    case Rest => 0
    case Checking => 7 + |buffer|
    case Behind => 6 + |buffer|
    case CatchingUp(_) => 5 + |buffer|
    case Caught => 4 + |buffer|
    case Current => 3 + |buffer|
    case Building(_) => 1 + |buffer|
  }

  /** What an actor does next; as long as it builds it takes all there is. */
  function Onward(s: Shared, a: Actor): Step {
    match s.Of(a)
    case Rest => Check(a)
    case Checking => Check(a)
    case Behind => Load(a)
    case CatchingUp(_) => Assign(a)
    case Caught => Label(a)
    case Current => Load(a)
    case Building(_) => if s.buffer != [] then Drain(a) else Assign(a)
  }

  lemma {:induction false} RunJoins(s: Shared, a: seq<Step>, b: seq<Step>)
    requires Run(s, a).Some?
    ensures Run(s, a + b) == Run(Run(s, a).value, b)
    decreases |a|
  {
    hide Enabled, Next;
    if a == [] {
      assert a + b == b;
    } else {
      RunJoins(Next(s, a[0]), a[1..], b);
      assert (a + b)[1..] == a[1..] + b;
    }
  }

  lemma OneStep(s: Shared, step: Step)
    requires Enabled(s, step)
    ensures Run(s, [step]) == Some(Next(s, step))
  {
    assert [step][1..] == [];
  }

  lemma TaskGoesOn(s: Shared)
    requires !s.task.Rest?
    ensures Enabled(s, Onward(s, Task))
    ensures var s1 := Next(s, Onward(s, Task));
      && Rank(s1.task, s1.buffer) < Rank(s.task, s.buffer)
      && s1.merger == s.merger && s1.history == s.history && s1.rules == s.rules
      && (s1.task.Rest? ==> s1.buffer == [])
  {
  }

  /** A submitted task can go to its end, and then has taken all there is. */
  lemma {:induction false} TaskEnds(s: Shared) returns (more: seq<Step>, s1: Shared)
    ensures Run(s, more) == Some(s1) && s1.task.Rest? && s1.merger == s.merger && s1.history == s.history && s1.rules == s.rules
    ensures if s.task.Rest? then s1 == s else s1.buffer == []
    decreases Rank(s.task, s.buffer)
  {
    if s.task.Rest? {
      more, s1 := [], s;
    } else {
      hide Enabled, Next, Onward, Rank;
      TaskGoesOn(s);
      var step := Onward(s, Task);
      OneStep(s, step);
      var rest;
      rest, s1 := TaskEnds(Next(s, step));
      RunJoins(s, [step], rest);
      more := [step] + rest;
    }
  }

  lemma MergerGoesOn(s: Shared)
    requires !s.merger.Current? && !s.merger.Checking? && !s.merger.Building?
    ensures Enabled(s, Onward(s, Merger))
    ensures var s1 := Next(s, Onward(s, Merger));
      && (if s.merger.Rest? then s1.merger.Behind? || s1.merger.Current? else Rank(s1.merger, []) < Rank(s.merger, []))
      && s1.task == s.task && s1.history == s.history && s1.rules == s.rules && s1.buffer == s.buffer
      && !s1.merger.Rest? && !s1.merger.Checking? && !s1.merger.Building?
      && (s1.merger.Current? ==> !s.merger.Rest? ==> s1.version == s1.rules)
  {
  }

  /** The adding thread does not build snapshots. */
  lemma {:induction false} MergerNeverBuilds(s: Shared, steps: seq<Step>)
    requires !s.merger.Checking? && !s.merger.Building? && Run(s, steps).Some?
    ensures var s1 := Run(s, steps).value; !s1.merger.Checking? && !s1.merger.Building?
    decreases |steps|
  {
    if steps != [] { MergerNeverBuilds(Next(s, steps[0]), steps[1..]); }
  }

  /** The adding thread can come to where it offers its fact. */
  lemma {:induction false} MergerIsCurrent(s: Shared) returns (more: seq<Step>, s1: Shared)
    requires !s.merger.Checking? && !s.merger.Building?
    ensures Run(s, more) == Some(s1) && s1.merger.Current? && s1.task == s.task && s1.history == s.history && s1.buffer == s.buffer
    decreases if s.merger.Rest? then 7 else Rank(s.merger, [])
  {
    if s.merger.Current? {
      more, s1 := [], s;
    } else {
      hide Enabled, Next, Onward, Rank;
      MergerGoesOn(s);
      var step := Onward(s, Merger);
      OneStep(s, step);
      RankBelow(Next(s, step).merger);
      var rest;
      rest, s1 := MergerIsCurrent(Next(s, step));
      RunJoins(s, [step], rest);
      more := [step] + rest;
    }
  }

  lemma RankBelow(p: Phase)
    ensures p.Behind? || p.Current? ==> Rank(p, []) < 7
  {
  }

  /** From every reachable state, whatever is under way, an addition can be made and a snapshot after it
      finished: both actors are then at rest, and all facts are in the bytes or were lost before. */
  lemma AdditionIsAlwaysPossible(steps: seq<Step>, f: Fact)
    requires Run(START, steps).Some?
    ensures exists more :: AddsAndSaves(Run(START, steps).value, more, f)
  {
    var s := Run(START, steps).value;
    MergerNeverBuilds(START, steps);
    hide Run, Enabled, Next;
    var first, s1 := TaskEnds(s);
    var second, s2 := MergerIsCurrent(s1);
    RunJoins(s, first, second);
    var s3 := Offered(s2, f);
    OneStep(s2, Offer(f, true));
    RunJoins(s, first + second, [Offer(f, true)]);
    var last, s4 := TaskEnds(s3);
    RunJoins(s, first + second + [Offer(f, true)], last);
    assert AddsAndSaves(s, first + second + [Offer(f, true)] + last, f);
  }

  lemma Offered(s: Shared, f: Fact) returns (s1: Shared)
    requires s.merger.Current? && s.task.Rest?
    ensures Enabled(s, Offer(f, true)) && s1 == Next(s, Offer(f, true))
    ensures s1.merger.Rest? && !s1.task.Rest? && s1.history == s.history + [f]
  {
    s1 := Next(s, Offer(f, true));
  }

  predicate AddsAndSaves(s: Shared, more: seq<Step>, f: Fact) {
    var r := Run(s, more);
    r.Some? && r.value.merger.Rest? && r.value.task.Rest? && r.value.buffer == [] && r.value.history == s.history + [f]
  }

  // A schedule that loses a fact

  const F1 := Fact(1, 1)
  const F2 := Fact(2, 2)

  /** The upgrade comes while a task is submitted. The job takes F1 into a session of the old bytes,
      the addition of F2 builds its own session of the same bytes, and assigns last. */
  const RACE := R1 + R2 + R3
  const R1 := [Check(Merger), Offer(F1, true), Upgrade("2.0.0"), Check(Task)]
  const R2 := [Load(Task), Drain(Task), Check(Merger), Load(Merger)]
  const R3 := [Assign(Task), Assign(Merger), Label(Merger), Offer(F2, false)]

  lemma FourSteps(s: Shared, a: Step, b: Step, c: Step, d: Step, more: seq<Step>)
    requires Enabled(s, a) && Enabled(Next(s, a), b) && Enabled(Next(Next(s, a), b), c)
    requires Enabled(Next(Next(Next(s, a), b), c), d)
    ensures Run(s, [a, b, c, d] + more) == Run(Next(Next(Next(Next(s, a), b), c), d), more)
  {
    hide Enabled, Next;
    var s1, s2 := Next(s, a), Next(Next(s, a), b);
    assert ([a, b, c, d] + more)[1..] == [b, c, d] + more && ([b, c, d] + more)[1..] == [c, d] + more;
    assert ([c, d] + more)[1..] == [d] + more && ([d] + more)[1..] == more;
    assert Run(s2, [c, d] + more) == Run(Next(Next(s2, c), d), more);
    assert Run(s1, [b, c, d] + more) == Run(s2, [c, d] + more);
  }

  const UPGRADED := Shared(View([], {}), "1.0.0", "2.0.0", [F1], Rest, Behind, [F1], [], 0, None)
  const BOTH := Shared(View([], {}), "1.0.0", "2.0.0", [],
    CatchingUp(Fold(1, View([], {1}))), CatchingUp(Fold(0, View([F1], {0}))), [F1], [0], 2, None)
  const LOST := Shared(View([], {1}), "2.0.0", "2.0.0", [F2], Rest, Caught, [F1, F2], [0], 2, None)

  lemma ComesUpgrade()
    ensures Run(START, R1 + (R2 + R3)) == Run(UPGRADED, R2 + R3)
  {
    assert [] + [F1] == [F1];
    FourSteps(START, Check(Merger), Offer(F1, true), Upgrade("2.0.0"), Check(Task), R2 + R3);
  }

  lemma BothFold()
    ensures Run(UPGRADED, R2 + R3) == Run(BOTH, R3)
  {
    var none: set<nat> := {};
    assert none + {0} == {0} && none + {1} == {1} && [] + [F1] == [F1] && [] + [0] == [0];
    var p1 := Next(UPGRADED, Load(Task));
    assert p1.task == CatchingUp(Fold(0, View([], {0})));
    var p2 := Next(p1, Drain(Task));
    assert p2.task == CatchingUp(Fold(0, View([F1], {0}))) && p2.buffer == [] && p2.took == [0];
    assert Next(Next(p2, Check(Merger)), Load(Merger)) == BOTH;
    FourSteps(UPGRADED, Load(Task), Drain(Task), Check(Merger), Load(Merger), R3);
  }

  lemma AssignInTheWrongOrder()
    ensures Run(BOTH, R3) == Some(LOST)
  {
    assert [] + [F2] == [F2] && [F1] + [F2] == [F1, F2];
    FourSteps(BOTH, Assign(Task), Assign(Merger), Label(Merger), Offer(F2, false), []);
    assert R3 + [] == R3;
  }

  lemma RaceLosesFacts()
    ensures Run(START, RACE) == Some(LOST)
    ensures LOST.AtRest() && LOST.bytes.facts + LOST.buffer == [F2] && LOST.history == [F1, F2]
  {
    ComesUpgrade();
    BothFold();
    AssignInTheWrongOrder();
    assert RACE == R1 + (R2 + R3);
  }
}
