/** The snapshot protocol of one replica at the grain of its shared fields: the thread that
    merges deltas, the background tasks it submits, and a rebuild that waits on the latch.
    Marshalled bytes are written as the facts folded into them (module SerializedSession
    proves that reading), so losing a fact and losing a state are the same thing here. */
module SnapshotLatch {
  import opened Options
  import opened RulesEngine

  /** The merging thread: idle, past the compare-and-set, or with the new latch in place. */
  datatype Merger = Ready | Won | Armed

  datatype Task =
    | Queued
    | Draining(base: seq<Fact>, drained: seq<Fact>)
    | Closing       // the bytes are assigned, or the job failed
    | Cleared       // saving is false again, the latch not yet counted down
    | Finished
  {
    predicate Active() { Queued? || Draining? || Closing? }
  }

  datatype Rebuild =
    | NotStarted
    | Waiting(latch: nat)
    | Passed
    | Taking(got: seq<Fact>)
    | Done(result: seq<Fact>)

  /** `counts[i]` is the count of the i-th latch object; the field points at `counts[latch]`.
      `history` is everything ever added. */
  datatype Shared = Shared(
    bytes: seq<Fact>, buffer: seq<Fact>, saving: bool, latch: nat, counts: seq<nat>,
    merger: Merger, tasks: seq<Task>, rebuild: Rebuild, history: seq<Fact>)

  datatype Step =
    | Offer(fact: Fact)
    | CompareAndSet
    | NewLatch
    | Execute
    | Load(task: nat)
    | Drain(task: nat)
    | Publish(task: nat)
    | Fail(task: nat)
    | ClearSaving(task: nat)
    | CountDown(task: nat)
    | CheckSaving
    | Await
    | ReadBytes
    | Take
    | Return

  const START := Shared([], [], false, 0, [0], Ready, [], NotStarted, [])

  predicate TaskIs(s: Shared, t: nat, p: Task -> bool) {
    t < |s.tasks| && p(s.tasks[t])
  }

  /** Deltas stop once the node rebuilds: it is then the only one that inserts. */
  predicate Enabled(s: Shared, step: Step) {
    match step
    case Offer(_) => s.merger.Ready? && s.rebuild.NotStarted?
    case CompareAndSet => s.merger.Ready? && s.rebuild.NotStarted?
    case NewLatch => s.merger.Won?
    case Execute => s.merger.Armed?
    case Load(t) => TaskIs(s, t, (p: Task) => p.Queued?)
    case Drain(t) => TaskIs(s, t, (p: Task) => p.Draining?) && s.buffer != []
    case Publish(t) => TaskIs(s, t, (p: Task) => p.Draining?)
    case Fail(t) => TaskIs(s, t, (p: Task) => p.Queued? || p.Draining?)
    case ClearSaving(t) => TaskIs(s, t, (p: Task) => p.Closing?)
    case CountDown(t) => TaskIs(s, t, (p: Task) => p.Cleared?) && s.latch < |s.counts|
    case CheckSaving => s.rebuild.NotStarted?
    case Await => s.rebuild.Waiting? && s.rebuild.latch < |s.counts| && s.counts[s.rebuild.latch] == 0
    case ReadBytes => s.rebuild.Passed?
    case Take => s.rebuild.Taking? && s.buffer != []
    case Return => s.rebuild.Taking? && s.buffer == []
  }

  function Next(s: Shared, step: Step): Shared
    requires Enabled(s, step)
  {
    match step
    case Offer(f) => s.(buffer := s.buffer + [f], history := s.history + [f])
    case CompareAndSet => if s.saving then s else s.(saving := true, merger := Won)
    case NewLatch => s.(latch := |s.counts|, counts := s.counts + [1], merger := Armed)
    case Execute => s.(tasks := s.tasks + [Queued], merger := Ready)
    case Load(t) => s.(tasks := s.tasks[t := Draining(s.bytes, [])])
    case Drain(t) =>
      s.(buffer := s.buffer[1..], tasks := s.tasks[t := Draining(s.tasks[t].base, s.tasks[t].drained + [s.buffer[0]])])
    case Publish(t) => s.(bytes := s.tasks[t].base + s.tasks[t].drained, tasks := s.tasks[t := Closing])
    case Fail(t) => s.(tasks := s.tasks[t := Closing])
    case ClearSaving(t) => s.(saving := false, tasks := s.tasks[t := Cleared])
    case CountDown(t) =>
      var n := s.counts[s.latch];
      s.(counts := s.counts[s.latch := if n > 0 then n - 1 else 0], tasks := s.tasks[t := Finished])
    case CheckSaving => s.(rebuild := if s.saving then Waiting(s.latch) else Passed)
    case Await => s.(rebuild := Passed)
    case ReadBytes => s.(rebuild := Taking(s.bytes))
    case Take => s.(buffer := s.buffer[1..], rebuild := Taking(s.rebuild.got + [s.buffer[0]]))
    case Return => s.(rebuild := Done(s.rebuild.got))
  }

  function Run(steps: seq<Step>): Option<Shared> {
    if steps == [] then Some(START) else
      var before := Run(steps[..|steps| - 1]);
      var step := steps[|steps| - 1];
      if before.Some? && Enabled(before.value, step) then Some(Next(before.value, step)) else None
  }

  // Conservation

  function Taken(tasks: seq<Task>): seq<Fact> {
    if tasks == [] then [] else
      Taken(tasks[..|tasks| - 1]) + (if tasks[|tasks| - 1].Draining? then tasks[|tasks| - 1].drained else [])
  }

  predicate Untouched(r: Rebuild) {
    r.NotStarted? || r.Waiting? || r.Passed?
  }

  /** The facts that are still somewhere: in the replica, or on their way into the rebuilt session. */
  function Remaining(s: Shared): seq<Fact> {
    match s.rebuild
    case Taking(got) => got + s.buffer
    case Done(result) => result
    case _ => s.bytes + Taken(s.tasks) + s.buffer
  }

  /** The three ways to lose facts: a task fails with facts it has taken, a rebuild reads the bytes
      while a task holds facts, and a task takes a fact while the rebuild drains the buffer. */
  predicate Harmless(s: Shared, step: Step) {
    match step
    case Fail(t) => Untouched(s.rebuild) && TaskIs(s, t, (p: Task) => p.Draining?) ==> s.tasks[t].drained == []
    case ReadBytes => Taken(s.tasks) == []
    case Drain(_) => !s.rebuild.Taking?
    case _ => true
  }

  /** Every step of the run satisfies `p` in the state in which it is taken. */
  predicate AllSteps(steps: seq<Step>, p: (Shared, Step) -> bool)
    requires Run(steps).Some?
  {
    steps == [] ||
    (AllSteps(steps[..|steps| - 1], p) && p(Run(steps[..|steps| - 1]).value, steps[|steps| - 1]))
  }

  ghost predicate OneActive(s: Shared) {
    && (forall i, j :: 0 <= i < |s.tasks| && 0 <= j < |s.tasks| && s.tasks[i].Active() && s.tasks[j].Active() ==> i == j)
    && ((!s.saving || !s.merger.Ready?) ==> forall i :: 0 <= i < |s.tasks| ==> !s.tasks[i].Active())
    && (!s.merger.Ready? ==> s.saving)
    && s.latch < |s.counts|
    && (forall i :: 0 <= i < |s.tasks| && s.tasks[i].Draining? ==> s.tasks[i].base == s.bytes)
  }

  lemma StepKeepsOneActive(s: Shared, step: Step)
    requires OneActive(s) && Enabled(s, step)
    ensures OneActive(Next(s, step))
  {
    if step.Publish? {
      assert s.tasks[step.task].Active();
      assert forall i :: 0 <= i < |s.tasks| && i != step.task ==> !s.tasks[i].Draining?;
    }
  }

  lemma {:induction false} RunKeepsOneActive(steps: seq<Step>)
    requires Run(steps).Some?
    ensures OneActive(Run(steps).value)
  {
    if steps != [] {
      RunKeepsOneActive(steps[..|steps| - 1]);
      StepKeepsOneActive(Run(steps[..|steps| - 1]).value, steps[|steps| - 1]);
    }
  }

  lemma {:induction false} NothingTaken(tasks: seq<Task>)
    requires forall i :: 0 <= i < |tasks| ==> !tasks[i].Draining?
    ensures Taken(tasks) == []
  {
    if tasks != [] { NothingTaken(tasks[..|tasks| - 1]); }
  }

  lemma {:induction false} TakenByOne(tasks: seq<Task>, t: nat)
    requires t < |tasks| && tasks[t].Draining?
    requires forall i :: 0 <= i < |tasks| && i != t ==> !tasks[i].Draining?
    ensures Taken(tasks) == tasks[t].drained
  {
    var init := tasks[..|tasks| - 1];
    if t == |init| { NothingTaken(init); } else { TakenByOne(init, t); }
  }

  lemma {:induction false} TakenWithout(tasks: seq<Task>, t: nat, task: Task)
    requires t < |tasks| && !tasks[t].Draining? && !task.Draining?
    ensures Taken(tasks[t := task]) == Taken(tasks)
  {
    var init, n := tasks[..|tasks| - 1], |tasks| - 1;
    if t == n {
      assert tasks[t := task][..n] == init;
    } else {
      TakenWithout(init, t, task);
      assert tasks[t := task][..n] == init[t := task];
    }
  }

  /** What a step of the active task does to what is taken. */
  lemma ActiveTaken(s: Shared, t: nat, task: Task)
    requires OneActive(s) && t < |s.tasks| && s.tasks[t].Active()
    ensures Taken(s.tasks) == if s.tasks[t].Draining? then s.tasks[t].drained else []
    ensures Taken(s.tasks[t := task]) == if task.Draining? then task.drained else []
  {
    assert forall i :: 0 <= i < |s.tasks| && i != t ==> !s.tasks[i].Draining?;
    if s.tasks[t].Draining? { TakenByOne(s.tasks, t); } else { NothingTaken(s.tasks); }
    var tasks := s.tasks[t := task];
    assert forall i :: 0 <= i < |tasks| && i != t ==> !tasks[i].Draining?;
    if task.Draining? { TakenByOne(tasks, t); } else { NothingTaken(tasks); }
  }

  /** A harmless step keeps what remains equal to history, any other one leaves it too short, and
      what is too short stays so. */
  ghost predicate Accounted(s: Shared, s1: Shared, harmless: bool) {
    && (Remaining(s) == s.history && harmless ==> Remaining(s1) == s1.history)
    && (Remaining(s) == s.history && !harmless ==> |Remaining(s1)| < |s1.history|)
    && (|Remaining(s)| < |s.history| ==> |Remaining(s1)| < |s1.history|)
  }

  lemma SameRemains(s: Shared, s1: Shared)
    requires Remaining(s1) == Remaining(s) && s1.history == s.history
    ensures Accounted(s, s1, true)
  {
    hide Remaining;
  }

  lemma LessRemains(s: Shared, s1: Shared)
    requires |Remaining(s1)| < |Remaining(s)| && s1.history == s.history
    ensures Accounted(s, s1, false)
  {
    hide Remaining;
    if |Remaining(s)| < |s.history| { assert |Remaining(s1)| < |s1.history|; }
  }

  lemma SameParts(s: Shared, s1: Shared)
    requires s1.bytes == s.bytes && s1.buffer == s.buffer && s1.rebuild == s.rebuild && s1.history == s.history
    requires Untouched(s.rebuild) ==> Taken(s1.tasks) == Taken(s.tasks)
    ensures Accounted(s, s1, true)
  {
    hide Taken, Accounted;
    SameRemains(s, s1);
  }

  lemma LoadAccounted(s: Shared, t: nat)
    requires OneActive(s) && Enabled(s, Load(t))
    ensures Accounted(s, Next(s, Load(t)), true)
  {
    var s1 := Next(s, Load(t));
    ActiveTaken(s, t, s1.tasks[t]);
    hide Taken, OneActive, Accounted, Remaining;
    SameParts(s, s1);
  }

  lemma DrainAccounted(s: Shared, t: nat)
    requires OneActive(s) && Enabled(s, Drain(t))
    ensures Accounted(s, Next(s, Drain(t)), Harmless(s, Drain(t)))
  {
    var s1 := Next(s, Drain(t));
    ActiveTaken(s, t, s1.tasks[t]);
    var d, f, rest := s.tasks[t].drained, s.buffer[0], s.buffer[1..];
    assert Taken(s1.tasks) == d + [f];
    hide Taken, OneActive, Accounted;
    assert s.buffer == [f] + rest;
    match s.rebuild
    case Taking(got) =>
      assert Remaining(s1) == got + rest && |s.buffer| == 1 + |rest|;
      LessRemains(s, s1);
    case Done(_) => SameRemains(s, s1);
    case _ =>
      assert s.bytes + d + ([f] + rest) == s.bytes + (d + [f]) + rest;
      SameRemains(s, s1);
  }

  lemma PublishAccounted(s: Shared, t: nat)
    requires OneActive(s) && Enabled(s, Publish(t))
    ensures Accounted(s, Next(s, Publish(t)), true)
  {
    var s1 := Next(s, Publish(t));
    ActiveTaken(s, t, s1.tasks[t]);
    var d := s.tasks[t].drained;
    assert s1.bytes == s.bytes + d;
    hide Taken, OneActive, Accounted;
    assert Taken(s.tasks) == d && Taken(s1.tasks) == [] && s1.buffer == s.buffer;
    assert s1.bytes + [] == s.bytes + d;
    SameRemains(s, s1);
  }

  lemma FailAccounted(s: Shared, t: nat)
    requires OneActive(s) && Enabled(s, Fail(t))
    ensures Accounted(s, Next(s, Fail(t)), Harmless(s, Fail(t)))
  {
    var s1 := Next(s, Fail(t));
    ActiveTaken(s, t, s1.tasks[t]);
    hide Taken, OneActive, Accounted, Remaining;
    assert Taken(s1.tasks) == [];
    if !Untouched(s.rebuild) || Taken(s.tasks) == [] {
      SameParts(s, s1);
    } else {
      TakenIsLost(s, s1);
    }
  }

  lemma TakenIsLost(s: Shared, s1: Shared)
    requires s1.bytes == s.bytes && s1.buffer == s.buffer && s1.rebuild == s.rebuild && s1.history == s.history
    requires Untouched(s.rebuild) && Taken(s.tasks) != [] && Taken(s1.tasks) == []
    ensures Accounted(s, s1, false)
  {
    hide Taken, Accounted;
    assert |Remaining(s)| == |s.bytes| + |Taken(s.tasks)| + |s.buffer|;
    assert |Remaining(s1)| == |s.bytes| + |s.buffer|;
    LessRemains(s, s1);
  }

  /** The steps of no task. */
  lemma OtherAccounted(s: Shared, step: Step)
    requires OneActive(s) && Enabled(s, step)
    requires step.Offer? || step.Execute? || step.ReadBytes? || step.Take? || step.Return?
    ensures Accounted(s, Next(s, step), Harmless(s, step))
  {
    var s1 := Next(s, step);
    match step
    case Offer(f) =>
      assert Remaining(s1) == Remaining(s) + [f];
    case Execute =>
      assert s1.tasks[..|s.tasks|] == s.tasks;
      hide Accounted;
      assert Taken(s1.tasks) == Taken(s.tasks) + [] == Taken(s.tasks);
      SameRemains(s, s1);
    case ReadBytes =>
      hide Accounted, Taken, OneActive;
      assert Remaining(s1) == s.bytes + s.buffer;
      if Taken(s.tasks) == [] {
        assert s.bytes + [] == s.bytes;
        SameRemains(s, s1);
      } else {
        LessRemains(s, s1);
      }
    case Take =>
      hide Accounted;
      assert s.rebuild.got + [s.buffer[0]] + s.buffer[1..] == s.rebuild.got + s.buffer;
      SameRemains(s, s1);
    case Return =>
      hide Accounted;
      assert s.rebuild.got + [] == s.rebuild.got;
      SameRemains(s, s1);
  }

  lemma StepAccounted(s: Shared, step: Step)
    requires OneActive(s) && Enabled(s, step)
    ensures Accounted(s, Next(s, step), Harmless(s, step))
  {
    match step
    case Load(t) => LoadAccounted(s, t);
    case Drain(t) => DrainAccounted(s, t);
    case Publish(t) => PublishAccounted(s, t);
    case Fail(t) => FailAccounted(s, t);
    case ClearSaving(t) =>
      TakenWithout(s.tasks, t, Cleared);
      SameRemains(s, Next(s, step));
    case CountDown(t) =>
      TakenWithout(s.tasks, t, Finished);
      SameRemains(s, Next(s, step));
    case CompareAndSet => SameRemains(s, Next(s, step));
    case NewLatch => SameRemains(s, Next(s, step));
    case CheckSaving => SameRemains(s, Next(s, step));
    case Await => SameRemains(s, Next(s, step));
    case _ => OtherAccounted(s, step);
  }

  lemma {:induction false} RunAccounted(steps: seq<Step>)
    requires Run(steps).Some?
    ensures var s := Run(steps).value;
            if AllSteps(steps, Harmless) then Remaining(s) == s.history else |Remaining(s)| < |s.history|
  {
    if steps == [] {
      assert Remaining(START) == [];
    } else {
      hide Enabled, Next, Remaining, Harmless;
      var init := steps[..|steps| - 1];
      RunAccounted(init);
      RunKeepsOneActive(init);
      StepAccounted(Run(init).value, steps[|steps| - 1]);
    }
  }

  /** The exact condition, over all schedules, latch races and failing tasks included: until a
      rebuild reads the bytes, bytes, what the running task took and buffer are all of history
      in order, if and only if no task failed with facts it had taken. */
  lemma SnapshotConservation(steps: seq<Step>)
    requires Run(steps).Some? && Untouched(Run(steps).value.rebuild)
    ensures var s := Run(steps).value;
            s.history == s.bytes + Taken(s.tasks) + s.buffer <==> AllSteps(steps, FailsEmptyHanded)
  {
    RunAccounted(steps);
    UntouchedRun(steps);
  }

  /** A task can fail at any moment before it ends, and with it goes exactly what it has taken; the bytes
      and the buffer stay. */
  lemma FailureLosesWhatWasTaken(steps: seq<Step>, t: nat)
    requires Run(steps).Some? && Untouched(Run(steps).value.rebuild) && AllSteps(steps, FailsEmptyHanded)
    requires t < |Run(steps).value.tasks| && (Run(steps).value.tasks[t].Queued? || Run(steps).value.tasks[t].Draining?)
    ensures var s, r := Run(steps).value, Run(steps + [Fail(t)]);
      && r.Some? && r.value.bytes == s.bytes && r.value.buffer == s.buffer && r.value.saving == s.saving
      && s.history == s.bytes + Taken(s.tasks) + s.buffer && Remaining(r.value) == s.bytes + s.buffer
  {
    SnapshotConservation(steps);
    RunKeepsOneActive(steps);
    assert (steps + [Fail(t)])[..|steps|] == steps;
    hide OneActive, AllSteps, Taken;
    FailureKeepsTheRest(Run(steps).value, t);
  }

  lemma FailureKeepsTheRest(s: Shared, t: nat)
    requires OneActive(s) && Untouched(s.rebuild) && t < |s.tasks| && (s.tasks[t].Queued? || s.tasks[t].Draining?)
    ensures Enabled(s, Fail(t))
    ensures var s1 := Next(s, Fail(t));
            s1.bytes == s.bytes && s1.buffer == s.buffer && s1.saving == s.saving && Remaining(s1) == s.bytes + s.buffer
  {
    var s1 := Next(s, Fail(t));
    assert s1 == s.(tasks := s.tasks[t := Closing]) && s.tasks[t].Active();
    hide Enabled, Next;
    ActiveTaken(s, t, Closing);
    NothingTakenRemains(s1);
  }

  lemma NothingTakenRemains(s: Shared)
    requires Untouched(s.rebuild) && Taken(s.tasks) == []
    ensures Remaining(s) == s.bytes + s.buffer
  {
    hide Taken;
    assert s.bytes + [] + s.buffer == s.bytes + s.buffer;
  }

  /** A rebuild returns all of history, for every schedule, if and only if no task failed with facts
      before it read the bytes, none held facts when it did, and none took one afterwards. */
  lemma RebuildIsComplete(steps: seq<Step>)
    requires Run(steps).Some? && Run(steps).value.rebuild.Done?
    ensures Run(steps).value.rebuild.result == Run(steps).value.history <==> AllSteps(steps, Harmless)
  {
    RunAccounted(steps);
  }

  predicate FailsEmptyHanded(s: Shared, step: Step) {
    step.Fail? ==> Harmless(s, step)
  }

  lemma {:induction false} UntouchedRun(steps: seq<Step>)
    requires Run(steps).Some? && Untouched(Run(steps).value.rebuild)
    ensures AllSteps(steps, Harmless) <==> AllSteps(steps, FailsEmptyHanded)
  {
    hide Taken;
    if steps != [] { UntouchedRun(steps[..|steps| - 1]); }
  }

  // The wait

  /** The two windows in which the latch field does not guard the running snapshot: a thread has won
      the compare-and-set and not yet stored its latch, and a task has cleared `saving` and not yet
      counted down, so that it would count down the next latch instead of its own. */
  predicate Disciplined(s: Shared, step: Step) {
    && (step.CheckSaving? ==> !s.merger.Won?)
    && (step.CompareAndSet? && !s.saving ==> forall i :: 0 <= i < |s.tasks| ==> !s.tasks[i].Cleared?)
  }

  ghost predicate Guarded(s: Shared) {
    && OneActive(s)
    && (s.saving ==> forall i :: 0 <= i < |s.tasks| ==> !s.tasks[i].Cleared?)
    && (s.saving && !s.merger.Won? ==> s.counts[s.latch] == 1)
    && (s.rebuild.Waiting? ==> s.rebuild.latch == s.latch && !s.merger.Won?)
    && (!Untouched(s.rebuild) || s.rebuild.Passed? ==> !s.saving)
  }

  lemma StepKeepsGuarded(s: Shared, step: Step)
    requires Guarded(s) && Enabled(s, step) && Disciplined(s, step)
    ensures Guarded(Next(s, step))
  {
    StepKeepsOneActive(s, step);
  }

  /** In a guarded state only a failing task can lose facts. */
  lemma GuardedIsHarmless(s: Shared, step: Step)
    requires Guarded(s) && Enabled(s, step)
    ensures Harmless(s, step) <==> FailsEmptyHanded(s, step)
  {
    if step.ReadBytes? {
      assert forall i :: 0 <= i < |s.tasks| && s.tasks[i].Draining? ==> s.tasks[i].Active();
      NothingTaken(s.tasks);
    }
    if step.Drain? { assert s.tasks[step.task].Active(); }
  }

  lemma {:induction false} RunKeepsGuarded(steps: seq<Step>)
    requires Run(steps).Some? && AllSteps(steps, Disciplined)
    ensures Guarded(Run(steps).value)
    ensures AllSteps(steps, Harmless) <==> AllSteps(steps, FailsEmptyHanded)
  {
    if steps != [] {
      hide Enabled, Next, Harmless, FailsEmptyHanded, Disciplined;
      var init := steps[..|steps| - 1];
      RunKeepsGuarded(init);
      StepKeepsGuarded(Run(init).value, steps[|steps| - 1]);
      GuardedIsHarmless(Run(init).value, steps[|steps| - 1]);
    }
  }

  /** When neither window is hit, a rebuild that waited returns everything ever added, unless a
      task failed with facts it had taken. */
  lemma RebuildSeesAllOfHistory(steps: seq<Step>)
    requires Run(steps).Some? && AllSteps(steps, Disciplined) && Run(steps).value.rebuild.Done?
    ensures Run(steps).value.rebuild.result == Run(steps).value.history <==> AllSteps(steps, FailsEmptyHanded)
  {
    RunKeepsGuarded(steps);
    RebuildIsComplete(steps);
  }

  // The windows are real

  const F1 := Fact(1, 1)
  const F2 := Fact(2, 2)

  lemma RunAppend(steps: seq<Step>, s: Shared, step: Step)
    requires Run(steps) == Some(s) && Enabled(s, step)
    ensures Run(steps + [step]) == Some(Next(s, step))
  {
    hide Enabled, Next;
    assert (steps + [step])[..|steps|] == steps;
  }

  /** The first task clears `saving`; the merging thread starts a second snapshot; the first task
      then counts down the second latch. The rebuild does not wait and misses what the second
      task has taken. Initially the buffer limit was passed by F1, then by F2. */
  const LATE_COUNT_DOWN := L1 + L2 + L3 + L4 + L5
  const L1 := [Offer(F1), CompareAndSet, NewLatch, Execute]
  const L2 := [Load(0), Drain(0), Publish(0), ClearSaving(0)]
  const L3 := [Offer(F2), CompareAndSet, NewLatch, Execute]
  const L4 := [CountDown(0), Load(1), Drain(1), CheckSaving]
  const L5 := [Await, ReadBytes, Return]

  /** A rebuild that reads the old latch between the compare-and-set and the new one. */
  const EARLY_CHECK := E1 + E2 + E3
  const E1 := [Offer(F1), CompareAndSet, CheckSaving, Await]
  const E2 := [NewLatch, Execute, Load(0), Drain(0)]
  const E3 := [ReadBytes, Return]

  lemma {:induction false} RunPrefix(steps: seq<Step>, s: Shared, more: seq<Step>)
    requires Run(steps) == Some(s)
    ensures Run(steps + more) == RunFrom(s, more)
    decreases |more|
  {
    hide Enabled, Next;
    if more == [] {
      assert steps + more == steps;
    } else if Enabled(s, more[0]) {
      RunAppend(steps, s, more[0]);
      RunPrefix(steps + [more[0]], Next(s, more[0]), more[1..]);
      assert steps + [more[0]] + more[1..] == steps + more;
    } else {
      Stuck(steps, s, more);
    }
  }

  lemma {:induction false} Stuck(steps: seq<Step>, s: Shared, more: seq<Step>)
    requires Run(steps) == Some(s) && more != [] && !Enabled(s, more[0])
    ensures Run(steps + more) == None
  {
    hide Enabled, Next;
    var all := steps + more;
    if |more| == 1 {
      assert all[..|all| - 1] == steps;
    } else {
      Stuck(steps, s, more[..|more| - 1]);
      assert all[..|all| - 1] == steps + more[..|more| - 1];
    }
  }

  /** The same run, from the front. */
  function RunFrom(s: Shared, steps: seq<Step>): Option<Shared>
    decreases |steps|
  {
    if steps == [] then Some(s)
    else if Enabled(s, steps[0]) then RunFrom(Next(s, steps[0]), steps[1..]) else None
  }

  lemma Extend(steps: seq<Step>, s: Shared, more: seq<Step>, s1: Shared)
    requires Run(steps) == Some(s) && RunFrom(s, more) == Some(s1)
    ensures Run(steps + more) == Some(s1)
  {
    RunPrefix(steps, s, more);
  }

  lemma FourSteps(s: Shared, a: Step, b: Step, c: Step, d: Step)
    requires Enabled(s, a) && Enabled(Next(s, a), b) && Enabled(Next(Next(s, a), b), c)
    requires Enabled(Next(Next(Next(s, a), b), c), d)
    ensures RunFrom(s, [a, b, c, d]) == Some(Next(Next(Next(Next(s, a), b), c), d))
  {
    var s2 := Next(Next(s, a), b);
    assert [c, d][1..] == [d] && [a, b, c, d][1..] == [b, c, d] && [b, c, d][1..] == [c, d];
    assert RunFrom(s2, [c, d]) == RunFrom(Next(s2, c), [d]) == Some(Next(Next(s2, c), d));
  }

  const SNAPSHOT_STARTED := Shared([], [F1], true, 1, [0, 1], Ready, [Queued], NotStarted, [F1])
  const SAVING_CLEARED := Shared([F1], [], false, 1, [0, 1], Ready, [Cleared], NotStarted, [F1])
  const SECOND_STARTED := Shared([F1], [F2], true, 2, [0, 1, 1], Ready, [Cleared, Queued], NotStarted, [F1, F2])
  const SECOND_UNGUARDED := Shared([F1], [], true, 2, [0, 1, 0], Ready, [Finished, Draining([F1], [F2])], NotStarted, [F1, F2])

  lemma StartFirst()
    ensures RunFrom(START, L1) == Some(SNAPSHOT_STARTED)
  {
    assert [0] + [1] == [0, 1] && [] + [F1] == [F1] && [] + [Queued] == [Queued];
    FourSteps(START, Offer(F1), CompareAndSet, NewLatch, Execute);
  }

  lemma FinishFirst()
    ensures RunFrom(SNAPSHOT_STARTED, L2) == Some(SAVING_CLEARED)
  {
    var p1 := Next(SNAPSHOT_STARTED, Load(0));
    assert p1.tasks == [Draining([], [])];
    var p2 := Next(p1, Drain(0));
    assert [] + [F1] == [F1];
    assert p2.tasks == [Draining([], [F1])] && p2.buffer == [];
    var p3 := Next(p2, Publish(0));
    assert p3.tasks == [Closing] && p3.bytes == [F1];
    assert Next(p3, ClearSaving(0)).tasks == [Cleared];
    FourSteps(SNAPSHOT_STARTED, Load(0), Drain(0), Publish(0), ClearSaving(0));
  }

  lemma StartSecond()
    ensures RunFrom(SAVING_CLEARED, L3) == Some(SECOND_STARTED)
  {
    assert [] + [F2] == [F2];
    assert [F1] + [F2] == [F1, F2] && [0, 1] + [1] == [0, 1, 1] && [Cleared] + [Queued] == [Cleared, Queued];
    FourSteps(SAVING_CLEARED, Offer(F2), CompareAndSet, NewLatch, Execute);
  }

  lemma CountDownTheWrongLatch()
    ensures RunFrom(SECOND_STARTED, L4) == Some(SECOND_UNGUARDED.(rebuild := Waiting(2)))
  {
    var p1 := Next(SECOND_STARTED, CountDown(0));
    assert p1.tasks == [Finished, Queued] && p1.counts == [0, 1, 0];
    var p2 := Next(p1, Load(1));
    assert p2.tasks == [Finished, Draining([F1], [])];
    var p3 := Next(p2, Drain(1));
    assert [] + [F2] == [F2];
    assert p3.tasks == [Finished, Draining([F1], [F2])] && p3.buffer == [];
    FourSteps(SECOND_STARTED, CountDown(0), Load(1), Drain(1), CheckSaving);
  }

  lemma LateCountDownMissesFacts()
    ensures Run(LATE_COUNT_DOWN).Some?
    ensures Run(LATE_COUNT_DOWN).value.rebuild == Done([F1]) && Run(LATE_COUNT_DOWN).value.history == [F1, F2]
  {
    assert [] + L1 == L1;
    StartFirst();
    Extend([], START, L1, SNAPSHOT_STARTED);
    FinishFirst();
    Extend(L1, SNAPSHOT_STARTED, L2, SAVING_CLEARED);
    StartSecond();
    Extend(L1 + L2, SAVING_CLEARED, L3, SECOND_STARTED);
    CountDownTheWrongLatch();
    var waiting := SECOND_UNGUARDED.(rebuild := Waiting(2));
    Extend(L1 + L2 + L3, SECOND_STARTED, L4, waiting);
    RebuildWithoutWaiting();
    Extend(L1 + L2 + L3 + L4, waiting, L5, SECOND_UNGUARDED.(rebuild := Done([F1])));
  }

  lemma RebuildWithoutWaiting()
    ensures RunFrom(SECOND_UNGUARDED.(rebuild := Waiting(2)), L5) == Some(SECOND_UNGUARDED.(rebuild := Done([F1])))
  {
    assert L5[1..] == [ReadBytes, Return] && [ReadBytes, Return][1..] == [Return];
  }

  const NOT_WAITED := Shared([], [F1], true, 0, [0], Won, [], Passed, [F1])
  const TAKEN_MEANWHILE := Shared([], [], true, 1, [0, 1], Ready, [Draining([], [F1])], Passed, [F1])

  lemma CheckTooEarly()
    ensures RunFrom(START, E1) == Some(NOT_WAITED)
  {
    assert [] + [F1] == [F1];
    FourSteps(START, Offer(F1), CompareAndSet, CheckSaving, Await);
  }

  lemma SnapshotOvertakes()
    ensures RunFrom(NOT_WAITED, E2) == Some(TAKEN_MEANWHILE)
  {
    var p2 := Next(Next(NOT_WAITED, NewLatch), Execute);
    assert p2.counts == [0, 1] && p2.tasks == [Queued];
    var p3 := Next(p2, Load(0));
    assert p3.tasks == [Draining([], [])];
    assert [] + [F1] == [F1];
    assert Next(p3, Drain(0)).tasks == [Draining([], [F1])] && Next(p3, Drain(0)).buffer == [];
    FourSteps(NOT_WAITED, NewLatch, Execute, Load(0), Drain(0));
  }

  lemma EarlyCheckMissesFacts()
    ensures Run(EARLY_CHECK).Some?
    ensures Run(EARLY_CHECK).value.rebuild == Done([]) && Run(EARLY_CHECK).value.history == [F1]
  {
    assert [] + E1 == E1;
    CheckTooEarly();
    Extend([], START, E1, NOT_WAITED);
    SnapshotOvertakes();
    Extend(E1, NOT_WAITED, E2, TAKEN_MEANWHILE);
    ReturnNothing();
    Extend(E1 + E2, TAKEN_MEANWHILE, E3, TAKEN_MEANWHILE.(rebuild := Done([])));
  }

  lemma ReturnNothing()
    ensures RunFrom(TAKEN_MEANWHILE, E3) == Some(TAKEN_MEANWHILE.(rebuild := Done([])))
  {
    assert E3[1..] == [Return];
  }

  /** The job may be behind the rebuild as well: no task holds anything when the bytes are read,
      and the fact goes while the rebuild is about to drain the buffer. */
  const EARLY_READ := E1 + R2 + R3
  const R2 := [NewLatch, Execute, ReadBytes, Load(0)]
  const R3 := [Drain(0), Return]
  const READ_FIRST := Shared([], [F1], true, 1, [0, 1], Ready, [Draining([], [])], Taking([]), [F1])
  const STOLEN := Shared([], [], true, 1, [0, 1], Ready, [Draining([], [F1])], Done([]), [F1])

  lemma ReadBeforeLoad()
    ensures RunFrom(NOT_WAITED, R2) == Some(READ_FIRST)
  {
    var p2 := Next(Next(NOT_WAITED, NewLatch), Execute);
    assert p2.counts == [0, 1] && p2.tasks == [Queued];
    var p3 := Next(p2, ReadBytes);
    assert Next(p3, Load(0)).tasks == [Draining([], [])];
    FourSteps(NOT_WAITED, NewLatch, Execute, ReadBytes, Load(0));
  }

  lemma DrainMeanwhile()
    ensures RunFrom(READ_FIRST, R3) == Some(STOLEN)
  {
    assert [] + [F1] == [F1];
    var p := Next(READ_FIRST, Drain(0));
    assert p.tasks == [Draining([], [F1])] && p.buffer == [];
    assert R3[1..] == [Return];
  }

  lemma EarlyReadMissesFacts()
    ensures Run(EARLY_READ).Some?
    ensures Run(EARLY_READ).value.rebuild == Done([]) && Run(EARLY_READ).value.history == [F1]
  {
    assert [] + E1 == E1;
    CheckTooEarly();
    Extend([], START, E1, NOT_WAITED);
    ReadBeforeLoad();
    Extend(E1, NOT_WAITED, R2, READ_FIRST);
    DrainMeanwhile();
    Extend(E1 + R2, READ_FIRST, R3, STOLEN);
  }

  function Takes(n: nat): seq<Step> {
    if n == 0 then [Return] else [Take] + Takes(n - 1)
  }

  lemma {:induction false} TakesAll(s: Shared)
    requires s.rebuild.Taking?
    ensures RunFrom(s, Takes(|s.buffer|)) == Some(s.(buffer := [], rebuild := Done(s.rebuild.got + s.buffer)))
    decreases |s.buffer|
  {
    if s.buffer == [] {
      assert s.rebuild.got + s.buffer == s.rebuild.got;
    } else {
      TakesAll(Next(s, Take));
      assert Takes(|s.buffer|)[1..] == Takes(|s.buffer| - 1);
      assert s.rebuild.got + [s.buffer[0]] + s.buffer[1..] == s.rebuild.got + s.buffer;
    }
  }

  /** Whatever let it pass, a rebuild can always finish, and one that runs undisturbed returns all
      of history if and only if no running snapshot holds facts at that moment and none was
      lost before. */
  lemma UndisturbedRebuild(steps: seq<Step>)
    requires Run(steps).Some? && Run(steps).value.rebuild.Passed?
    ensures var s := Run(steps).value;
            var r := RunFrom(s, [ReadBytes] + Takes(|s.buffer|));
            && r.Some? && r.value.rebuild.Done?
            && (r.value.rebuild.result == s.history <==> Taken(s.tasks) == [] && AllSteps(steps, Harmless))
  {
    RunAccounted(steps);
    var s := Run(steps).value;
    TakesAll(Next(s, ReadBytes));
    assert ([ReadBytes] + Takes(|s.buffer|))[1..] == Takes(|s.buffer|);
    if Taken(s.tasks) == [] {
      assert s.bytes + [] == s.bytes;
    } else {
      assert |Remaining(s)| > |s.bytes + s.buffer|;
    }
  }
}
