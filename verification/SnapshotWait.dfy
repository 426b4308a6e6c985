/** Whether a rebuild that waits for a snapshot ever goes on. The latch it awaits is the object that the
    field pointed at when it looked; the task counts down the one that the field points at when it
    ends. So the wait can be for a latch that nobody will open. */
module SnapshotWait {
  import opened Options
  import opened RulesEngine
  import opened SnapshotLatch

  /** The rebuild waits for a closed latch that is no longer the current one. */
  predicate Stranded(s: Shared) {
    s.rebuild.Waiting? && s.rebuild.latch < |s.counts| && s.counts[s.rebuild.latch] > 0 && s.rebuild.latch != s.latch
  }

  /** Some schedule finishes the rebuild. */
  ghost predicate CanFinish(s: Shared) {
    exists more :: FinishesBy(s, more)
  }

  predicate FinishesBy(s: Shared, more: seq<Step>) {
    RunFrom(s, more).Some? && RunFrom(s, more).value.rebuild.Done?
  }

  lemma {:induction false} RunFromJoin(s: Shared, a: seq<Step>, b: seq<Step>)
    requires RunFrom(s, a).Some?
    ensures RunFrom(s, a + b) == RunFrom(RunFrom(s, a).value, b)
    decreases |a|
  {
    hide Enabled, Next;
    if a == [] {
      assert a + b == b;
    } else {
      RunFromJoin(Next(s, a[0]), a[1..], b);
      assert (a + b)[0] == a[0] && (a + b)[1..] == a[1..] + b;
    }
  }

  lemma FinishesAfter(s: Shared, a: seq<Step>, s1: Shared)
    requires RunFrom(s, a) == Some(s1) && CanFinish(s1)
    ensures CanFinish(s)
  {
    hide RunFrom;
    var more :| FinishesBy(s1, more);
    RunFromJoin(s, a, more);
    assert FinishesBy(s, a + more);
  }

  lemma OneStep(s: Shared, step: Step)
    requires Enabled(s, step)
    ensures RunFrom(s, [step]) == Some(Next(s, step))
  {
    assert [step][1..] == [];
  }

  // Who opens the current latch

  predicate Unfinished(s: Shared, t: nat) {
    t < |s.tasks| && !s.tasks[t].Finished?
  }

  /** A closed current latch has a task to open it, or will have one. */
  ghost predicate LatchHasTask(s: Shared) {
    && s.latch < |s.counts| && (forall i :: 0 <= i < |s.counts| ==> s.counts[i] <= 1)
    && (s.counts[s.latch] > 0 ==> s.merger.Armed? || exists t :: Unfinished(s, t))
    && (s.rebuild.Waiting? ==> s.rebuild.latch < |s.counts|)
  }

  lemma StepKeepsTask(s: Shared, step: Step)
    requires LatchHasTask(s) && Enabled(s, step)
    ensures LatchHasTask(Next(s, step))
  {
    var s1 := Next(s, step);
    if s1.counts[s1.latch] > 0 && !s1.merger.Armed? {
      if step.Execute? {
        assert Unfinished(s1, |s.tasks|);
      } else {
        var t :| Unfinished(s, t);
        assert Unfinished(s1, t);
      }
    }
  }

  lemma {:induction false} RunKeepsTask(steps: seq<Step>)
    requires Run(steps).Some?
    ensures LatchHasTask(Run(steps).value)
  {
    if steps != [] {
      hide LatchHasTask, Enabled, Next;
      RunKeepsTask(steps[..|steps| - 1]);
      StepKeepsTask(Run(steps[..|steps| - 1]).value, steps[|steps| - 1]);
    }
  }

  function Rank(t: Task): nat {
    match t
    case Queued => 4
    case Draining(_, _) => 3
    case Closing => 2
    case Cleared => 1
    case Finished => 0
  }

  /** What an unfinished task can do next. */
  function Onward(s: Shared, t: nat): Step
    requires t < |s.tasks|
  {
    match s.tasks[t]
    case Queued => Load(t)
    case Draining(_, _) => Publish(t)
    case Closing => ClearSaving(t)
    case _ => CountDown(t)
  }

  lemma TaskGoesOn(s: Shared, t: nat)
    requires LatchHasTask(s) && Unfinished(s, t)
    ensures Enabled(s, Onward(s, t))
    ensures var s1 := Next(s, Onward(s, t));
      && s1.latch == s.latch && s1.rebuild == s.rebuild && t < |s1.tasks| && Rank(s1.tasks[t]) < Rank(s.tasks[t])
      && LatchHasTask(s1)
      && (s1.tasks[t].Finished? ==> s1.counts[s1.latch] == 0)
  {
    StepKeepsTask(s, Onward(s, t));
  }

  /** Any unfinished task opens the current latch in the end. */
  lemma {:induction false} TaskOpensLatch(s: Shared, t: nat) returns (more: seq<Step>, s1: Shared)
    requires LatchHasTask(s) && Unfinished(s, t)
    ensures RunFrom(s, more) == Some(s1) && s1.latch == s.latch && s1.rebuild == s.rebuild
    ensures LatchHasTask(s1) && s1.counts[s1.latch] == 0
    decreases Rank(s.tasks[t])
  {
    hide Enabled, Next, LatchHasTask, RunFrom;
    TaskGoesOn(s, t);
    var step := Onward(s, t);
    var s0 := Next(s, step);
    OneStep(s, step);
    if s0.tasks[t].Finished? {
      more, s1 := [step], s0;
      LatchIsThere(s1);
    } else {
      var rest;
      rest, s1 := TaskOpensLatch(s0, t);
      RunFromJoin(s, [step], rest);
      more := [step] + rest;
    }
  }

  lemma LatchIsThere(s: Shared)
    requires LatchHasTask(s)
    ensures s.latch < |s.counts|
  {
  }

  lemma LatchOpens(s: Shared) returns (more: seq<Step>, s1: Shared)
    requires LatchHasTask(s)
    ensures RunFrom(s, more) == Some(s1) && s1.latch == s.latch && s1.rebuild == s.rebuild
    ensures LatchHasTask(s1) && s1.counts[s1.latch] == 0
  {
    if s.counts[s.latch] == 0 {
      more, s1 := [], s;
    } else if s.merger.Armed? {
      StepKeepsTask(s, Execute);
      OneStep(s, Execute);
      var s0, rest := Next(s, Execute), [];
      rest, s1 := TaskOpensLatch(s0, |s.tasks|);
      RunFromJoin(s, [Execute], rest);
      more := [Execute] + rest;
    } else {
      var t :| Unfinished(s, t);
      more, s1 := TaskOpensLatch(s, t);
    }
  }

  // The ways to the end

  lemma TakingFinishes(s: Shared)
    requires s.rebuild.Taking?
    ensures CanFinish(s)
  {
    TakesAll(s);
    assert FinishesBy(s, Takes(|s.buffer|));
  }

  lemma PassedFinishes(s: Shared)
    requires s.rebuild.Passed?
    ensures CanFinish(s)
  {
    OneStep(s, ReadBytes);
    TakingFinishes(Next(s, ReadBytes));
    FinishesAfter(s, [ReadBytes], Next(s, ReadBytes));
  }

  lemma WaitingFinishes(s: Shared)
    requires LatchHasTask(s) && s.rebuild.Waiting? && !Stranded(s)
    ensures CanFinish(s)
  {
    var more, s1 := [], s;
    if s.counts[s.rebuild.latch] > 0 { more, s1 := LatchOpens(s); } else { assert RunFrom(s, []) == Some(s); }
    OneStep(s1, Await);
    PassedFinishes(Next(s1, Await));
    FinishesAfter(s1, [Await], Next(s1, Await));
    FinishesAfter(s, more, s1);
  }

  lemma LookingFinishes(s: Shared)
    requires LatchHasTask(s) && s.rebuild.NotStarted?
    ensures CanFinish(s)
  {
    OneStep(s, CheckSaving);
    var s1 := Next(s, CheckSaving);
    if s1.rebuild.Passed? {
      PassedFinishes(s1);
    } else {
      StepKeepsTask(s, CheckSaving);
      WaitingFinishes(s1);
    }
    FinishesAfter(s, [CheckSaving], s1);
  }

  /** A stranded rebuild stays so, whatever happens. */
  lemma {:induction false} StrandedForGood(s: Shared, more: seq<Step>)
    requires Stranded(s) && s.latch < |s.counts| && RunFrom(s, more).Some?
    ensures Stranded(RunFrom(s, more).value)
    decreases |more|
  {
    if more != [] { StrandedForGood(Next(s, more[0]), more[1..]); }
  }

  lemma StrandedCannotFinish(s: Shared)
    requires Stranded(s) && s.latch < |s.counts|
    ensures !CanFinish(s)
  {
    forall more ensures !FinishesBy(s, more) {
      if RunFrom(s, more).Some? { StrandedForGood(s, more); }
    }
  }

  /** From every reachable state some schedule finishes the rebuild, unless it waits for a closed latch
      that is no longer the current one; then none does. */
  lemma RebuildCanFinish(steps: seq<Step>)
    requires Run(steps).Some?
    ensures CanFinish(Run(steps).value) <==> !Stranded(Run(steps).value)
  {
    RunKeepsTask(steps);
    var s := Run(steps).value;
    hide Run, Enabled, Next, RunFrom, Stranded, LatchHasTask;
    match s.rebuild
    case NotStarted => LookingFinishes(s); NotWaiting(s);
    case Waiting(_) =>
      if Stranded(s) {
        LatchIsThere(s);
        StrandedCannotFinish(s);
      } else {
        WaitingFinishes(s);
      }
    case Passed => PassedFinishes(s); NotWaiting(s);
    case Taking(_) => TakingFinishes(s); NotWaiting(s);
    case Done(_) => AlreadyDone(s); NotWaiting(s);
  }

  lemma NotWaiting(s: Shared)
    ensures Stranded(s) ==> s.rebuild.Waiting?
  {
  }

  lemma AlreadyDone(s: Shared)
    requires s.rebuild.Done?
    ensures CanFinish(s)
  {
    assert FinishesBy(s, []);
  }

  /** If the compare-and-set and the new latch are one step, and so are the end of saving and the count
      down, a rebuild can always finish. */
  lemma DisciplinedRebuildFinishes(steps: seq<Step>)
    requires Run(steps).Some? && AllSteps(steps, Disciplined)
    ensures CanFinish(Run(steps).value)
  {
    hide Run, AllSteps, CanFinish;
    RunKeepsGuarded(steps);
    RebuildCanFinish(steps);
  }

  // The code leaves it stranded

  const STRANDED := S1 + S2 + S3
  const S1 := [CompareAndSet, NewLatch, Execute, Load(0)]
  const S2 := [Publish(0), ClearSaving(0), CompareAndSet, CheckSaving]
  const S3 := [NewLatch]

  /** The first task has ended and not yet counted down; the second snapshot has won the compare-and-set;
      the rebuild looks, and awaits the latch of the first; then the second one replaces it. The first
      task opens the latch of the second, and the rebuild waits for ever. */
  lemma RebuildWaitsForEver()
    ensures Run(STRANDED).Some? && !CanFinish(Run(STRANDED).value)
  {
    var a := Shared([], [], true, 1, [0, 1], Ready, [Draining([], [])], NotStarted, []);
    var b := Shared([], [], true, 1, [0, 1], Won, [Cleared], Waiting(1), []);
    FirstTask(a);
    SecondSnapshot(a, b);
    assert [] + S1 == S1;
    Extend([], START, S1, a);
    Extend(S1, a, S2, b);
    OneStep(b, NewLatch);
    Extend(S1 + S2, b, S3, Next(b, NewLatch));
    hide Run, RunFrom;
    RebuildCanFinish(STRANDED);
  }

  lemma FirstTask(a: Shared)
    requires a == Shared([], [], true, 1, [0, 1], Ready, [Draining([], [])], NotStarted, [])
    ensures RunFrom(START, S1) == Some(a)
  {
    var p := Next(Next(START, CompareAndSet), NewLatch);
    assert p.counts == [0, 1];
    assert Next(p, Execute).tasks == [Queued];
    assert Next(Next(p, Execute), Load(0)) == a;
    FourSteps(START, CompareAndSet, NewLatch, Execute, Load(0));
  }

  lemma SecondSnapshot(a: Shared, b: Shared)
    requires a == Shared([], [], true, 1, [0, 1], Ready, [Draining([], [])], NotStarted, [])
    requires b == Shared([], [], true, 1, [0, 1], Won, [Cleared], Waiting(1), [])
    ensures RunFrom(a, S2) == Some(b)
  {
    var p := Next(a, Publish(0));
    assert p.tasks == [Closing] && p.bytes == [];
    var q := Next(p, ClearSaving(0));
    assert q.tasks == [Cleared];
    assert Next(Next(q, CompareAndSet), CheckSaving) == b;
    FourSteps(a, Publish(0), ClearSaving(0), CompareAndSet, CheckSaving);
  }
}
