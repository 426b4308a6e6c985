/** The queue of deferred tasks with bounded concurrency. A task may call back at once or later, more
    than once, and may throw; what it does when it is started comes with it. */
module BoundedQueue {
  import opened Options

  /** What a task reports: a result or an error. */
  datatype Outcome<E, R> = Ok(result: R) | Err(error: E)

  /** What a task does while it is started: it calls back for itself or for tasks started before it,
      and then returns or throws. Later calls are events of their own. */
  datatype Task<E, R> = Task(calls: seq<(nat, Outcome<E, R>)>, throws: Option<E>)

  datatype Slot<E, R> = Deferred(task: Task<E, R>) | Running | Null

  /** A number, or what is left of it after an abort. */
  datatype Count = Num(n: nat) | NaN

  datatype Note<E, R> = Failed(error: E) | Finished(data: map<nat, R>)

  datatype Size = Finite(n: nat) | Infinity

  predicate Below(active: Count, size: Size) {
    active.Num? && (size.Infinity? || active.n < size.n)
  }

  function Runners<E, R>(tasks: seq<Slot<E, R>>): nat {
    if tasks == [] then 0 else Runners(tasks[1..]) + if tasks[0].Running? then 1 else 0
  }

  lemma {:induction false} RunnersUpdate<E, R>(tasks: seq<Slot<E, R>>, i: nat, slot: Slot<E, R>)
    requires i < |tasks|
    ensures Runners(tasks[i := slot])
         == Runners(tasks) - (if tasks[i].Running? then 1 else 0) + (if slot.Running? then 1 else 0)
  {
    if i > 0 {
      RunnersUpdate(tasks[1..], i - 1, slot);
      assert tasks[i := slot][1..] == tasks[1..][i - 1 := slot];
    } else {
      assert tasks[i := slot][1..] == tasks[1..];
    }
  }

  lemma {:induction false} RunnersJoin<E, R>(tasks: seq<Slot<E, R>>, slot: Slot<E, R>)
    ensures Runners(tasks + [slot]) == Runners(tasks) + if slot.Running? then 1 else 0
  {
    if tasks == [] {
      assert tasks + [slot] == [slot];
    } else {
      RunnersJoin(tasks[1..], slot);
      assert (tasks + [slot])[1..] == tasks[1..] + [slot];
    }
  }

  lemma {:induction false} SomeRunner<E, R>(tasks: seq<Slot<E, R>>, i: nat)
    requires i < |tasks| && tasks[i].Running?
    ensures Runners(tasks) > 0
  {
    if i > 0 { SomeRunner(tasks[1..], i - 1); }
  }

  lemma {:induction false} NoRunner<E, R>(tasks: seq<Slot<E, R>>)
    ensures Runners(tasks) == 0 ==> forall i :: 0 <= i < |tasks| ==> !tasks[i].Running?
  {
    if tasks != [] { NoRunner(tasks[1..]); }
  }

  /** Task `i` calls back for itself, reports no error to anybody, and still throws. */
  predicate Spoils<E, R>(task: Task<E, R>, i: nat) {
    && task.throws.Some?
    && (forall k :: 0 <= k < |task.calls| ==> task.calls[k].1.Ok?)
    && (exists k :: 0 <= k < |task.calls| && task.calls[k].0 == i)
  }

  // The history of a queue: what was reported to it, in order

  datatype Event<E, R> = Called(task: nat, outcome: Outcome<E, R>) | Threw(task: nat, error: E) | Aborted(error: E)

  /** The results so far and the first error. */
  datatype Tally<E, R> = Tally(data: map<nat, R>, error: Option<E>)

  /** The first report of a task counts; so does a throw of a task that has not reported; and nothing
      counts after an error. */
  function Tell<E, R>(t: Tally<E, R>, event: Event<E, R>): Tally<E, R> {
    if t.error.Some? then t
    else match event
      case Called(j, outcome) =>
        if j in t.data then t
        else if outcome.Ok? then Tally(t.data[j := outcome.result], None)
        else Tally(t.data, Some(outcome.error))
      case Threw(j, e) => if j in t.data then t else Tally(t.data, Some(e))
      case Aborted(e) => Tally(t.data, Some(e))
  }

  function TellAll<E, R>(log: seq<Event<E, R>>): Tally<E, R> {
    if log == [] then Tally(map[], None) else Tell(TellAll(log[..|log| - 1]), log[|log| - 1])
  }

  lemma TellOneMore<E, R>(log: seq<Event<E, R>>, event: Event<E, R>)
    ensures TellAll(log + [event]) == Tell(TellAll(log), event)
  {
    assert (log + [event])[..|log|] == log;
  }

  /** The calls of task `i` while it is started; callbacks of later tasks do not exist yet. */
  function Calls<E, R>(calls: seq<(nat, Outcome<E, R>)>, i: nat): seq<Event<E, R>> {
    if calls == [] then []
    else
      var (j, outcome) := calls[|calls| - 1];
      Calls(calls[..|calls| - 1], i) + if j <= i then [Called(j, outcome)] else []
  }

  // The same from the history as a whole

  /** The first report of a task. */
  predicate FirstCall<E(==), R(==)>(log: seq<Event<E, R>>, j: nat, k: nat) {
    k < |log| && log[k].Called? && log[k].task == j && NotCalled(log[..k], j)
  }

  predicate NotCalled<E, R>(log: seq<Event<E, R>>, j: nat) {
    forall i :: 0 <= i < |log| ==> !(log[i].Called? && log[i].task == j)
  }

  /** An event that ends everything, if nothing before it has: an abort, an error as the first report of
      a task, or a throw of a task that has not reported. */
  predicate Fatal<E, R>(log: seq<Event<E, R>>, k: nat)
    requires k < |log|
  {
    match log[k]
    case Called(j, outcome) => outcome.Err? && NotCalled(log[..k], j)
    case Threw(j, _) => NotCalled(log[..k], j)
    case Aborted(_) => true
  }

  function ErrorOf<E, R>(event: Event<E, R>): Option<E> {
    match event
    case Called(_, outcome) => if outcome.Err? then Some(outcome.error) else None
    case Threw(_, e) => Some(e)
    case Aborted(e) => Some(e)
  }

  predicate NothingFatal<E, R>(log: seq<Event<E, R>>) {
    forall k: nat :: k < |log| ==> !Fatal(log, k)
  }

  lemma FatalBefore<E, R>(log: seq<Event<E, R>>, n: nat, k: nat)
    requires k < n <= |log|
    ensures Fatal(log[..n], k) == Fatal(log, k)
  {
    assert log[..n][..k] == log[..k];
  }

  /** Without a fatal event there is no error, and every task that has reported has its first result. */
  lemma {:induction false} TallyWithoutError<E, R>(log: seq<Event<E, R>>)
    requires NothingFatal(log)
    ensures TellAll(log).error == None
    ensures forall j: nat :: j in TellAll(log).data <==> !NotCalled(log, j)
    ensures forall j: nat, k: nat :: FirstCall(log, j, k) ==> log[k].outcome.Ok? && j in TellAll(log).data && TellAll(log).data[j] == log[k].outcome.result
  {
    if log != [] {
      var n := |log| - 1;
      var init := log[..n];
      forall k: nat | k < n ensures !Fatal(init, k) { FatalBefore(log, n, k); }
      TallyWithoutError(init);
      assert !Fatal(log, n);
      forall j: nat ensures NotCalled(log, j) <==> NotCalled(init, j) && !(log[n].Called? && log[n].task == j) {
        assert forall i :: 0 <= i < n ==> init[i] == log[i];
      }
      forall j: nat, k: nat | FirstCall(log, j, k)
        ensures log[k].outcome.Ok? && j in TellAll(log).data && TellAll(log).data[j] == log[k].outcome.result
      {
        if k < n {
          assert init[..k] == log[..k] && FirstCall(init, j, k);
        } else {
          assert !Fatal(log, n);
        }
      }
    }
  }

  /** The error is that of the first fatal event, and nothing counts after it. */
  lemma {:induction false} TallyAfterError<E, R>(log: seq<Event<E, R>>, k: nat)
    requires k < |log| && Fatal(log, k) && NothingFatal(log[..k])
    ensures TellAll(log) == Tally(TellAll(log[..k]).data, ErrorOf(log[k])) && ErrorOf(log[k]).Some?
  {
    var n := |log| - 1;
    if k < n {
      FatalBefore(log, n, k);
      assert log[..n][..k] == log[..k];
      TallyAfterError(log[..n], k);
    } else {
      TallyWithoutError(log[..n]);
    }
  }

  /** What a task calls while it is started is heard call by call, but for tasks that are not there yet. */
  lemma {:induction false} CallsJoin<E, R>(a: seq<(nat, Outcome<E, R>)>, b: seq<(nat, Outcome<E, R>)>, i: nat)
    ensures Calls(a + b, i) == Calls(a, i) + Calls(b, i)
  {
    if b == [] {
      assert a + b == a;
    } else {
      CallsJoin(a, b[..|b| - 1], i);
      assert (a + b)[..|a + b| - 1] == a + b[..|b| - 1];
    }
  }

  lemma CallsOne<E, R>(j: nat, outcome: Outcome<E, R>, i: nat)
    ensures Calls([(j, outcome)], i) == if j <= i then [Called(j, outcome)] else []
  {
    assert [(j, outcome)][..0] == [];
  }

  class Queue<E, R> {
    const size: Size
    var call: bool                     // has await been called?
    var error: Option<E>
    var tasks: seq<Slot<E, R>>
    var data: map<nat, R>
    var waiting: Count
    var active: Count
    var ended: nat
    var start: bool                    // inside a synchronous task callback?
    var notified: seq<Note<E, R>>      // the calls of the await callback

    ghost var order: seq<nat>          // task numbers in the order in which they were started
    ghost var spoiled: bool            // has a task called back for itself and then thrown?
    ghost var late: bool               // has abort come after the answer?
    ghost var log: seq<Event<E, R>>    // everything reported so far

    constructor (size: Size)
      requires size.Finite? ==> size.n >= 1
      ensures Valid() && Told() && log == [] && this.size == size && tasks == [] && !call && error.None? && notified == [] && !spoiled && !late
    {
      this.size, call, error, tasks, data := size, false, None, [], map[];
      waiting, active, ended, start := Num(0), Num(0), 0, false;
      notified, order, spoiled, late, log := [], [], false, false, [];
    }

    ghost predicate Counts()
      reads this
      requires error.None?
    {
      && waiting.Num? && active.Num? && waiting.n + active.n + ended == |tasks|
      && active.n == Runners(tasks) && (size.Finite? ==> active.n <= size.n)
      && |order| == active.n + ended && (forall k :: 0 <= k < |order| ==> order[k] == k)
      && (forall k :: 0 <= k < |tasks| ==> (tasks[k].Deferred? <==> |order| <= k))
      && (forall k: nat :: k in data <==> k < |tasks| && tasks[k].Null?)
    }

    /** While no error has come up: the await callback has run exactly if it was set and all tasks have
        ended, and then once, with a result for every task. */
    ghost predicate NotedWell()
      reads this
      requires error.None? && Counts()
    {
      notified == if call && waiting.n == 0 && active.n == 0 then [Finished(data)] else []
    }

    /** A task that called back for itself and then threw has left the queue inside its callback, and
        there is something waiting that will never be started. */
    ghost predicate Stuck()
      reads this
    {
      error.None? && spoiled && waiting.Num? && waiting.n > 0
    }

    /** A stuck queue answers only an await that finds no task running, with what results there are. */
    ghost predicate NotedStuck()
      reads this
      requires error.None? && Counts()
    {
      notified == [] || (call && active.n == 0 && notified == [Finished(data)])
    }

    ghost predicate NotedError()
      reads this
      requires error.Some?
    {
      notified == if call then [Failed(error.value)] else []
    }

    /** An abort after the answer: the callback runs again. */
    ghost predicate NotedTwice()
      reads this
      requires error.Some?
    {
      call && |notified| == 2 && notified[0].Finished? && notified[1] == Failed(error.value)
    }

    /** What holds at every moment, also while tasks are being started. */
    ghost predicate Inv()
      reads this
    {
      && (size.Finite? ==> size.n >= 1) && (!call ==> notified == [])
      && (error.None? ==> !late && Counts() && if Stuck() then NotedStuck() else NotedWell())
      && (error.Some? ==> waiting.NaN? && active.NaN? && (forall k :: 0 <= k < |tasks| ==> tasks[k].Null?))
      && (error.Some? ==> if late then NotedTwice() else NotedError())
    }

    /** Results and error are what the history says. */
    ghost predicate Told()
      reads `error, `data, `log, `late, `notified
    {
      && error == TellAll(log).error && (error.None? ==> data == TellAll(log).data)
      && (late ==> error.Some? && |notified| == 2 && notified[0] == Finished(TellAll(log).data))
    }

    /** What holds between calls: unless a task has spoiled the queue, tasks wait only for a free place. */
    ghost predicate Valid()
      reads this
    {
      && Inv()
      && (error.None? ==> (start <==> spoiled) && (!spoiled && waiting.n > 0 ==> size.Finite? && active.n == size.n))
    }

    method MaybeNotify()
      modifies `notified
      ensures notified == old(notified) +
        if (active.NaN? || active.n == 0) && call
        then [if error.Some? then Failed(error.value) else Finished(data)] else []
      ensures !late && old(Told()) ==> Told()
    {
      if (active.NaN? || active.n == 0) && call {
        notified := notified + [if error.Some? then Failed(error.value) else Finished(data)];
      }
    }

    /** Results, started tasks and the first error are never taken back. */
    twostate predicate Grows()
      reads this
    {
      && call == old(call) && late == old(late) && (old(spoiled) ==> spoiled) && |tasks| == |old(tasks)|
      && (old(error).Some? ==> error == old(error) && notified == old(notified))
      && (error.None? ==> forall k :: k in old(data) ==> k in data && data[k] == old(data)[k])
      && old(order) <= order && old(log) <= log
      && (old(Stuck()) && error.None? ==> Stuck() && order == old(order))
    }

    /** `abort(q, e)` */
    method Fail(e: E)
      requires error.None? && (size.Finite? ==> size.n >= 1)
      requires if late then call && |notified| == 1 && notified[0].Finished? else notified == []
      modifies `error, `data, `waiting, `active, `tasks, `notified
      ensures Inv() && error == Some(e) && |tasks| == |old(tasks)|
      ensures notified == old(notified) + if call then [Failed(e)] else []
    {
      var i := |tasks|;
      error := Some(e);
      data := map[];
      waiting := NaN;
      while i > 0
        invariant 0 <= i <= |tasks| == |old(tasks)| && error == Some(e) && waiting == NaN && notified == old(notified)
        invariant forall k :: i <= k < |tasks| ==> tasks[k].Null?
      {
        i := i - 1;
        if !tasks[i].Null? { tasks := tasks[i := Null]; }
      }
      active := NaN;
      MaybeNotify();
    }

    method Poke()
      requires Inv() && Told() && error.None? && (!start ==> !spoiled)
      modifies this
      ensures Inv() && Told() && Grows()
      ensures old(start) ==> unchanged(this)
      ensures !old(start) ==> Valid()
      ensures !old(start) && old(NextSpoils()) ==>
        error.None? && spoiled && |order| == |old(order)| + 1 && tasks[|order| - 1].Null?
      decreases if start then 0 else 5
    {
      hide Told;
      if !start {
        var threw := Start();
        if threw.Some? { Catch(threw.value); }
      }
    }

    /** The handler around the starting loop. */
    method Catch(e: E)
      requires Inv() && Told() && start && |order| > 0 && (error.None? ==> (spoiled <==> tasks[|order| - 1].Null?))
      modifies `log, `error, `data, `waiting, `active, `tasks, `notified
      ensures Inv() && Told() && |tasks| == |old(tasks)| && log == old(log) + [Threw(|order| - 1, e)]
      ensures error.None? ==> spoiled && tasks == old(tasks) && data == old(data)
      ensures old(error).Some? || spoiled ==> error == old(error) && notified == old(notified)
    {
      hide TellAll;
      TellOneMore(log, Threw(|order| - 1, e));
      log := log + [Threw(|order| - 1, e)];
      if active.Num? && ended + active.n > 0 {
        var last := ended + active.n - 1;
        if !tasks[last].Null? {
          SomeRunner(tasks, last);
          Fail(e);
        }
      }
    }

    /** Takes the first deferred task out of the waiting ones. */
    method Take() returns (i: nat, task: Task<E, R>)
      requires Inv() && error.None? && !spoiled && waiting.n > 0 && Below(active, size)
      modifies `tasks, `waiting, `active, `order
      ensures Inv() && |tasks| == |old(tasks)| && i == |old(order)| < |tasks| && order == old(order) + [i]
      ensures waiting == Num(old(waiting).n - 1)
      ensures old(tasks)[i].Deferred? && task == old(tasks)[i].task
    {
      i := ended + active.n;
      task := tasks[i].task;
      RunnersUpdate(tasks, i, Running);
      tasks := tasks[i := Running];
      waiting, active := Num(waiting.n - 1), Num(active.n + 1);
      order := order + [i];
    }

    /** The calls task `i` makes while it is started. */
    method Perform(i: nat, task: Task<E, R>)
      requires Inv() && Told() && start && error.None? && |order| == i + 1 && i < |tasks|
      modifies this
      ensures Inv() && Told() && Grows() && start && spoiled == old(spoiled) && order == old(order)
      ensures log == old(log) + Calls(task.calls, i)
      ensures error.None? ==> waiting == old(waiting)
      ensures (forall k :: 0 <= k < |task.calls| ==> task.calls[k].1.Ok?) ==> error.None?
      ensures error.None? ==> forall k :: 0 <= k < |task.calls| && task.calls[k].0 <= i ==> task.calls[k].0 in data
      decreases 2
    {
      hide Inv, Valid, Told;
      for k := 0 to |task.calls|
        invariant Inv() && Told() && Grows() && start && spoiled == old(spoiled) && order == old(order)
        invariant log == old(log) + Calls(task.calls[..k], i)
        invariant error.None? ==> waiting == old(waiting)
        invariant (forall m :: 0 <= m < k ==> task.calls[m].1.Ok?) ==> error.None?
        invariant error.None? ==> forall m :: 0 <= m < k && task.calls[m].0 <= i ==> task.calls[m].0 in data
      {
        var (j, outcome) := task.calls[k];
        assert task.calls[..k + 1][..k] == task.calls[..k];
        if j <= i { End(j, outcome); }
      }
      assert task.calls[..|task.calls|] == task.calls;
    }

    /** One turn of the loop below. */
    method StartOne() returns (threw: Option<E>)
      requires Inv() && Told() && start && !spoiled && error.None? && waiting.n > 0 && Below(active, size)
      modifies this
      ensures Inv() && Told() && Grows() && start
      ensures threw == old(tasks[|order|].task.throws)
      ensures log == old(log) + Calls(old(tasks[|order|].task.calls), |old(order)|)
      ensures threw.None? ==> !spoiled && (error.None? ==> waiting == Num(old(waiting).n - 1))
      ensures threw.Some? ==> |order| > 0 && (error.None? ==> (spoiled <==> tasks[|order| - 1].Null?))
      ensures old(NextSpoils()) ==> error.None? && spoiled && threw.Some? && |order| == |old(order)| + 1
      decreases 3
    {
      hide Told;
      var i, task := Take();
      Perform(i, task);
      if task.throws.Some? {
        if error.None? && tasks[i].Null? { spoiled := true; }
      }
      threw := task.throws;
    }

    /** The next task to be started, if there is a place for one, spoils the queue. */
    ghost predicate NextSpoils()
      reads this
      requires Inv() && error.None?
    {
      waiting.n > 0 && Below(active, size) && Spoils(tasks[|order|].task, |order|)
    }

    lemma NothingToStart()
      requires Inv() && !start && !spoiled && !(waiting.Num? && waiting.n > 0 && Below(active, size))
      ensures Valid()
    {
    }

    lemma AfterAnError()
      requires Inv()
      ensures waiting.Num? <==> error.None?
      ensures error.None? && NextSpoils() ==> waiting.n > 0 && Below(active, size)
    {
    }

    /** Starts tasks while there is a free place; stops in the middle when a task throws. */
    method Start() returns (threw: Option<E>)
      requires Inv() && Told() && !start && !spoiled && error.None?
      modifies this
      ensures Inv() && Told() && Grows() && (threw.Some? <==> start)
      ensures threw.None? ==> Valid() && !spoiled
      ensures threw.Some? ==> |order| > 0 && (error.None? ==> (spoiled <==> tasks[|order| - 1].Null?))
      ensures old(NextSpoils()) ==> error.None? && spoiled && |order| == |old(order)| + 1
      decreases 4
    {
      hide Inv, Valid, NextSpoils, Counts, Told;
      ghost var spoils := NextSpoils();
      assert Inv();
      while true
        invariant Inv() && Told() && Grows() && !spoiled
        invariant spoils ==> error.None? && NextSpoils() && |order| == |old(order)|
        decreases if waiting.Num? then waiting.n + 1 else 0
      {
        AfterAnError();
        SetStart(waiting.Num? && waiting.n > 0 && Below(active, size));
        if !start {
          NothingToStart();
          return None;
        }
        threw := StartOne();
        if threw.Some? { return; }
        AfterAnError();
      }
    }

    method SetStart(b: bool)
      requires Inv() && Told()
      modifies `start
      ensures Inv() && Told() && start == b && (error.None? ==> NextSpoils() == old(NextSpoils()))
    {
      start := b;
    }

    /** Takes the result of task `j` in. */
    method Close(j: nat, result: R)
      requires Inv() && error.None? && j < |tasks| && tasks[j].Running?
      modifies `active, `ended, `tasks, `data
      ensures Counts() && data == old(data)[j := result] && tasks == old(tasks)[j := Null] && j !in old(data)
      ensures notified == [] && !late
    {
      SomeRunner(tasks, j);
      RunnersUpdate(tasks, j, Null);
      active, ended := Num(active.n - 1), ended + 1;
      tasks := tasks[j := Null];
      data := data[j := result];
    }

    /** Takes the error of task `j` in. */
    method Reject(j: nat, e: E)
      requires Inv() && error.None? && j < |tasks| && tasks[j].Running?
      modifies `active, `ended, `tasks, `data, `error, `waiting, `notified
      ensures Inv() && error == Some(e) && |tasks| == |old(tasks)| && j !in old(data)
    {
      SomeRunner(tasks, j);
      active, ended := Num(active.n - 1), ended + 1;
      tasks := tasks[j := Null];
      Fail(e);
    }

    /** Nothing but the history has changed. */
    twostate predicate OnlyTold()
      reads this
    {
      && call == old(call) && error == old(error) && tasks == old(tasks) && data == old(data)
      && waiting == old(waiting) && active == old(active) && ended == old(ended) && start == old(start)
      && notified == old(notified) && order == old(order) && spoiled == old(spoiled) && late == old(late)
    }

    /** Takes a report of a task that has ended before. */
    method ReportAgain(j: nat, outcome: Outcome<E, R>)
      requires Inv() && Told() && j < |tasks| && tasks[j].Null?
      modifies `log
      ensures Inv() && Told() && log == old(log) + [Called(j, outcome)]
    {
      hide TellAll;
      TellOneMore(log, Called(j, outcome));
      log := log + [Called(j, outcome)];
    }

    /** Takes the first report of a task. */
    method Report(j: nat, outcome: Outcome<E, R>)
      requires Inv() && Told() && error.None? && j < |tasks| && tasks[j].Running?
      modifies `active, `ended, `tasks, `data, `error, `waiting, `notified, `log
      ensures Told() && log == old(log) + [Called(j, outcome)]
      ensures |tasks| == |old(tasks)|
      ensures if outcome.Err? then Inv() && error == Some(outcome.error) else
        Counts() && error.None? && waiting == old(waiting) && data == old(data)[j := outcome.result] && j !in old(data)
        && notified == old(notified) == []
    {
      hide TellAll;
      TellOneMore(log, Called(j, outcome));
      log := log + [Called(j, outcome)];
      if outcome.Err? {
        Reject(j, outcome.error);
      } else {
        Close(j, outcome.result);
      }
    }

    /** The callback of task `j`. While a task is in its slot, no error has come up. */
    method End(j: nat, outcome: Outcome<E, R>)
      requires Inv() && Told() && j < |tasks| && (error.None? ==> j < |order|)
      requires !start ==> Valid()
      modifies this
      ensures Inv() && Told() && Grows()
      ensures old(log) + [Called(j, outcome)] <= log
      ensures old(tasks[j]).Null? ==> OnlyTold()
      ensures error.None? ==> j in data
      ensures old(start) ==> start && spoiled == old(spoiled) && order == old(order) && (error.None? ==> waiting == old(waiting))
      ensures old(start) ==> log == old(log) + [Called(j, outcome)]
      ensures old(start) && outcome.Ok? ==> error == old(error)
      ensures !old(start) ==> Valid()
      decreases if start then 1 else 6
    {
      hide Told;
      if tasks[j].Null? {
        ReportAgain(j, outcome);
        return;
      }
      Report(j, outcome);
      if outcome.Ok? {
        if waiting.n > 0 { Poke(); } else { MaybeNotify(); }
      }
    }

    // Calls from outside

    /** `defer`; a queue that is already awaited takes no more tasks. */
    method Defer(task: Task<E, R>) returns (ok: bool)
      requires Valid() && Told()
      modifies this
      ensures Valid() && Told() && ok == !old(call) && (!ok ==> unchanged(this))
      ensures ok && old(error).None? ==> |tasks| == |old(tasks)| + 1
      ensures ok && old(error).Some? ==> unchanged(this)
      ensures old(Stuck()) ==> Stuck() && order == old(order)
      ensures call == old(call) && (ok && old(error).None? && old(start) ==>
        error.None? && spoiled && order == old(order) && tasks == old(tasks) + [Deferred(task)] && data == old(data))
      ensures ok && old(error).None? && !old(start) && old(waiting) == Num(0) && Below(old(active), size) && Spoils(task, |old(tasks)|) ==>
        error.None? && spoiled && |order| == |tasks| && tasks[|tasks| - 1].Null?
    {
      if call { return false; }
      ok := true;
      if error.Some? { return; }
      RunnersJoin(tasks, Deferred(task));
      waiting := Num(waiting.n + 1);
      tasks := tasks + [Deferred(task)];
      Poke();
    }

    /** `await` and `awaitAll` */
    method Await() returns (ok: bool)
      requires Valid() && Told()
      modifies `call, `notified
      ensures Valid() && Told() && ok == !old(call) && call && (!ok ==> unchanged(this))
      ensures ok ==> notified == if error.Some? then [Failed(error.value)] else if active.n == 0 then [Finished(data)] else []
    {
      if call { return false; }
      call := true;
      MaybeNotify();
      ok := true;
    }

    /** `abort` */
    method Abort(e: E)
      requires Valid() && Told()
      modifies this
      ensures Valid() && Told() && (old(error).Some? ==> unchanged(this))
      ensures old(error).None? ==> error == Some(e) && log == old(log) + [Aborted(e)]
      ensures old(error).None? ==> late == (old(notified) != []) && notified == old(notified) + if call then [Failed(e)] else []
    {
      if error.None? {
        TellOneMore(log, Aborted(e));
        log := log + [Aborted(e)];
        late := notified != [];
        Fail(e);
      }
    }

    // What the invariant means

    /** Between calls: the callback runs at most once if and only if no abort came after the answer, and
        then a second time with the error of that abort. Without that, on a queue that is not stuck,
        it has run exactly when it was set and an error came up or no task is left, and it got the
        first error, or the first result of every task, as the history has them. */
    lemma AwaitedExactlyOnce()
      requires Valid() && Told()
      ensures |notified| <= 1 <==> !late
      ensures late ==> call && notified == [Finished(TellAll(log).data), Failed(TellAll(log).error.value)]
      ensures !call ==> notified == []
      ensures call && !Stuck() ==> (notified != [] <==> error.Some? || forall k :: 0 <= k < |tasks| ==> tasks[k].Null?)
      ensures !late && notified != [] && error.Some? ==> notified == [Failed(TellAll(log).error.value)]
      ensures !late && notified != [] && error.None? ==> notified == [Finished(TellAll(log).data)]
      ensures notified != [] && error.None? && !Stuck() ==> forall k: nat :: k in data <==> k < |tasks|
    {
      if error.None? {
        NoRunner(tasks);
        if forall k :: 0 <= k < |tasks| ==> tasks[k].Null? { AllNull(tasks); }
        assert |order| < |tasks| ==> tasks[|order|].Deferred?;
      }
    }

    /** Exactly what a stuck queue fails to do: when no task is running, the await callback has all
        results if and only if the queue is not stuck; and while tasks are running it has nothing. */
    lemma AnsweredUnlessStuck()
      requires Valid() && Told() && error.None? && call
      ensures Runners(tasks) == 0 ==>
        (notified == [Finished(data)] && (forall k: nat :: k in data <==> k < |tasks|) <==> !Stuck())
      ensures Runners(tasks) > 0 ==> notified == []
    {
      NoRunner(tasks);
      if Stuck() {
        assert tasks[|order|].Deferred?;
        assert |order| !in data;
      }
    }

    /** Tasks start in the order in which they were deferred; and while a place is free, a task waits if
        and only if the queue is stuck. */
    lemma NeverIdle()
      requires Valid() && error.None?
      ensures forall k :: 0 <= k < |order| ==> order[k] == k
      ensures size.Finite? ==> Runners(tasks) <= size.n
      ensures (size.Finite? ==> Runners(tasks) < size.n) ==>
        ((exists k :: 0 <= k < |tasks| && tasks[k].Deferred?) <==> Stuck())
    {
      if Stuck() { assert tasks[|order|].Deferred?; }
    }
  }

  lemma {:induction false} AllNull<E, R>(tasks: seq<Slot<E, R>>)
    requires forall k :: 0 <= k < |tasks| ==> tasks[k].Null?
    ensures Runners(tasks) == 0
  {
    if tasks != [] { AllNull(tasks[1..]); }
  }

  /** A task that reports its result and then throws leaves the queue inside a task callback for good:
      the next task is never started, and a later await is answered at once, without its result. */
  method SpoiledQueue<E, R>(r: R, e: E) returns (q: Queue<E, R>)
    ensures fresh(q) && q.Valid() && q.spoiled && |q.tasks| == 2 && q.order == [0] && q.tasks[1].Deferred?
    ensures q.error.None? && q.notified == [Finished(q.data)] && 1 !in q.data
  {
    q := new Queue(Finite(1));
    var first: Task<E, R> := Task([(0, Ok(r))], Some(e));
    assert first.calls[0].0 == 0;
    var _ := q.Defer(first);
    var _ := q.Defer(Task([], None));
    assert q.tasks[0].Null? && q.tasks[1].Deferred? && q.tasks[1..][1..] == [];
    assert Runners(q.tasks) == 0;
    var _ := q.Await();
  }

  /** An abort that comes after the answer runs the callback a second time. */
  method LateAbort<E, R>(e: E) returns (q: Queue<E, R>)
    ensures fresh(q) && q.Valid() && q.late && q.notified == [Finished(map[]), Failed(e)]
  {
    q := new Queue(Finite(1));
    var _ := q.Await();
    assert q.data == map[];
    q.Abort(e);
  }
}
