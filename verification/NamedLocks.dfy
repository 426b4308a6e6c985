/** Concurrent inserts on one node: the lock table, the monitors and the critical section, step by step,
    under every schedule. */
module NamedLocks {

  /** Group names, of which only equality matters. */
  type Group = string

  /** What thread `t` inserts, and into which group. */
  datatype Job<F> = Job(group: Group, fact: F)

  /** How far an insert has come. `Locked` waits for the monitor; from `Inside` to `Leaving` it holds it. */
  datatype PC<F> =
    | Start | Missed | Created(lock: nat) | Locked(lock: nat)
    | Inside(lock: nat) | Empty(lock: nat) | Working(lock: nat, session: seq<F>) | Leaving(lock: nat)
    | Done

  /** The lock table, the owners of the monitors and the session cache. `order` records who entered
      the monitor of a group, in that order. */
  datatype State<F> = State(
    pcs: seq<PC<F>>,
    locks: map<Group, nat>,
    next: nat,
    held: map<nat, nat>,
    sessions: map<Group, seq<F>>,
    order: map<Group, seq<nat>>)

  function OrderOf<F>(s: State<F>, group: Group): seq<nat> {
    if group in s.order then s.order[group] else []
  }

  function SessionOf<F>(s: State<F>, group: Group): seq<F> {
    if group in s.sessions then s.sessions[group] else []
  }

  function Move<F>(s: State<F>, t: nat, pc: PC<F>): State<F>
    requires t < |s.pcs|
  {
    State(s.pcs[t := pc], s.locks, s.next, s.held, s.sessions, s.order)
  }

  /** `getLock`, in its atomic steps: a look into the table, a new lock, `putIfAbsent`. */
  function LockStep<F>(s: State<F>, t: nat, group: Group): State<F>
    requires t < |s.pcs|
  {
    var pc := s.pcs[t];
    if pc.Start? then Move(s, t, if group in s.locks then Locked(s.locks[group]) else Missed)
    else if pc.Missed? then State(s.pcs[t := Created(s.next)], s.locks, s.next + 1, s.held, s.sessions, s.order)
    else if pc.Created? && group in s.locks then Move(s, t, Locked(s.locks[group]))
    else if pc.Created? then State(s.pcs[t := Locked(pc.lock)], s.locks[group := pc.lock], s.next, s.held, s.sessions, s.order)
    else s
  }

  function Enter<F>(s: State<F>, t: nat, group: Group, l: nat): State<F>
    requires t < |s.pcs|
  {
    State(s.pcs[t := Inside(l)], s.locks, s.next, s.held[l := t], s.sessions, s.order[group := OrderOf(s, group) + [t]])
  }

  function PutSession<F>(s: State<F>, t: nat, pc: PC<F>, group: Group, session: seq<F>): State<F>
    requires t < |s.pcs|
  {
    State(s.pcs[t := pc], s.locks, s.next, s.held, s.sessions[group := session], s.order)
  }

  function Leave<F>(s: State<F>, t: nat, l: nat): State<F>
    requires t < |s.pcs|
  {
    State(s.pcs[t := Done], s.locks, s.next, s.held - {l}, s.sessions, s.order)
  }

  /** One step of a thread; a thread that waits for a held monitor, or is done, stays where it is. */
  function Step<F>(jobs: seq<Job<F>>, s: State<F>, t: nat): State<F>
    requires t < |s.pcs| == |jobs|
  {
    var group, pc := jobs[t].group, s.pcs[t];
    if pc.Locked? then (if pc.lock in s.held then s else Enter(s, t, group, pc.lock))
    else if pc.Inside? then Move(s, t, if group in s.sessions then Working(pc.lock, s.sessions[group]) else Empty(pc.lock))
    else if pc.Empty? then PutSession(s, t, Working(pc.lock, []), group, [])
    else if pc.Working? then PutSession(s, t, Leaving(pc.lock), group, pc.session + [jobs[t].fact])
    else if pc.Leaving? then Leave(s, t, pc.lock)
    else LockStep(s, t, group)
  }

  /** Nothing but thread `t` moved. */
  ghost predicate OnlyMoved<F>(s: State<F>, s': State<F>, t: nat)
    requires t < |s.pcs|
  {
    |s'.pcs| == |s.pcs| && s'.pcs == s.pcs[t := s'.pcs[t]]
  }

  lemma StepMoves<F>(jobs: seq<Job<F>>, s: State<F>, t: nat)
    requires t < |s.pcs| == |jobs|
    ensures OnlyMoved(s, Step(jobs, s, t), t)
  {
  }

  function Run<F>(jobs: seq<Job<F>>, s: State<F>, schedule: seq<nat>): (r: State<F>)
    requires |s.pcs| == |jobs| && forall i :: 0 <= i < |schedule| ==> schedule[i] < |jobs|
    ensures |r.pcs| == |jobs|
    decreases |schedule|
  {
    if schedule == [] then s
    else
      StepMoves(jobs, s, schedule[0]);
      Run(jobs, Step(jobs, s, schedule[0]), schedule[1..])
  }

  predicate Initial<F>(s: State<F>) {
    && s.locks == map[] && s.held == map[] && s.sessions == map[] && s.order == map[]
    && forall t :: 0 <= t < |s.pcs| ==> s.pcs[t] == Start
  }

  // What every step keeps

  predicate Owns<F>(pc: PC<F>) {
    pc.Inside? || pc.Empty? || pc.Working? || pc.Leaving?
  }

  /** Inside the critical section and the put still to come. */
  predicate Pending<F>(pc: PC<F>) {
    pc.Inside? || pc.Empty? || pc.Working?
  }

  predicate HasLock<F>(pc: PC<F>) {
    pc.Locked? || Owns(pc)
  }

  predicate Entered<F>(pc: PC<F>) {
    Owns(pc) || pc.Done?
  }

  predicate Threads<F>(jobs: seq<Job<F>>, ts: seq<nat>) {
    forall i :: 0 <= i < |ts| ==> ts[i] < |jobs|
  }

  function Facts<F>(jobs: seq<Job<F>>, ts: seq<nat>): (r: seq<F>)
    requires Threads(jobs, ts)
    ensures |r| == |ts| && forall i :: 0 <= i < |ts| ==> r[i] == jobs[ts[i]].fact
  {
    seq(|ts|, i requires 0 <= i < |ts| => jobs[ts[i]].fact)
  }

  /** No two groups share a lock, and a lock that was made but not yet stored is nobody else's. */
  ghost predicate FreshOK<F>(s: State<F>) {
    && (forall g :: g in s.locks ==> s.locks[g] < s.next)
    && (forall g, h :: g in s.locks && h in s.locks && s.locks[g] == s.locks[h] ==> g == h)
    && (forall t :: 0 <= t < |s.pcs| && s.pcs[t].Created? ==>
          s.pcs[t].lock < s.next && forall g :: g in s.locks ==> s.locks[g] != s.pcs[t].lock)
    && (forall t, u :: 0 <= t < u < |s.pcs| && s.pcs[t].Created? && s.pcs[u].Created? ==> s.pcs[t].lock != s.pcs[u].lock)
  }

  /** Every thread with a lock has the one of its group. */
  ghost predicate LocksOK<F>(jobs: seq<Job<F>>, s: State<F>)
    requires |s.pcs| == |jobs|
  {
    forall t :: 0 <= t < |jobs| && HasLock(s.pcs[t]) ==>
      jobs[t].group in s.locks && s.locks[jobs[t].group] == s.pcs[t].lock
  }

  ghost predicate HeldOK<F>(s: State<F>) {
    && (forall t :: 0 <= t < |s.pcs| && Owns(s.pcs[t]) ==> s.pcs[t].lock in s.held && s.held[s.pcs[t].lock] == t)
    && (forall l :: l in s.held ==> s.held[l] < |s.pcs| && Owns(s.pcs[s.held[l]]) && s.pcs[s.held[l]].lock == l)
  }

  /** A group was entered exactly by its threads that are inside or done, once each. */
  ghost predicate OrderOK<F>(jobs: seq<Job<F>>, s: State<F>, group: Group)
    requires |s.pcs| == |jobs|
  {
    var ts := OrderOf(s, group);
    && Threads(jobs, ts)
    && (forall i :: 0 <= i < |ts| ==> jobs[ts[i]].group == group && Entered(s.pcs[ts[i]]))
    && (forall t :: 0 <= t < |jobs| && jobs[t].group == group && Entered(s.pcs[t]) ==> t in ts)
    && (forall i, j :: 0 <= i < j < |ts| ==> ts[i] != ts[j])
  }

  /** The put of thread `t` is still to come: it was the last to enter, and what it works on is the session. */
  ghost predicate PendingOK<F>(jobs: seq<Job<F>>, s: State<F>, t: nat)
    requires t < |s.pcs| == |jobs|
  {
    var ts := OrderOf(s, jobs[t].group);
    var session := SessionOf(s, jobs[t].group);
    && Threads(jobs, ts) && ts != [] && ts[|ts| - 1] == t && session == Facts(jobs, ts)[..|ts| - 1]
    && (s.pcs[t].Empty? ==> jobs[t].group !in s.sessions)
    && (s.pcs[t].Working? ==> s.pcs[t].session == session)
  }

  ghost predicate Quiet<F>(jobs: seq<Job<F>>, s: State<F>, group: Group)
    requires |s.pcs| == |jobs|
  {
    forall t :: 0 <= t < |jobs| && jobs[t].group == group ==> !Pending(s.pcs[t])
  }

  ghost predicate QuietOK<F>(jobs: seq<Job<F>>, s: State<F>, group: Group)
    requires |s.pcs| == |jobs|
  {
    Threads(jobs, OrderOf(s, group)) && (Quiet(jobs, s, group) ==> SessionOf(s, group) == Facts(jobs, OrderOf(s, group)))
  }

  ghost predicate Inv<F>(jobs: seq<Job<F>>, s: State<F>) {
    && |s.pcs| == |jobs| && FreshOK(s) && LocksOK(jobs, s) && HeldOK(s)
    && (forall g :: OrderOK(jobs, s, g))
    && (forall t :: 0 <= t < |jobs| && Pending(s.pcs[t]) ==> PendingOK(jobs, s, t))
    && (forall g :: QuietOK(jobs, s, g))
  }

  // One part of the invariant at a time: first the steps that leave it alone, then the others

  lemma FreshFrame<F>(s: State<F>, s': State<F>, t: nat)
    requires FreshOK(s) && t < |s.pcs| && OnlyMoved(s, s', t) && s'.locks == s.locks && s'.next >= s.next
    requires s'.pcs[t].Created? ==> s'.pcs[t].lock == s.next < s'.next
    ensures FreshOK(s')
  {
  }

  lemma FreshStored<F>(s: State<F>, t: nat, g: Group)
    requires FreshOK(s) && t < |s.pcs| && s.pcs[t].Created? && g !in s.locks
    ensures FreshOK(Move(s, t, Locked(s.pcs[t].lock)).(locks := s.locks[g := s.pcs[t].lock]))
  {
  }

  lemma {:induction false} FreshKept<F>(jobs: seq<Job<F>>, s: State<F>, t: nat)
    requires t < |jobs| == |s.pcs| && FreshOK(s)
    ensures FreshOK(Step(jobs, s, t))
  {
    hide FreshOK, OnlyMoved;
    StepMoves(jobs, s, t);
    var g := jobs[t].group;
    if s.pcs[t].Created? && g !in s.locks {
      FreshStored(s, t, g);
    } else {
      FreshFrame(s, Step(jobs, s, t), t);
    }
  }

  lemma LocksFrame<F>(jobs: seq<Job<F>>, s: State<F>, s': State<F>, t: nat)
    requires |s.pcs| == |jobs| && LocksOK(jobs, s) && t < |s.pcs| && OnlyMoved(s, s', t)
    requires forall g :: g in s.locks ==> g in s'.locks && s'.locks[g] == s.locks[g]
    requires HasLock(s'.pcs[t]) ==> jobs[t].group in s'.locks && s'.locks[jobs[t].group] == s'.pcs[t].lock
    ensures LocksOK(jobs, s')
  {
  }

  lemma {:induction false} LocksKept<F>(jobs: seq<Job<F>>, s: State<F>, t: nat)
    requires t < |jobs| == |s.pcs| && LocksOK(jobs, s)
    ensures |Step(jobs, s, t).pcs| == |jobs| && LocksOK(jobs, Step(jobs, s, t))
  {
    StepMoves(jobs, s, t);
    assert HasLock(s.pcs[t]) ==> jobs[t].group in s.locks && s.locks[jobs[t].group] == s.pcs[t].lock;
    hide LocksOK, OnlyMoved;
    LocksFrame(jobs, s, Step(jobs, s, t), t);
  }

  lemma HeldFrame<F>(s: State<F>, s': State<F>, t: nat)
    requires HeldOK(s) && t < |s.pcs| && OnlyMoved(s, s', t) && s'.held == s.held
    requires Owns(s'.pcs[t]) == Owns(s.pcs[t]) && (Owns(s.pcs[t]) ==> s'.pcs[t].lock == s.pcs[t].lock)
    ensures HeldOK(s')
  {
  }

  lemma HeldEntered<F>(s: State<F>, s': State<F>, t: nat, l: nat)
    requires HeldOK(s) && t < |s.pcs| && OnlyMoved(s, s', t) && l !in s.held && !Owns(s.pcs[t])
    requires s'.pcs[t] == Inside(l) && s'.held == s.held[l := t]
    ensures HeldOK(s')
  {
  }

  lemma HeldLeft<F>(s: State<F>, s': State<F>, t: nat)
    requires HeldOK(s) && t < |s.pcs| && OnlyMoved(s, s', t) && Owns(s.pcs[t])
    requires s'.pcs[t] == Done && s'.held == s.held - {s.pcs[t].lock}
    ensures HeldOK(s')
  {
  }

  /** What one step does to the monitors. */
  lemma StepOnMonitors<F>(jobs: seq<Job<F>>, s: State<F>, t: nat)
    requires t < |jobs| == |s.pcs|
    ensures var s' := Step(jobs, s, t);
            var pc := s.pcs[t];
            && |s'.pcs| == |jobs|
            && (pc.Locked? && pc.lock !in s.held ==> s'.pcs[t] == Inside(pc.lock) && s'.held == s.held[pc.lock := t])
            && (pc.Leaving? ==> s'.pcs[t] == Done && s'.held == s.held - {pc.lock})
            && (!pc.Leaving? && !(pc.Locked? && pc.lock !in s.held) ==>
                  s'.held == s.held && Owns(s'.pcs[t]) == Owns(pc) && (Owns(pc) ==> s'.pcs[t].lock == pc.lock))
  {
    var s' := Step(jobs, s, t);
    var pc := s.pcs[t];
    if pc.Locked? {
      assert pc.lock !in s.held ==> s' == Enter(s, t, jobs[t].group, pc.lock);
    } else if pc.Leaving? {
      assert s' == Leave(s, t, pc.lock);
    } else if Owns(pc) {
      assert s'.held == s.held && Owns(s'.pcs[t]);
    } else {
      assert s' == LockStep(s, t, jobs[t].group) && s'.held == s.held;
    }
  }

  lemma {:induction false} HeldKept<F>(jobs: seq<Job<F>>, s: State<F>, t: nat)
    requires t < |jobs| == |s.pcs| && HeldOK(s)
    ensures HeldOK(Step(jobs, s, t))
  {
    hide HeldOK, OnlyMoved, Step;
    StepMoves(jobs, s, t);
    StepOnMonitors(jobs, s, t);
    var s' := Step(jobs, s, t);
    if s.pcs[t].Locked? && s.pcs[t].lock !in s.held {
      HeldEntered(s, s', t, s.pcs[t].lock);
    } else if s.pcs[t].Leaving? {
      HeldLeft(s, s', t);
    } else {
      HeldFrame(s, s', t);
    }
  }

  lemma OrderFrame<F>(jobs: seq<Job<F>>, s: State<F>, s': State<F>, t: nat, g: Group)
    requires t < |jobs| == |s.pcs| && OrderOK(jobs, s, g) && OnlyMoved(s, s', t) && OrderOf(s', g) == OrderOf(s, g)
    requires jobs[t].group == g ==> Entered(s'.pcs[t]) == Entered(s.pcs[t])
    ensures OrderOK(jobs, s', g)
  {
  }

  lemma OrderEntered<F>(jobs: seq<Job<F>>, s: State<F>, s': State<F>, t: nat, g: Group)
    requires t < |jobs| == |s.pcs| && OrderOK(jobs, s, g) && OnlyMoved(s, s', t) && OrderOf(s', g) == OrderOf(s, g) + [t]
    requires jobs[t].group == g && !Entered(s.pcs[t]) && Entered(s'.pcs[t])
    ensures OrderOK(jobs, s', g)
  {
    var ts, ts' := OrderOf(s, g), OrderOf(s', g);
    forall u | 0 <= u < |jobs| && jobs[u].group == g && Entered(s'.pcs[u]) ensures u in ts' {
      if u == t { assert ts'[|ts|] == t; } else { assert u in ts; }
    }
  }

  lemma {:induction false} OrderKept<F>(jobs: seq<Job<F>>, s: State<F>, t: nat, g: Group)
    requires t < |jobs| == |s.pcs| && OrderOK(jobs, s, g)
    ensures |Step(jobs, s, t).pcs| == |jobs| && OrderOK(jobs, Step(jobs, s, t), g)
  {
    StepMoves(jobs, s, t);
    hide OrderOK, OnlyMoved;
    var s' := Step(jobs, s, t);
    if s.pcs[t].Locked? && s.pcs[t].lock !in s.held && jobs[t].group == g {
      OrderEntered(jobs, s, s', t, g);
    } else {
      OrderFrame(jobs, s, s', t, g);
    }
  }

  /** Two threads of one group are never inside together. */
  lemma OneInside<F>(jobs: seq<Job<F>>, s: State<F>, t: nat, u: nat)
    requires t < |jobs| == |s.pcs| && u < |jobs| && LocksOK(jobs, s) && HeldOK(s) && jobs[t].group == jobs[u].group
    requires Owns(s.pcs[t]) && Owns(s.pcs[u])
    ensures t == u
  {
  }

  /** While the monitor of a group is free, no put of the group is to come. */
  lemma FreeMeansQuiet<F>(jobs: seq<Job<F>>, s: State<F>, g: Group)
    requires |s.pcs| == |jobs| && LocksOK(jobs, s) && HeldOK(s) && g in s.locks && s.locks[g] !in s.held
    ensures Quiet(jobs, s, g)
  {
  }

  lemma PendingFrame<F>(jobs: seq<Job<F>>, s: State<F>, s': State<F>, u: nat)
    requires u < |jobs| == |s.pcs| == |s'.pcs| && PendingOK(jobs, s, u) && s'.pcs[u] == s.pcs[u]
    requires OrderOf(s', jobs[u].group) == OrderOf(s, jobs[u].group)
    requires SessionOf(s', jobs[u].group) == SessionOf(s, jobs[u].group)
    requires jobs[u].group in s'.sessions ==> jobs[u].group in s.sessions
    ensures PendingOK(jobs, s', u)
  {
  }

  lemma PendingEntered<F>(jobs: seq<Job<F>>, s: State<F>, t: nat, l: nat)
    requires t < |jobs| == |s.pcs| && QuietOK(jobs, s, jobs[t].group) && Quiet(jobs, s, jobs[t].group)
    ensures PendingOK(jobs, Enter(s, t, jobs[t].group, l), t)
  {
    var ts := OrderOf(s, jobs[t].group);
    assert Facts(jobs, ts + [t])[..|ts|] == Facts(jobs, ts);
  }

  lemma PendingInside<F>(jobs: seq<Job<F>>, s: State<F>, t: nat)
    requires t < |jobs| == |s.pcs| && PendingOK(jobs, s, t) && (s.pcs[t].Inside? || s.pcs[t].Empty?)
    ensures |Step(jobs, s, t).pcs| == |jobs| && PendingOK(jobs, Step(jobs, s, t), t)
  {
  }

  /** The steps of others that change the session or the order of a group need its monitor. */
  lemma OthersLeaveAlone<F>(jobs: seq<Job<F>>, s: State<F>, t: nat, u: nat)
    requires t < |jobs| == |s.pcs| && u < |jobs| && t != u && LocksOK(jobs, s) && HeldOK(s) && Pending(s.pcs[u])
    ensures var s', g := Step(jobs, s, t), jobs[u].group;
            && OrderOf(s', g) == OrderOf(s, g) && SessionOf(s', g) == SessionOf(s, g)
            && (g in s'.sessions ==> g in s.sessions)
  {
    if jobs[t].group == jobs[u].group && Owns(s.pcs[t]) { OneInside(jobs, s, t, u); }
    if jobs[t].group == jobs[u].group && s.pcs[t].Locked? { assert s.pcs[t].lock == s.pcs[u].lock && s.pcs[u].lock in s.held; }
    hide LocksOK, HeldOK;
  }

  lemma {:induction false} PendingKept<F>(jobs: seq<Job<F>>, s: State<F>, t: nat, u: nat)
    requires t < |jobs| == |s.pcs| && u < |jobs| && LocksOK(jobs, s) && HeldOK(s)
    requires Pending(s.pcs[u]) ==> PendingOK(jobs, s, u)
    requires QuietOK(jobs, s, jobs[u].group)
    requires |Step(jobs, s, t).pcs| == |jobs| && Pending(Step(jobs, s, t).pcs[u])
    ensures PendingOK(jobs, Step(jobs, s, t), u)
  {
    hide PendingOK, QuietOK, HeldOK, LocksOK, Quiet, Facts, Step;
    StepPending(jobs, s, u);
    if u != t {
      Elsewhere(jobs, s, t, u);
      OthersLeaveAlone(jobs, s, t, u);
      PendingFrame(jobs, s, Step(jobs, s, t), u);
    } else if s.pcs[t].Locked? {
      PendingFirst(jobs, s, t);
    } else {
      PendingInside(jobs, s, t);
    }
  }

  lemma StepPending<F>(jobs: seq<Job<F>>, s: State<F>, t: nat)
    requires t < |jobs| == |s.pcs|
    ensures |Step(jobs, s, t).pcs| == |jobs|
    ensures Pending(Step(jobs, s, t).pcs[t]) ==>
              s.pcs[t].Inside? || s.pcs[t].Empty? || (s.pcs[t].Locked? && s.pcs[t].lock !in s.held)
  {
    var pc := s.pcs[t];
    if !pc.Locked? && !Owns(pc) { assert Step(jobs, s, t) == LockStep(s, t, jobs[t].group); }
  }

  lemma PendingFirst<F>(jobs: seq<Job<F>>, s: State<F>, t: nat)
    requires t < |jobs| == |s.pcs| && LocksOK(jobs, s) && HeldOK(s) && QuietOK(jobs, s, jobs[t].group)
    requires s.pcs[t].Locked? && s.pcs[t].lock !in s.held
    ensures |Step(jobs, s, t).pcs| == |jobs| && PendingOK(jobs, Step(jobs, s, t), t)
  {
    hide PendingOK, QuietOK, HeldOK, Quiet, Enter;
    assert jobs[t].group in s.locks && s.locks[jobs[t].group] == s.pcs[t].lock;
    assert Step(jobs, s, t) == Enter(s, t, jobs[t].group, s.pcs[t].lock);
    hide LocksOK, Step;
    FreeMeansQuiet(jobs, s, jobs[t].group);
    PendingEntered(jobs, s, t, s.pcs[t].lock);
    StepPending(jobs, s, t);
  }

  lemma Elsewhere<F>(jobs: seq<Job<F>>, s: State<F>, t: nat, u: nat)
    requires t < |jobs| == |s.pcs| && u < |jobs| && u != t
    ensures |Step(jobs, s, t).pcs| == |jobs| && Step(jobs, s, t).pcs[u] == s.pcs[u]
  {
    hide Step;
    StepMoves(jobs, s, t);
  }

  lemma QuietFrame<F>(jobs: seq<Job<F>>, s: State<F>, s': State<F>, t: nat, g: Group)
    requires t < |jobs| == |s.pcs| && QuietOK(jobs, s, g) && OnlyMoved(s, s', t)
    requires OrderOf(s', g) == OrderOf(s, g) && SessionOf(s', g) == SessionOf(s, g)
    requires jobs[t].group == g ==> !Pending(s.pcs[t])
    ensures QuietOK(jobs, s', g)
  {
  }

  lemma QuietPut<F>(jobs: seq<Job<F>>, s: State<F>, s': State<F>, t: nat)
    requires t < |jobs| == |s.pcs| == |s'.pcs| && PendingOK(jobs, s, t) && s.pcs[t].Working?
    requires OrderOf(s', jobs[t].group) == OrderOf(s, jobs[t].group)
    requires SessionOf(s', jobs[t].group) == s.pcs[t].session + [jobs[t].fact]
    ensures QuietOK(jobs, s', jobs[t].group)
  {
    var ts := OrderOf(s, jobs[t].group);
    assert Facts(jobs, ts) == Facts(jobs, ts)[..|ts| - 1] + [jobs[t].fact];
  }

  /** What one step does to the session and the order of a group. */
  lemma StepOnGroup<F>(jobs: seq<Job<F>>, s: State<F>, t: nat, g: Group)
    requires t < |jobs| == |s.pcs|
    ensures var s' := Step(jobs, s, t);
            && |s'.pcs| == |jobs|
            && (jobs[t].group == g && s.pcs[t].Working? ==>
                  OrderOf(s', g) == OrderOf(s, g) && SessionOf(s', g) == s.pcs[t].session + [jobs[t].fact])
            && (jobs[t].group != g || !(s.pcs[t].Working? || Pending(s'.pcs[t])) ==>
                  OrderOf(s', g) == OrderOf(s, g) && SessionOf(s', g) == SessionOf(s, g))
            && (Pending(s.pcs[t]) ==> s.pcs[t].Working? || Pending(s'.pcs[t]))
  {
    var s' := Step(jobs, s, t);
    var pc := s.pcs[t];
    if pc.Working? {
      assert s' == PutSession(s, t, Leaving(pc.lock), jobs[t].group, pc.session + [jobs[t].fact]);
    } else if pc.Empty? {
      assert s' == PutSession(s, t, Working(pc.lock, []), jobs[t].group, []);
    } else if pc.Inside? {
      assert s'.order == s.order && s'.sessions == s.sessions;
    } else if pc.Leaving? {
      assert s' == Leave(s, t, pc.lock);
    } else if pc.Locked? {
    } else {
      assert s' == LockStep(s, t, jobs[t].group);
      assert s'.order == s.order && s'.sessions == s.sessions;
    }
  }

  lemma QuietKept<F>(jobs: seq<Job<F>>, s: State<F>, t: nat, g: Group)
    requires t < |jobs| == |s.pcs| && QuietOK(jobs, s, g) && (Pending(s.pcs[t]) ==> PendingOK(jobs, s, t))
    requires |Step(jobs, s, t).pcs| == |jobs| && Threads(jobs, OrderOf(Step(jobs, s, t), g))
    ensures QuietOK(jobs, Step(jobs, s, t), g)
  {
    hide PendingOK, Step;
    var s' := Step(jobs, s, t);
    StepMoves(jobs, s, t);
    StepOnGroup(jobs, s, t, g);
    if jobs[t].group == g && s.pcs[t].Working? {
      QuietPut(jobs, s, s', t);
    } else if jobs[t].group == g && Pending(s'.pcs[t]) {
      assert !Quiet(jobs, s', g);
    } else {
      QuietFrame(jobs, s, s', t, g);
    }
  }

  lemma {:induction false} StepKeepsInv<F>(jobs: seq<Job<F>>, s: State<F>, t: nat)
    requires Inv(jobs, s) && t < |jobs|
    ensures Inv(jobs, Step(jobs, s, t))
  {
    hide FreshOK, LocksOK, HeldOK, PendingOK, QuietOK, Step;
    var s' := Step(jobs, s, t);
    FreshKept(jobs, s, t);
    LocksKept(jobs, s, t);
    HeldKept(jobs, s, t);
    forall g ensures OrderOK(jobs, s', g) && QuietOK(jobs, s', g) {
      assert OrderOK(jobs, s, g);
      OrderKept(jobs, s, t, g);
      QuietKept(jobs, s, t, g);
    }
    forall u | 0 <= u < |jobs| && Pending(s'.pcs[u]) ensures PendingOK(jobs, s', u) {
      assert QuietOK(jobs, s, jobs[u].group);
      PendingKept(jobs, s, t, u);
    }
  }

  // Results

  lemma InitialInv<F>(jobs: seq<Job<F>>, s: State<F>)
    requires |s.pcs| == |jobs| && Initial(s)
    ensures Inv(jobs, s)
  {
  }

  lemma {:induction false} RunKeepsInv<F>(jobs: seq<Job<F>>, s: State<F>, schedule: seq<nat>)
    requires Inv(jobs, s) && forall i :: 0 <= i < |schedule| ==> schedule[i] < |jobs|
    ensures Inv(jobs, Run(jobs, s, schedule))
    decreases |schedule|
  {
    hide Inv, Step;
    InvThreads(jobs, s);
    if schedule != [] {
      StepKeepsInv(jobs, s, schedule[0]);
      RunKeepsInv(jobs, Step(jobs, s, schedule[0]), schedule[1..]);
    }
  }

  lemma InvThreads<F>(jobs: seq<Job<F>>, s: State<F>)
    requires Inv(jobs, s)
    ensures |s.pcs| == |jobs|
  {
  }

  /** In every reachable state, whatever the schedule: threads have the same lock exactly when they
      insert into the same group, and at most one thread of a group is inside. */
  lemma {:induction false} OneLockPerGroup<F>(jobs: seq<Job<F>>, s: State<F>, schedule: seq<nat>, t: nat, u: nat)
    requires |s.pcs| == |jobs| && Initial(s) && forall i :: 0 <= i < |schedule| ==> schedule[i] < |jobs|
    requires t < |jobs| && u < |jobs|
    ensures var r := Run(jobs, s, schedule);
            && (HasLock(r.pcs[t]) && HasLock(r.pcs[u]) ==> (r.pcs[t].lock == r.pcs[u].lock <==> jobs[t].group == jobs[u].group))
            && (Owns(r.pcs[t]) && Owns(r.pcs[u]) && jobs[t].group == jobs[u].group ==> t == u)
  {
    InitialInv(jobs, s);
    RunKeepsInv(jobs, s, schedule);
    var r := Run(jobs, s, schedule);
    hide OrderOK, PendingOK, QuietOK;
    if Owns(r.pcs[t]) && Owns(r.pcs[u]) && jobs[t].group == jobs[u].group { OneInside(jobs, r, t, u); }
  }

  /** When all inserts are done, the session of a group holds the facts of its threads, each once, in
      the order in which they entered the monitor: no insert is lost. */
  lemma SessionIsSequential<F>(jobs: seq<Job<F>>, s: State<F>, schedule: seq<nat>, g: Group) returns (ts: seq<nat>)
    requires |s.pcs| == |jobs| && Initial(s) && forall i :: 0 <= i < |schedule| ==> schedule[i] < |jobs|
    requires forall t :: 0 <= t < |jobs| && jobs[t].group == g ==> Run(jobs, s, schedule).pcs[t].Done?
    ensures ts == OrderOf(Run(jobs, s, schedule), g) && Threads(jobs, ts)
    ensures SessionOf(Run(jobs, s, schedule), g) == Facts(jobs, ts)
    ensures forall t :: 0 <= t < |jobs| ==> (t in ts <==> jobs[t].group == g)
    ensures forall i, j :: 0 <= i < j < |ts| ==> ts[i] != ts[j]
  {
    InitialInv(jobs, s);
    RunKeepsInv(jobs, s, schedule);
    var r := Run(jobs, s, schedule);
    hide FreshOK, LocksOK, HeldOK, PendingOK, Run;
    ts := OrderOf(r, g);
    assert OrderOK(jobs, r, g) && QuietOK(jobs, r, g) && Quiet(jobs, r, g);
  }

  lemma OrderGrows<F>(jobs: seq<Job<F>>, s: State<F>, t: nat, g: Group)
    requires t < |jobs| == |s.pcs|
    ensures OrderOf(s, g) <= OrderOf(Step(jobs, s, t), g)
  {
  }

  lemma {:induction false} RunOrderGrows<F>(jobs: seq<Job<F>>, s: State<F>, schedule: seq<nat>, g: Group)
    requires |s.pcs| == |jobs| && forall i :: 0 <= i < |schedule| ==> schedule[i] < |jobs|
    ensures OrderOf(s, g) <= OrderOf(Run(jobs, s, schedule), g)
    decreases |schedule|
  {
    hide Step, OrderOf;
    if schedule != [] {
      StepMoves(jobs, s, schedule[0]);
      OrderGrows(jobs, s, schedule[0], g);
      RunOrderGrows(jobs, Step(jobs, s, schedule[0]), schedule[1..], g);
    }
  }

  /** An insert that was done before another one of the group entered comes before it for good. */
  lemma {:induction false} RealTimeOrder<F>(jobs: seq<Job<F>>, s: State<F>, schedule: seq<nat>, t: nat, u: nat) returns (i: nat)
    requires Inv(jobs, s) && forall k :: 0 <= k < |schedule| ==> schedule[k] < |jobs|
    requires t < |jobs| && u < |jobs| && jobs[t].group == jobs[u].group && s.pcs[t].Done? && !Entered(s.pcs[u])
    ensures var ts := OrderOf(Run(jobs, s, schedule), jobs[t].group);
            && i < |ts| && ts[i] == t
            && forall j :: 0 <= j < |ts| && ts[j] == u ==> i < j
  {
    hide FreshOK, LocksOK, HeldOK, PendingOK, QuietOK, Run;
    var g := jobs[t].group;
    assert OrderOK(jobs, s, g);
    RunOrderGrows(jobs, s, schedule, g);
    var before := OrderOf(s, g);
    i :| 0 <= i < |before| && before[i] == t;
    assert forall j :: 0 <= j < |before| ==> before[j] != u;
  }

  /** Unless all inserts are done, some thread can move. */
  lemma NoDeadlock<F>(jobs: seq<Job<F>>, s: State<F>, t: nat) returns (u: nat)
    requires Inv(jobs, s) && t < |jobs| && !s.pcs[t].Done?
    ensures u < |jobs| && Step(jobs, s, u) != s
  {
    hide FreshOK, LocksOK, PendingOK, QuietOK, OrderOK;
    u := t;
    if s.pcs[t].Locked? && s.pcs[t].lock in s.held { u := s.held[s.pcs[t].lock]; }
    assert Step(jobs, s, u).pcs[u] != s.pcs[u];
  }
}
