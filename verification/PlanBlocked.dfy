/**
 What an operation makes of a plan: its outcome is determined, and BLOCKED and READY
 can be trusted in it under exact conditions on what it hands to the resolve.
 */
module PlanBlocked {
  import opened Wrappers
  import opened PlanModel
  import opened PlanManager

  /** The tasks as an operation leaves them before statuses are resolved. */
  function Handed(s: PlanState, op: Op): seq<Task> {
    match op
    case Add(t) => if t.id in Ids(s.tasks) then s.tasks else s.tasks + [t]
    case Start(id) =>
      if Startable(s.tasks, id) then Marked(s.tasks, Find(s.tasks, id).value, Running) else s.tasks
    case Complete(id, clean) =>
      var at := Find(s.tasks, id);
      if at.Some? then Marked(s.tasks, at.value, if clean then Done else Incomplete) else s.tasks
    case Fail(id) =>
      var at := Find(s.tasks, id);
      if at.Some? then Marked(s.tasks, at.value, TaskStatus.Failed) else s.tasks
  }

  lemma MarkPropagated(ts: seq<Task>, i: nat, s: TaskStatus)
    requires Settled(ts) && i < |ts| && !Unstarted(s)
    ensures Propagated(Marked(ts, i, s))
  {
    var us := Marked(ts, i, s);
    forall k: nat, j: nat | Edge(us, k, j) && Unstarted(us[k].status) && us[j].status.Blocked?
      ensures us[k].status.Blocked?
    {
      assert Edge(ts, k, j) && SettledAt(ts, k);
    }
  }

  lemma AddPropagated(ts: seq<Task>, t: Task)
    requires Settled(ts) && t.id !in Ids(ts)
    ensures Propagated(ts + [t])
  {
    var us := ts + [t];
    var n := |ts|;
    forall k: nat, j: nat | Edge(us, k, j) && Unstarted(us[k].status) && us[j].status.Blocked? && Eligible(us, j)
      ensures us[k].status.Blocked?
    {
      if k < n && j < n {
        assert Edge(ts, k, j) && SettledAt(ts, k);
      } else if k < n {
        assert t.id in ts[k].dependsOn && HasMissing(ts, k) && SettledAt(ts, k);
      } else if j < n {
        EligibleWithout(ts, t, j);
        assert SettledAt(ts, j);
      }
    }
  }

  /** A task that the new one does not release was eligible without it. */
  lemma EligibleWithout(ts: seq<Task>, t: Task, j: nat)
    requires j < |ts| && Eligible(ts + [t], j)
    ensures Eligible(ts, j) || Finished(t.status)
  {
    var us := ts + [t];
    if !Edge(us, j, |ts|) {
      forall d | d in ts[j].dependsOn ensures d in Ids(ts) {
        assert d in Ids(us);
        var m :| 0 <= m < |us| && us[m].id == d;
        assert Edge(us, j, m);
      }
      forall m: nat | Edge(ts, j, m) ensures Finished(ts[m].status) { assert Edge(us, j, m); }
    }
  }

  /** Resolving a settled list would change nothing. */
  lemma SettledResolved(ts: seq<Task>)
    requires Settled(ts)
    ensures Resolved(ts, ts) && Propagated(ts)
  {
    JustifiedSelf(ts);
    forall j: nat | j < |ts| && ts[j].status.Blocked? ensures !Eligible(ts, j) { assert SettledAt(ts, j); }
  }

  /** Every operation ends as if it resolved what it was given, on a list that has one result only. */
  lemma StepResolves(s: PlanState, op: Op, s': PlanState)
    requires Consistent(s) && Step(s, op, s')
    ensures Resolved(Handed(s, op), s'.tasks) && Propagated(Handed(s, op)) && Settled(s'.tasks)
    ensures s'.status == StatusOf(s'.tasks)
  {
    StepKeepsConsistent(s, op, s');
    SettledResolved(s'.tasks);
    match op
    case Add(t) =>
      if t.id !in Ids(s.tasks) { AddPropagated(s.tasks, t); }
    case Start(id) =>
    case Complete(id, clean) =>
      var at := Find(s.tasks, id);
      if at.Some? { MarkPropagated(s.tasks, at.value, if clean then Done else Incomplete); }
    case Fail(id) =>
      var at := Find(s.tasks, id);
      if at.Some? { MarkPropagated(s.tasks, at.value, TaskStatus.Failed); }
  }

  /** After an operation BLOCKED is exact iff the operation handed only accountable BLOCKED tasks to the resolve. */
  lemma StepExact(s: PlanState, op: Op, s': PlanState)
    requires Consistent(s) && Step(s, op, s')
    ensures Exact(s'.tasks) <==> Accountable(Handed(s, op))
  {
    StepResolves(s, op, s');
    SettledExact(s'.tasks);
    ResolveStale(Handed(s, op), s'.tasks);
  }

  /** After an operation READY is safe iff the operation handed no task that is READY too soon to the resolve. */
  lemma StepReady(s: PlanState, op: Op, s': PlanState)
    requires Consistent(s) && Step(s, op, s')
    ensures ReadySafe(s'.tasks) <==> NoneTooSoon(Handed(s, op))
  {
    StepResolves(s, op, s');
    EntryCondition(Handed(s, op), s'.tasks);
  }

  /** An operation on a plan has one outcome. */
  lemma StepDeterministic(s: PlanState, op: Op, a: PlanState, b: PlanState)
    requires Consistent(s) && Step(s, op, a) && Step(s, op, b)
    ensures a == b
  {
    StepResolves(s, op, a);
    StepResolves(s, op, b);
    ResolveDeterministic(Handed(s, op), a.tasks, b.tasks);
  }

  /** The same operations on the same tasks always lead to the same plan. */
  lemma {:induction false} RunDeterministic(given: seq<Task>, states: seq<PlanState>, states': seq<PlanState>,
                                            ops: seq<Op>, k: nat)
    requires Run(given, states, ops) && Run(given, states', ops) && Propagated(given) && k < |states|
    ensures states[k] == states'[k]
    decreases k
  {
    if k == 0 {
      ResolveDeterministic(given, states[0].tasks, states'[0].tasks);
    } else {
      RunDeterministic(given, states, states', ops, k - 1);
      RunIsConsistent(given, states, ops, k - 1);
      assert StepAt(states, ops, k - 1);
      assert StepAt(states', ops, k - 1);
      StepDeterministic(states[k - 1], ops[k - 1], states[k], states'[k]);
    }
  }

  /** The list whose resolution is the k-th state of a run. */
  function ResolvedLast(given: seq<Task>, states: seq<PlanState>, ops: seq<Op>, k: nat): seq<Task>
    requires |states| == |ops| + 1 && k < |states|
  {
    if k == 0 then given else Handed(states[k - 1], ops[k - 1])
  }

  /** Over a run: BLOCKED is exact in a state iff the resolve before it was handed only accountable BLOCKED tasks. */
  lemma BlockedIsExact(given: seq<Task>, states: seq<PlanState>, ops: seq<Op>, k: nat)
    requires Run(given, states, ops) && k < |states| && (k == 0 ==> Propagated(given))
    ensures Exact(states[k].tasks) <==> Accountable(ResolvedLast(given, states, ops, k))
  {
    if k == 0 {
      RunIsConsistent(given, states, ops, 0);
      SettledExact(states[0].tasks);
      ResolveStale(given, states[0].tasks);
    } else {
      RunIsConsistent(given, states, ops, k - 1);
      assert StepAt(states, ops, k - 1);
      StepExact(states[k - 1], ops[k - 1], states[k]);
    }
  }

  /** Over a run: READY is safe in a state iff the resolve before it was handed no task that is READY too soon. */
  lemma ReadyIsExact(given: seq<Task>, states: seq<PlanState>, ops: seq<Op>, k: nat)
    requires Run(given, states, ops) && k < |states| && (k == 0 ==> Propagated(given))
    ensures ReadySafe(states[k].tasks) <==> NoneTooSoon(ResolvedLast(given, states, ops, k))
  {
    if k == 0 {
      EntryCondition(given, states[0].tasks);
    } else {
      RunIsConsistent(given, states, ops, k - 1);
      assert StepAt(states, ops, k - 1);
      StepReady(states[k - 1], ops[k - 1], states[k]);
    }
  }

  // ------------------------------------------------------------ quiet operations

  /**
   The operations that may leave stale BLOCKED tasks behind: completing a task that
   has failed or is blocked, and adding one that is BLOCKED or is already waited for.
   */
  ghost predicate Revives(s: PlanState, op: Op) {
    match op
    case Add(t) =>
      t.id !in Ids(s.tasks) && (t.status.Blocked? || exists k :: 0 <= k < |s.tasks| && t.id in s.tasks[k].dependsOn)
    case Complete(id, _) => var at := Find(s.tasks, id); at.Some? && Stops(s.tasks[at.value].status)
    case _ => false
  }

  lemma MarkedGraph(ts: seq<Task>, i: nat, s: TaskStatus, k: nat)
    requires i < |ts| && k < |ts|
    ensures HasMissing(Marked(ts, i, s), k) <==> HasMissing(ts, k)
    ensures forall j: nat :: Edge(Marked(ts, i, s), k, j) <==> Edge(ts, k, j)
  {
    MarkedIds(ts, i, s);
  }

  lemma {:induction false} PathAllBlocked(ts: seq<Task>, p: seq<nat>)
    requires Settled(ts) && BlockingPath(ts, p)
    ensures forall k :: 0 <= k < |p| ==> ts[p[k]].status.Blocked?
    decreases |p|
  {
    PathIsBlocked(ts, ts, p);
    if |p| == 1 {
    } else {
      RestOfPath(ts, p);
      PathAllBlocked(ts, p[1..]);
    }
  }

  /** Giving a task that stands in nobody's way another status leaves the others doomed. */
  lemma MarkKeepsDoom(ts: seq<Task>, i: nat, s: TaskStatus, k: nat)
    requires Settled(ts) && i < |ts| && !Stops(ts[i].status) && Doomed(ts, k)
    ensures Doomed(Marked(ts, i, s), k)
  {
    var us := Marked(ts, i, s);
    var p :| BlockingPath(ts, p) && p[0] == k;
    PathAllBlocked(ts, p);
    var last := p[|p| - 1];
    MarkedGraph(ts, i, s, last);
    if !HasMissing(ts, last) {
      var j: nat :| Edge(ts, last, j) && ts[j].status.Failed?;
      assert Edge(us, last, j) && us[j].status.Failed?;
    }
    forall m | 0 <= m < |p| - 1 ensures Edge(us, p[m], p[m + 1]) { assert Edge(ts, p[m], p[m + 1]); }
    assert BlockingPath(us, p);
  }

  /** A failure dooms more: a path through the failed task ends there. */
  lemma {:induction false} FailKeepsDoom(ts: seq<Task>, i: nat, p: seq<nat>)
    requires i < |ts| && BlockingPath(ts, p) && p[0] != i
    ensures Doomed(Marked(ts, i, TaskStatus.Failed), p[0])
    decreases |p|
  {
    var us := Marked(ts, i, TaskStatus.Failed);
    MarkedGraph(ts, i, TaskStatus.Failed, p[0]);
    if |p| > 1 { RestOfPath(ts, p); }
    if |p| == 1 || p[1] == i {
      if !HasMissing(ts, p[0]) {
        var j: nat :| Edge(ts, p[0], j) && (j == i || ts[j].status.Failed?);
        assert Edge(us, p[0], j) && us[j].status.Failed?;
      }
      DoomedByRoot(us, p[0]);
    } else {
      FailKeepsDoom(ts, i, p[1..]);
      DoomedByDependency(us, p[0], p[1]);
    }
  }

  lemma AddKeepsDoom(ts: seq<Task>, t: Task, k: nat)
    requires forall m :: 0 <= m < |ts| ==> t.id !in ts[m].dependsOn
    requires Doomed(ts, k)
    ensures Doomed(ts + [t], k)
  {
    var us := ts + [t];
    var p :| BlockingPath(ts, p) && p[0] == k;
    var last := p[|p| - 1];
    if HasMissing(ts, last) {
      var d :| d in ts[last].dependsOn && d !in Ids(ts);
      assert d !in Ids(us);
    } else {
      var j: nat :| Edge(ts, last, j) && ts[j].status.Failed?;
      assert Edge(us, last, j) && us[j].status.Failed?;
    }
    forall m | 0 <= m < |p| - 1 ensures Edge(us, p[m], p[m + 1]) { assert Edge(ts, p[m], p[m + 1]); }
    assert BlockingPath(us, p);
  }

  /** An operation that revives nothing keeps BLOCKED exact. */
  lemma QuietStepKeepsExact(s: PlanState, op: Op, s': PlanState)
    requires Consistent(s) && Exact(s.tasks) && Step(s, op, s') && !Revives(s, op)
    ensures Exact(s'.tasks)
  {
    var us := Handed(s, op);
    forall k: nat | k < |us| && us[k].status.Blocked? ensures Doomed(us, k) {
      QuietHandsDoomed(s, op, k);
    }
    StepExact(s, op, s');
  }

  lemma QuietHandsDoomed(s: PlanState, op: Op, k: nat)
    requires Consistent(s) && Exact(s.tasks) && !Revives(s, op)
    requires k < |Handed(s, op)| && Handed(s, op)[k].status.Blocked?
    ensures Doomed(Handed(s, op), k)
  {
    match op
    case Add(t) =>
      if t.id !in Ids(s.tasks) { AddKeepsDoom(s.tasks, t, k); }
    case Start(id) =>
      var at := Find(s.tasks, id);
      if at.Some? && s.tasks[at.value].status.Ready? { MarkKeepsDoom(s.tasks, at.value, Running, k); }
    case Complete(id, clean) =>
      var at := Find(s.tasks, id);
      if at.Some? { MarkKeepsDoom(s.tasks, at.value, if clean then Done else Incomplete, k); }
    case Fail(id) =>
      var at := Find(s.tasks, id);
      if at.Some? {
        var p :| BlockingPath(s.tasks, p) && p[0] == k;
        FailKeepsDoom(s.tasks, at.value, p);
      }
  }

  /** In every run without a reviving operation BLOCKED is exact throughout. */
  lemma {:induction false} QuietRunIsExact(given: seq<Task>, states: seq<PlanState>, ops: seq<Op>, k: nat)
    requires Run(given, states, ops) && k < |states| && NoneStale(given)
    requires forall m :: 0 <= m < k ==> !Revives(states[m], ops[m])
    ensures Exact(states[k].tasks)
    decreases k
  {
    if k == 0 {
      FirstExact(given, states[0].tasks);
    } else {
      QuietRunIsExact(given, states, ops, k - 1);
      RunIsConsistent(given, states, ops, k - 1);
      assert StepAt(states, ops, k - 1);
      QuietStepKeepsExact(states[k - 1], ops[k - 1], states[k]);
    }
  }

  lemma FirstExact(ts: seq<Task>, us: seq<Task>)
    requires Resolved(ts, us) && NoneStale(ts)
    ensures Exact(us)
  {
    NoneStalePropagated(ts);
    ResolveStale(ts, us);
    SettledExact(us);
  }

  // ------------------------------------------------------- a revival in a real run

  /** "b" waits for both "a" and "x". */
  function Fork(b: TaskStatus, a: TaskStatus, x: TaskStatus): seq<Task> {
    [Task("b", ["a", "x"], b), Task("a", [], a), Task("x", [], x)]
  }

  /** The plan after its creation, and after "a" has failed. */
  function Created(): PlanState {
    PlanState(Fork(Pending, Ready, Ready), Active)
  }

  function AfterFailure(): PlanState {
    PlanState(Fork(Blocked, TaskStatus.Failed, Ready), Active)
  }

  lemma ForkGraph(b: TaskStatus, a: TaskStatus, x: TaskStatus)
    ensures var ts := Fork(b, a, x);
            && UniqueIds(ts) && NoMissing(ts) && Find(ts, "a") == Some(1)
            && forall i: nat, j: nat :: Edge(ts, i, j) <==> i == 0 && (j == 1 || j == 2)
  {
    var ts := Fork(b, a, x);
    assert ts[0].id == "b" && ts[1].id == "a" && ts[2].id == "x";
    assert "a" in Ids(ts) && "x" in Ids(ts);
  }

  lemma ForkSettled(b: TaskStatus, a: TaskStatus)
    requires (b, a) == (Pending, Ready) || (b, a) == (Blocked, TaskStatus.Failed)
    ensures Settled(Fork(b, a, Ready))
  {
    var us := Fork(b, a, Ready);
    ForkGraph(b, a, Ready);
    assert Edge(us, 0, 1);
    assert SettledAt(us, 0) && SettledAt(us, 1) && SettledAt(us, 2);
  }

  lemma ForkCreated()
    ensures Resolved(Fork(Pending, Pending, Pending), Fork(Pending, Ready, Ready))
  {
    var ts, us := Fork(Pending, Pending, Pending), Fork(Pending, Ready, Ready);
    ForkGraph(Pending, Pending, Pending);
    assert Eligible(ts, 1) && Eligible(ts, 2);
    assert SameStarted(ts, us) && Justified(ts, us);
    ForkSettled(Pending, Ready);
  }

  /** Where one rewrite to BLOCKED settles everything, it is the whole resolve. */
  lemma OneBlocked(ts: seq<Task>, i: nat)
    requires UniqueIds(ts) && i < |ts| && Unstarted(ts[i].status) && !ts[i].status.Blocked?
    requires Obstructed(ts, i) && Settled(Marked(ts, i, Blocked))
    ensures Resolved(ts, Marked(ts, i, Blocked))
  {
    BeginResolving(ts);
    RewriteKeeps(ts, ts, i, Blocked);
  }

  lemma ForkBlocked()
    ensures Resolved(Fork(Pending, TaskStatus.Failed, Ready), Fork(Blocked, TaskStatus.Failed, Ready))
  {
    var ts := Fork(Pending, TaskStatus.Failed, Ready);
    ForkGraph(Pending, TaskStatus.Failed, Ready);
    ForkSettled(Blocked, TaskStatus.Failed);
    assert Edge(ts, 0, 1) && Marked(ts, 0, Blocked) == Fork(Blocked, TaskStatus.Failed, Ready);
    OneBlocked(ts, 0);
  }

  lemma ForkActive(b: TaskStatus, a: TaskStatus)
    requires !Finished(b)
    ensures StatusOf(Fork(b, a, Ready)) == Active
  {
    var ts := Fork(b, a, Ready);
    assert ts[0] in ts && ts[2] in ts;
  }

  /**
   BLOCKED does go stale: in a run that fails "a", whatever completing "a" after all
   leads to leaves "b" BLOCKED, although it waits for nothing but the READY "x".
   */
  lemma RevivalLeavesStale(s': PlanState)
    requires Step(AfterFailure(), Complete("a", true), s')
    ensures Run(Fork(Pending, Pending, Pending),
                [Created(), AfterFailure()], [Fail("a")])
    ensures s'.tasks[0].status.Blocked? && !Exact(s'.tasks)
  {
    ForkRun();
    ForkHands();
    var s := AfterFailure();
    RunIsConsistent(Fork(Pending, Pending, Pending), [Created(), s], [Fail("a")], 1);
    StepExact(s, Complete("a", true), s');
    StaysBlocked(Fork(Blocked, Done, Ready), s'.tasks, 0);
  }

  lemma ForkRun()
    ensures Run(Fork(Pending, Pending, Pending),
                [Created(), AfterFailure()], [Fail("a")])
  {
    ForkGraph(Pending, Pending, Pending);
    ForkCreated();
    ForkActive(Pending, Ready);
    ForkFails();
  }

  lemma ForkFails()
    ensures Step(Created(), Fail("a"), AfterFailure())
  {
    ForkGraph(Pending, Ready, Ready);
    ForkBlocked();
    ForkActive(Blocked, TaskStatus.Failed);
    assert Marked(Fork(Pending, Ready, Ready), 1, TaskStatus.Failed) == Fork(Pending, TaskStatus.Failed, Ready);
  }

  lemma ForkHands()
    ensures Handed(AfterFailure(), Complete("a", true)) == Fork(Blocked, Done, Ready)
    ensures !Accountable(Fork(Blocked, Done, Ready)) && !Eligible(Fork(Blocked, Done, Ready), 0)
  {
    ForkGraph(Blocked, TaskStatus.Failed, Ready);
    ForkGraph(Blocked, Done, Ready);
    var us := Fork(Blocked, Done, Ready);
    assert Edge(us, 0, 2) && us[0].status.Blocked?;
    assert forall i: nat :: i < |us| ==> !Root(us, i);
  }
}
