/**
 The plan store: plans that are changed in place, the fixpoint that recomputes
 their task statuses, and what holds after every operation of every run.
 */
module PlanManager {
  import opened Wrappers
  import opened PlanModel

  datatype Op =
    | Add(task: Task)
    | Start(id: string)
    | Complete(id: string, clean: bool)
    | Fail(id: string)

  /** The first task with the given id. */
  function Find(ts: seq<Task>, id: string): (r: Option<nat>)
    ensures r.Some? ==> r.value < |ts| && ts[r.value].id == id && forall k :: 0 <= k < r.value ==> ts[k].id != id
    ensures r.None? <==> id !in Ids(ts)
  {
    if ts == [] then None
    else if ts[|ts| - 1].id != id then
      assert Ids(ts) == Ids(ts[..|ts| - 1]) + {ts[|ts| - 1].id};
      Find(ts[..|ts| - 1], id)
    else
      match Find(ts[..|ts| - 1], id)
      case Some(k) => Some(k)
      case None => Some(|ts| - 1)
  }

  predicate Startable(ts: seq<Task>, id: string) {
    var at := Find(ts, id);
    at.Some? && ts[at.value].status.Ready?
  }

  /** Some task of that id is READY. */
  ghost predicate HasReady(ts: seq<Task>, id: string) {
    exists i :: 0 <= i < |ts| && ts[i].id == id && ts[i].status == Ready
  }

  /** The tasks of that id have the status, and no other task has changed. */
  ghost predicate OnlyMarked(ts: seq<Task>, us: seq<Task>, id: string, s: TaskStatus) {
    && |us| == |ts|
    && forall i :: 0 <= i < |ts| ==> us[i] == if ts[i].id == id then Task(id, ts[i].dependsOn, s) else ts[i]
  }

  lemma StartableMeans(ts: seq<Task>, id: string)
    requires UniqueIds(ts)
    ensures Startable(ts, id) <==> HasReady(ts, id)
    ensures Startable(ts, id) ==> OnlyMarked(ts, Marked(ts, Find(ts, id).value, Running), id, Running)
  {
    if i :| 0 <= i < |ts| && ts[i].id == id { assert ts[i].id in Ids(ts); }
  }

  /** One operation on a plan; operations that find nothing to do change nothing. */
  ghost predicate Step(s: PlanState, op: Op, s': PlanState) {
    match op
    case Add(t) =>
      if t.id in Ids(s.tasks) then s' == s
      else Resolved(s.tasks + [t], s'.tasks) && s'.status == StatusOf(s'.tasks)
    case Start(id) =>
      if Startable(s.tasks, id) then
        s'.tasks == Marked(s.tasks, Find(s.tasks, id).value, Running) && s'.status == StatusOf(s'.tasks)
      else s' == s
    case Complete(id, clean) =>
      var at := Find(s.tasks, id);
      if at.Some? then
        && Resolved(Marked(s.tasks, at.value, if clean then Done else Incomplete), s'.tasks)
        && s'.status == StatusOf(s'.tasks)
      else s' == s
    case Fail(id) =>
      var at := Find(s.tasks, id);
      if at.Some? then
        Resolved(Marked(s.tasks, at.value, TaskStatus.Failed), s'.tasks) && s'.status == StatusOf(s'.tasks)
      else s' == s
  }

  function Marked(ts: seq<Task>, i: nat, s: TaskStatus): seq<Task>
    requires i < |ts|
  {
    ts[i := ts[i].(status := s)]
  }

  /** Holds of every plan between operations. */
  ghost predicate Consistent(s: PlanState) {
    UniqueIds(s.tasks) && Settled(s.tasks) && s.status == StatusOf(s.tasks)
  }

  // ------------------------------------------------------------ the mutable plan

  ghost predicate Tracks(m: map<string, TaskStatus>, ts: seq<Task>) {
    m.Keys == Ids(ts) && forall i :: 0 <= i < |ts| ==> m[ts[i].id] == ts[i].status
  }

  function StatusMap(ts: seq<Task>): (m: map<string, TaskStatus>)
    requires UniqueIds(ts)
    ensures Tracks(m, ts)
  {
    map i | 0 <= i < |ts| :: ts[i].id := ts[i].status
  }

  predicate AnyMissing(t: Task, byId: set<string>) {
    exists d :: d in t.dependsOn && d !in byId
  }

  predicate AnyStops(t: Task, m: map<string, TaskStatus>) {
    exists d :: d in t.dependsOn && d in m && Stops(m[d])
  }

  predicate AllFinished(t: Task, m: map<string, TaskStatus>) {
    forall d :: d in t.dependsOn && d in m ==> Finished(m[d])
  }

  /** What one iteration computes from the status map agrees with the list of tasks. */
  lemma TrackedConditions(m: map<string, TaskStatus>, ts: seq<Task>, k: nat)
    requires Tracks(m, ts) && k < |ts|
    ensures Obstructed(ts, k) <==> AnyMissing(ts[k], Ids(ts)) || AnyStops(ts[k], m)
    ensures Eligible(ts, k) <==> AllFinished(ts[k], m) && !AnyMissing(ts[k], Ids(ts))
  {
    forall d | d in ts[k].dependsOn && d in m
      ensures exists j: nat :: Edge(ts, k, j) && ts[j].id == d
    {
      var j :| 0 <= j < |ts| && ts[j].id == d;
      assert Edge(ts, k, j);
    }
    forall j: nat | Edge(ts, k, j) ensures ts[j].id in m && m[ts[j].id] == ts[j].status {}
  }

  /** What the resolve loop knows between any two rewrites. */
  ghost predicate Resolving(start: seq<Task>, ts: seq<Task>, statusMap: map<string, TaskStatus>) {
    SameStarted(start, ts) && Justified(start, ts) && Tracks(statusMap, ts) && UniqueIds(ts)
  }

  lemma BeginResolving(ts: seq<Task>)
    requires UniqueIds(ts)
    ensures Resolving(ts, ts, StatusMap(ts))
  {
    JustifiedSelf(ts);
  }

  lemma RewriteResolves(start: seq<Task>, ts: seq<Task>, m: map<string, TaskStatus>, k: nat, s: TaskStatus)
    requires Resolving(start, ts, m)
    requires k < |ts| && Unstarted(ts[k].status) && ts[k].status != s
    requires (s.Ready? && Eligible(ts, k)) || (s.Blocked? && Obstructed(ts, k))
    ensures Resolving(start, Marked(ts, k, s), m[ts[k].id := s])
    ensures Ids(Marked(ts, k, s)) == Ids(ts)
    ensures Unsettled(start, Marked(ts, k, s), |ts|) == Unsettled(start, ts, |ts|) - 1
  {
    RewriteKeeps(start, ts, k, s);
    MarkedIds(ts, k, s);
    assert ts[k].id in Ids(ts);
  }

  /** A pass that began with `before` has visited the first k tasks and stands at `ts`. */
  ghost predicate InPass(start: seq<Task>, before: seq<Task>, ts: seq<Task>, m: map<string, TaskStatus>, k: nat,
                         changed: bool)
  {
    && |start| == |before| == |ts| && k <= |ts| && Ids(ts) == Ids(before)
    && Resolving(start, ts, m)
    && (!changed ==> ts == before && forall i :: 0 <= i < k ==> SettledAt(before, i))
    && (changed ==> Unsettled(start, ts, |ts|) < Unsettled(start, before, |before|))
  }

  lemma PassContinues(start: seq<Task>, before: seq<Task>, ts: seq<Task>, ts': seq<Task>,
                      m': map<string, TaskStatus>, k: nat, changed: bool, rewritten: bool)
    requires |start| == |before| == |ts| == |ts'| && k < |ts| && Ids(ts') == Ids(before)
    requires !changed ==> ts == before && forall i :: 0 <= i < k ==> SettledAt(before, i)
    requires changed ==> Unsettled(start, ts, |ts|) < Unsettled(start, before, |before|)
    requires Resolving(start, ts', m')
    requires rewritten ==> Unsettled(start, ts', |ts'|) == Unsettled(start, ts, |ts|) - 1
    requires !rewritten ==> ts' == ts && SettledAt(ts, k)
    ensures InPass(start, before, ts', m', k + 1, changed || rewritten)
  {
  }

  class Plan {
    var tasks: seq<Task>
    var status: PlanStatus

    ghost function State(): PlanState
      reads this
    {
      PlanState(tasks, status)
    }

    ghost predicate Fits()
      reads this
    {
      StatusFits(tasks, status)
    }

    constructor (tasks: seq<Task>)
      ensures this.tasks == tasks
    {
      this.tasks := tasks;
      this.status := Draft;
    }

    /** Recomputes PENDING, READY and BLOCKED; it ends on any graph within |tasks| + 1 passes. */
    method ResolveStatuses() returns (ghost passes: nat)
      requires UniqueIds(tasks)
      modifies this`tasks
      ensures Resolved(old(tasks), tasks)
      ensures passes <= |tasks| + 1
    {
      ghost var start := tasks;
      var byId := Ids(tasks);
      var statusMap := StatusMap(tasks);
      BeginResolving(tasks);
      var changed := true;
      passes := 0;
      while changed
        invariant Resolving(start, tasks, statusMap) && byId == Ids(tasks)
        invariant !changed ==> Settled(tasks)
        invariant passes + Unsettled(start, tasks, |tasks|) <= |tasks| + if changed then 0 else 1
        decreases Unsettled(start, tasks, |tasks|) + if changed then 1 else 0
      {
        statusMap, changed := Pass(start, byId, statusMap);
        passes := passes + 1;
      }
    }

    /** One pass over the tasks: it settles at least one of them, or finds all of them settled. */
    method Pass(ghost start: seq<Task>, byId: set<string>, statusMap: map<string, TaskStatus>)
        returns (statusMap': map<string, TaskStatus>, changed: bool)
      requires Resolving(start, tasks, statusMap) && byId == Ids(tasks)
      modifies this`tasks
      ensures Resolving(start, tasks, statusMap') && Ids(tasks) == byId
      ensures if changed then Unsettled(start, tasks, |tasks|) < old(Unsettled(start, tasks, |tasks|))
              else tasks == old(tasks) && Settled(tasks)
    {
      statusMap', changed := statusMap, false;
      ghost var before := tasks;
      for k := 0 to |tasks|
        invariant InPass(start, before, tasks, statusMap', k, changed)
      {
        ghost var was := tasks;
        var rewritten;
        statusMap', rewritten := ResolveTask(start, byId, statusMap', k);
        PassContinues(start, before, was, tasks, statusMap', k, changed, rewritten);
        changed := changed || rewritten;
      }
    }

    /** One iteration of a pass: settles task k, or finds it settled and changes nothing. */
    method ResolveTask(ghost start: seq<Task>, byId: set<string>, statusMap: map<string, TaskStatus>, k: nat)
        returns (statusMap': map<string, TaskStatus>, changed: bool)
      requires Resolving(start, tasks, statusMap) && byId == Ids(tasks) && k < |tasks|
      modifies this`tasks
      ensures |tasks| == old(|tasks|) && Ids(tasks) == byId
      ensures Resolving(start, tasks, statusMap')
      ensures changed ==> Unsettled(start, tasks, |tasks|) == old(Unsettled(start, tasks, |tasks|)) - 1
      ensures !changed ==> tasks == old(tasks) && SettledAt(tasks, k)
    {
      statusMap', changed := statusMap, false;
      var task := tasks[k];
      if !Unstarted(task.status) {
        return;
      }
      var missing := AnyMissing(task, byId);
      var anyFailed := AnyStops(task, statusMap);
      var allDone := AllFinished(task, statusMap) && !missing;
      TrackedConditions(statusMap, tasks, k);
      if missing || anyFailed {
        if !task.status.Blocked? {
          RewriteResolves(start, tasks, statusMap, k, Blocked);
          tasks := tasks[k := task.(status := Blocked)];
          statusMap', changed := statusMap[task.id := Blocked], true;
        }
      } else if (allDone && task.dependsOn != []) || task.dependsOn == [] {
        if !task.status.Ready? {
          RewriteResolves(start, tasks, statusMap, k, Ready);
          tasks := tasks[k := task.(status := Ready)];
          statusMap', changed := statusMap[task.id := Ready], true;
        }
      } else {
        assert task.id in Ids(tasks);
        statusMap' := statusMap[task.id := task.status];
        assert statusMap' == statusMap;
      }
    }

    method UpdatePlanStatus()
      modifies this`status
      ensures status == StatusOf(tasks) && Fits()
    {
      StatusOfFits(tasks);
      status := StatusOf(tasks);
    }

    /** What creating, adding, completing and failing end with. */
    method Refresh()
      requires UniqueIds(tasks)
      modifies this
      ensures Resolved(old(tasks), tasks) && Consistent(State()) && Fits()
    {
      ghost var before := tasks;
      var _ := ResolveStatuses();
      UpdatePlanStatus();
      ResolvedUnique(before, tasks);
    }
  }

  lemma MarkedIds(ts: seq<Task>, i: nat, s: TaskStatus)
    requires i < |ts|
    ensures Ids(Marked(ts, i, s)) == Ids(ts)
    ensures UniqueIds(ts) ==> UniqueIds(Marked(ts, i, s))
  {
    var us := Marked(ts, i, s);
    forall d ensures d in Ids(ts) <==> d in Ids(us) {
      if d in Ids(ts) {
        var k :| 0 <= k < |ts| && ts[k].id == d;
        assert us[k].id == d;
      }
      if d in Ids(us) {
        var k :| 0 <= k < |us| && us[k].id == d;
        assert ts[k].id == d;
      }
    }
  }

  class PlanManager {
    var plans: map<string, Plan>

    /** Plans are stored apart, and each is consistent. */
    ghost predicate Valid()
      reads this, plans.Values
    {
      && (forall a, b :: a in plans && b in plans && a != b ==> plans[a] != plans[b])
      && forall a :: a in plans ==> plans[a] in plans.Values && Consistent(plans[a].State())
    }

    constructor ()
      ensures Valid() && plans == map[]
    {
      plans := map[];
    }

    /** `planId` is the fresh id that the store draws for the plan. */
    method CreatePlan(planId: string, tasks: seq<Task>) returns (plan: Plan)
      requires Valid() && planId !in plans && UniqueIds(tasks)
      modifies this
      ensures Valid() && fresh(plan) && plans == old(plans)[planId := plan]
      ensures Resolved(tasks, plan.tasks) && plan.Fits()
    {
      plan := new Plan(tasks);
      plan.Refresh();
      plans := plans[planId := plan];
    }

    method AddTask(planId: string, task: Task) returns (r: Option<Task>)
      requires Valid()
      modifies if planId in plans then {plans[planId]} else {}
      ensures Valid()
      ensures planId in plans ==> Step(old(plans[planId].State()), Add(task), plans[planId].State())
      ensures r.Some? <==> planId in plans && task.id !in old(Ids(plans[planId].tasks))
      ensures r.Some? ==> plans[planId].Fits()
      ensures r.Some? ==> r.value in plans[planId].tasks && r.value.id == task.id
    {
      if planId !in plans { return None; }
      var plan := plans[planId];
      if task.id in Ids(plan.tasks) { return None; }
      AppendedUnique(plan.tasks, task);
      plan.tasks := plan.tasks + [task];
      plan.Refresh();
      r := Some(plan.tasks[|plan.tasks| - 1]);
    }

    method StartTask(planId: string, taskId: string) returns (r: Option<Task>)
      requires Valid()
      modifies if planId in plans then {plans[planId]} else {}
      ensures Valid()
      ensures planId in plans ==> Step(old(plans[planId].State()), Start(taskId), plans[planId].State())
      ensures r.Some? <==> planId in plans && old(HasReady(plans[planId].tasks, taskId))
      ensures r.Some? ==> OnlyMarked(old(plans[planId].tasks), plans[planId].tasks, taskId, Running)
      ensures r.Some? ==> r.value in plans[planId].tasks && r.value.id == taskId && r.value.status.Running?
      ensures r.None? && planId in plans ==> plans[planId].State() == old(plans[planId].State())
      ensures r.Some? ==> plans[planId].Fits()
    {
      if planId !in plans { return None; }
      var plan := plans[planId];
      var at := Find(plan.tasks, taskId);
      StartableMeans(plan.tasks, taskId);
      if at.None? || !plan.tasks[at.value].status.Ready? { return None; }
      MarkedIds(plan.tasks, at.value, Running);
      StartKeepsSettled(plan.tasks, at.value);
      plan.tasks := Marked(plan.tasks, at.value, Running);
      plan.UpdatePlanStatus();
      r := Some(plan.tasks[at.value]);
    }

    method CompleteTask(planId: string, taskId: string, cancelled: bool, partial: bool, timedOut: bool)
        returns (r: Option<Task>)
      requires Valid()
      modifies if planId in plans then {plans[planId]} else {}
      ensures Valid()
      ensures planId in plans ==>
                Step(old(plans[planId].State()), Complete(taskId, !(cancelled || partial || timedOut)),
                     plans[planId].State())
      ensures r.Some? <==> planId in plans && taskId in old(Ids(plans[planId].tasks))
      ensures r.Some? ==> r.value in plans[planId].tasks && r.value.id == taskId
                          && r.value.status == if cancelled || partial || timedOut then Incomplete else Done
      ensures r.Some? ==> plans[planId].Fits()
    {
      var s := if cancelled || partial || timedOut then Incomplete else Done;
      r := Finish(planId, taskId, s);
    }

    method FailTask(planId: string, taskId: string) returns (r: Option<Task>)
      requires Valid()
      modifies if planId in plans then {plans[planId]} else {}
      ensures Valid()
      ensures planId in plans ==> Step(old(plans[planId].State()), Fail(taskId), plans[planId].State())
      ensures r.Some? <==> planId in plans && taskId in old(Ids(plans[planId].tasks))
      ensures r.Some? ==> r.value in plans[planId].tasks && r.value.id == taskId && r.value.status.Failed?
      ensures r.Some? ==> plans[planId].Fits()
    {
      r := Finish(planId, taskId, TaskStatus.Failed);
    }

    /** The part that completing and failing share: set the outcome, resolve, derive the plan status. */
    method Finish(planId: string, taskId: string, s: TaskStatus) returns (r: Option<Task>)
      requires Valid() && !Unstarted(s)
      modifies if planId in plans then {plans[planId]} else {}
      ensures Valid()
      ensures r.Some? <==> planId in plans && taskId in old(Ids(plans[planId].tasks))
      ensures r.Some? ==>
                && r.value in plans[planId].tasks && r.value.id == taskId && r.value.status == s
                && Resolved(Marked(old(plans[planId].tasks), Find(old(plans[planId].tasks), taskId).value, s),
                            plans[planId].tasks)
                && plans[planId].status == StatusOf(plans[planId].tasks)
      ensures r.None? && planId in plans ==> plans[planId].State() == old(plans[planId].State())
      ensures r.Some? ==> plans[planId].Fits()
    {
      if planId !in plans { return None; }
      var plan := plans[planId];
      var at := Find(plan.tasks, taskId);
      if at.None? { return None; }
      MarkedIds(plan.tasks, at.value, s);
      plan.tasks := Marked(plan.tasks, at.value, s);
      plan.Refresh();
      r := Some(plan.tasks[at.value]);
    }
  }

  lemma StartKeepsSettled(ts: seq<Task>, i: nat)
    requires Settled(ts) && i < |ts| && ts[i].status.Ready?
    ensures Settled(Marked(ts, i, Running))
  {
    var us := Marked(ts, i, Running);
    MarkedIds(ts, i, Running);
    forall k: nat | k < |us| ensures SettledAt(us, k) {
      assert SettledAt(ts, k);
      assert forall j: nat :: Edge(ts, k, j) <==> Edge(us, k, j);
      assert HasMissing(us, k) <==> HasMissing(ts, k);
      assert Obstructed(us, k) ==> Obstructed(ts, k);
      if Eligible(us, k) {
        forall j: nat | Edge(ts, k, j) ensures Finished(ts[j].status) { assert Edge(us, k, j); }
      }
    }
  }

  // --------------------------------------------------------------------- runs

  ghost predicate StepAt(states: seq<PlanState>, ops: seq<Op>, k: nat) {
    k < |ops| && k + 1 < |states| && Step(states[k], ops[k], states[k + 1])
  }

  /** A run: a freshly created plan, then one operation after another. */
  ghost predicate Run(given: seq<Task>, states: seq<PlanState>, ops: seq<Op>) {
    && |states| == |ops| + 1 && UniqueIds(given)
    && Resolved(given, states[0].tasks) && states[0].status == StatusOf(states[0].tasks)
    && forall k: nat :: k < |ops| ==> StepAt(states, ops, k)
  }

  /** Tasks enter unresolved: nobody hands in a task that is already READY. */
  ghost predicate EntersUnready(given: seq<Task>, ops: seq<Op>) {
    && (forall i :: 0 <= i < |given| ==> !given[i].status.Ready?)
    && forall k :: 0 <= k < |ops| && ops[k].Add? ==> !ops[k].task.status.Ready?
  }

  /** The status of a consistent plan says exactly what its tasks are. */
  lemma ConsistentFits(s: PlanState)
    requires Consistent(s)
    ensures StatusFits(s.tasks, s.status)
  {
    StatusOfFits(s.tasks);
  }

  lemma AppendedUnique(ts: seq<Task>, t: Task)
    requires UniqueIds(ts) && t.id !in Ids(ts)
    ensures UniqueIds(ts + [t])
  {
    forall i | 0 <= i < |ts| ensures ts[i].id in Ids(ts) {}
  }

  lemma ResolvedUnique(ts: seq<Task>, us: seq<Task>)
    requires UniqueIds(ts) && SameStarted(ts, us)
    ensures UniqueIds(us)
  {
  }

  lemma StepKeepsConsistent(s: PlanState, op: Op, s': PlanState)
    requires Consistent(s) && Step(s, op, s')
    ensures Consistent(s')
  {
    match op
    case Add(t) =>
      if t.id !in Ids(s.tasks) {
        AppendedUnique(s.tasks, t);
        ResolvedUnique(s.tasks + [t], s'.tasks);
      }
    case Start(id) =>
      var at := Find(s.tasks, id);
      if at.Some? && s.tasks[at.value].status.Ready? {
        StartKeepsSettled(s.tasks, at.value);
        MarkedIds(s.tasks, at.value, Running);
      }
    case Complete(id, clean) =>
      var at := Find(s.tasks, id);
      if at.Some? {
        MarkedIds(s.tasks, at.value, if clean then Done else Incomplete);
        ResolvedUnique(Marked(s.tasks, at.value, if clean then Done else Incomplete), s'.tasks);
      }
    case Fail(id) =>
      var at := Find(s.tasks, id);
      if at.Some? {
        MarkedIds(s.tasks, at.value, TaskStatus.Failed);
        ResolvedUnique(Marked(s.tasks, at.value, TaskStatus.Failed), s'.tasks);
      }
  }

  /** Giving a task any started status leaves each other READY task eligible, or dependent on a failure. */
  lemma MarkedReady(ts: seq<Task>, i: nat, s: TaskStatus, k: nat)
    requires i < |ts| && k < |ts| && ReadySafe(ts) && !Unstarted(s)
    requires s.Running? ==> ts[i].status.Ready?
    requires Marked(ts, i, s)[k].status.Ready?
    ensures Eligible(Marked(ts, i, s), k) || (s.Failed? && Root(Marked(ts, i, s), k))
  {
    var us := Marked(ts, i, s);
    MarkedIds(ts, i, s);
    assert Eligible(ts, k);
    assert HasMissing(us, k) <==> HasMissing(ts, k);
    assert forall j: nat :: Edge(ts, k, j) <==> Edge(us, k, j);
  }

  lemma AddedReady(ts: seq<Task>, t: Task, k: nat)
    requires ReadySafe(ts) && t.id !in Ids(ts) && k < |ts| && ts[k].status.Ready?
    ensures Eligible(ts + [t], k)
  {
    var us := ts + [t];
    assert Eligible(ts, k);
    forall d | d in us[k].dependsOn ensures d in Ids(us) {
      assert d in Ids(ts);
      var m :| 0 <= m < |ts| && ts[m].id == d;
      assert us[m].id == d;
    }
    forall j: nat | Edge(us, k, j) ensures Finished(us[j].status) {
      if j < |ts| { assert Edge(ts, k, j); }
    }
  }

  lemma StepKeepsReadySafe(s: PlanState, op: Op, s': PlanState)
    requires ReadySafe(s.tasks) && Step(s, op, s')
    requires op.Add? ==> !op.task.status.Ready?
    ensures ReadySafe(s'.tasks)
  {
    match op
    case Add(t) =>
      if t.id !in Ids(s.tasks) {
        forall k: nat | k < |s.tasks| && s.tasks[k].status.Ready? ensures Eligible(s.tasks + [t], k) {
          AddedReady(s.tasks, t, k);
        }
        ResolveReadySafe(s.tasks + [t], s'.tasks);
      }
    case Start(id) =>
      var at := Find(s.tasks, id);
      if at.Some? && s.tasks[at.value].status.Ready? {
        forall k: nat | k < |s'.tasks| && s'.tasks[k].status.Ready? ensures Eligible(s'.tasks, k) {
          MarkedReady(s.tasks, at.value, Running, k);
        }
      }
    case Complete(id, clean) =>
      var at := Find(s.tasks, id);
      if at.Some? {
        var s1 := if clean then Done else Incomplete;
        var us := Marked(s.tasks, at.value, s1);
        forall k: nat | k < |us| && us[k].status.Ready? ensures Eligible(us, k) {
          MarkedReady(s.tasks, at.value, s1, k);
        }
        ResolveReadySafe(us, s'.tasks);
      }
    case Fail(id) =>
      var at := Find(s.tasks, id);
      if at.Some? {
        var us := Marked(s.tasks, at.value, TaskStatus.Failed);
        forall k: nat | k < |us| && us[k].status.Ready? ensures Eligible(us, k) || Root(us, k) {
          MarkedReady(s.tasks, at.value, TaskStatus.Failed, k);
        }
        ResolveReadySafe(us, s'.tasks);
      }
  }

  lemma {:induction false} RunIsConsistent(given: seq<Task>, states: seq<PlanState>, ops: seq<Op>, k: nat)
    requires Run(given, states, ops) && k < |states|
    ensures Consistent(states[k])
    decreases k
  {
    if k == 0 {
      ResolvedUnique(given, states[0].tasks);
    } else {
      RunIsConsistent(given, states, ops, k - 1);
      assert StepAt(states, ops, k - 1);
      StepKeepsConsistent(states[k - 1], ops[k - 1], states[k]);
    }
  }

  /** Starting a READY task always takes effect, whatever else the plan holds. */
  lemma StartTakesEffect(given: seq<Task>, states: seq<PlanState>, ops: seq<Op>, k: nat, i: nat)
    requires Run(given, states, ops) && k < |ops| && i < |states[k].tasks|
    requires states[k].tasks[i].status == Ready && ops[k] == Start(states[k].tasks[i].id)
    ensures var t := states[k].tasks[i];
            states[k + 1].tasks == states[k].tasks[i := Task(t.id, t.dependsOn, Running)]
    ensures states[k + 1].status == Active
  {
    RunIsConsistent(given, states, ops, k);
    assert StepAt(states, ops, k);
    StartableMeans(states[k].tasks, ops[k].id);
    StatusIsExact(given, states, ops, k + 1);
    assert states[k + 1].tasks[i].status.Running?;
  }

  /** Completing or failing a task always takes effect on it and leaves every other started task as it was. */
  lemma OutcomeTakesEffect(given: seq<Task>, states: seq<PlanState>, ops: seq<Op>, k: nat, i: nat)
    requires Run(given, states, ops) && k < |ops| && i < |states[k].tasks|
    requires (ops[k].Complete? || ops[k].Fail?) && ops[k].id == states[k].tasks[i].id
    ensures |states[k + 1].tasks| == |states[k].tasks|
    ensures states[k + 1].tasks[i].status
            == if ops[k].Fail? then TaskStatus.Failed else if ops[k].clean then Done else Incomplete
    ensures forall j :: 0 <= j < |states[k].tasks| && j != i && !Unstarted(states[k].tasks[j].status) ==>
              states[k + 1].tasks[j] == states[k].tasks[j]
  {
    RunIsConsistent(given, states, ops, k);
    assert StepAt(states, ops, k);
    assert states[k].tasks[i].id in Ids(states[k].tasks);
    assert Find(states[k].tasks, ops[k].id) == Some(i);
  }

  /** In every run, on any graph, the plan status says exactly what the tasks are. */
  lemma StatusIsExact(given: seq<Task>, states: seq<PlanState>, ops: seq<Op>, k: nat)
    requires Run(given, states, ops) && k < |states|
    ensures StatusFits(states[k].tasks, states[k].status)
  {
    RunIsConsistent(given, states, ops, k);
    ConsistentFits(states[k]);
  }

  /** In every run an unfinished task of a plan that is a draft waits for a missing task or is caught in a cycle. */
  lemma DraftsAreAstray(given: seq<Task>, states: seq<PlanState>, ops: seq<Op>, k: nat, i: nat)
    requires Run(given, states, ops) && k < |states| && states[k].status == Draft
    requires i < |states[k].tasks| && !states[k].tasks[i].status.Done? && !states[k].tasks[i].status.Incomplete?
    ensures Astray(states[k].tasks, i)
  {
    StatusIsExact(given, states, ops, k);
    RunIsConsistent(given, states, ops, k);
    DraftIsAstray(states[k].tasks, i);
  }

  /** Whenever the graph is acyclic and complete, a plan is finished, under way, or failed with a culprit. */
  lemma NoSilentDeadlock(given: seq<Task>, states: seq<PlanState>, ops: seq<Op>, k: nat)
    requires Run(given, states, ops) && k < |states|
    requires states[k].tasks != [] && Acyclic(states[k].tasks) && NoMissing(states[k].tasks)
    ensures Accounted(states[k].tasks, states[k].status)
    ensures states[k].status != Draft
  {
    RunIsConsistent(given, states, ops, k);
    SettledIsAccounted(states[k].tasks);
  }

  lemma {:induction false} ReadyIsSafe(given: seq<Task>, states: seq<PlanState>, ops: seq<Op>, k: nat)
    requires Run(given, states, ops) && EntersUnready(given, ops) && k < |states|
    ensures ReadySafe(states[k].tasks)
    decreases k
  {
    if k == 0 {
      ResolveReadySafe(given, states[0].tasks);
    } else {
      ReadyIsSafe(given, states, ops, k - 1);
      assert StepAt(states, ops, k - 1);
      StepKeepsReadySafe(states[k - 1], ops[k - 1], states[k]);
    }
  }

  /** A task that starts has every dependency present and finished, whatever was failed or added before. */
  lemma StartSafety(given: seq<Task>, states: seq<PlanState>, ops: seq<Op>, k: nat, i: nat)
    requires Run(given, states, ops) && EntersUnready(given, ops) && k < |ops|
    requires i < |states[k].tasks| && i < |states[k + 1].tasks|
    requires ops[k].Start? && states[k].tasks[i] != states[k + 1].tasks[i]
    ensures states[k].tasks[i].status.Ready? && states[k + 1].tasks[i].status.Running?
    ensures forall d :: d in states[k].tasks[i].dependsOn ==>
              exists j: nat :: j < |states[k].tasks| && states[k].tasks[j].id == d
                               && (states[k].tasks[j].status == Done || states[k].tasks[j].status == Incomplete)
  {
    ReadyIsSafe(given, states, ops, k);
    assert StepAt(states, ops, k);
    var ts := states[k].tasks;
    assert Eligible(ts, i);
    forall d | d in ts[i].dependsOn
      ensures exists j: nat :: j < |ts| && ts[j].id == d && (ts[j].status == Done || ts[j].status == Incomplete)
    {
      assert d in Ids(ts);
      var j :| 0 <= j < |ts| && ts[j].id == d;
      assert Edge(ts, i, j);
    }
  }
}
