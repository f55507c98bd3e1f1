/**
 Tasks, plans and what it means for their statuses to be resolved.

 Everything here is about values: the mutable plan and its operations are in
 PlanManager.dfy and are proved against the predicates of this module.
 */
module PlanModel {

  datatype TaskStatus = Pending | Ready | Running | Done | Incomplete | Failed | Blocked

  datatype PlanStatus = Draft | Active | Completed | Failed

  datatype Task = Task(id: string, dependsOn: seq<string>, status: TaskStatus)

  datatype PlanState = PlanState(tasks: seq<Task>, status: PlanStatus)

  /** The statuses that a resolve may rewrite. */
  predicate Unstarted(s: TaskStatus) {
    s.Pending? || s.Ready? || s.Blocked?
  }

  /** The statuses that release dependents. */
  predicate Finished(s: TaskStatus) {
    s.Done? || s.Incomplete?
  }

  /** The statuses that block dependents. */
  predicate Stops(s: TaskStatus) {
    s.Failed? || s.Blocked?
  }

  predicate InFlight(s: TaskStatus) {
    s.Running? || s.Ready?
  }

  predicate UniqueIds(ts: seq<Task>) {
    forall i, j :: 0 <= i < j < |ts| ==> ts[i].id != ts[j].id
  }

  function Ids(ts: seq<Task>): set<string> {
    set i | 0 <= i < |ts| :: ts[i].id
  }

  /** Task i waits for task j. */
  predicate Edge(ts: seq<Task>, i: nat, j: nat) {
    i < |ts| && j < |ts| && ts[j].id in ts[i].dependsOn
  }

  predicate HasMissing(ts: seq<Task>, i: nat)
    requires i < |ts|
  {
    exists d :: d in ts[i].dependsOn && d !in Ids(ts)
  }

  ghost predicate NoMissing(ts: seq<Task>) {
    forall i :: 0 <= i < |ts| ==> !HasMissing(ts, i)
  }

  /** Every dependency exists and is finished. */
  ghost predicate Eligible(ts: seq<Task>, i: nat)
    requires i < |ts|
  {
    !HasMissing(ts, i) && forall j: nat :: Edge(ts, i, j) ==> Finished(ts[j].status)
  }

  /** Some dependency is missing, failed or blocked. */
  ghost predicate Obstructed(ts: seq<Task>, i: nat)
    requires i < |ts|
  {
    HasMissing(ts, i) || exists j: nat :: Edge(ts, i, j) && Stops(ts[j].status)
  }

  /** Nothing is left to do for task i: its status is the one its dependencies ask for. */
  ghost predicate SettledAt(ts: seq<Task>, i: nat)
    requires i < |ts|
  {
    Unstarted(ts[i].status) ==>
      (Eligible(ts, i) ==> ts[i].status.Ready?) && (Obstructed(ts, i) ==> ts[i].status.Blocked?)
  }

  ghost predicate Settled(ts: seq<Task>) {
    forall i :: 0 <= i < |ts| ==> SettledAt(ts, i)
  }

  /** A READY task may be started: all it depends on exists and is finished. */
  ghost predicate ReadySafe(ts: seq<Task>) {
    forall i :: 0 <= i < |ts| && ts[i].status.Ready? ==> Eligible(ts, i)
  }

  /** The two lists differ only in the statuses of unstarted tasks. */
  ghost predicate SameStarted(ts: seq<Task>, us: seq<Task>) {
    |ts| == |us| &&
    forall i :: 0 <= i < |ts| ==>
      && us[i].id == ts[i].id && us[i].dependsOn == ts[i].dependsOn
      && (Unstarted(us[i].status) <==> Unstarted(ts[i].status))
      && (!Unstarted(ts[i].status) ==> us[i].status == ts[i].status)
  }

  /** Task i itself cannot run: a dependency is missing or has failed. */
  ghost predicate Root(ts: seq<Task>, i: nat)
    requires i < |ts|
  {
    HasMissing(ts, i) || exists j: nat :: Edge(ts, i, j) && ts[j].status.Failed?
  }

  /** A dependency path through unstarted tasks. */
  ghost predicate UnstartedPath(ts: seq<Task>, p: seq<nat>) {
    && |p| > 0
    && (forall k :: 0 <= k < |p| ==> p[k] < |ts| && Unstarted(ts[p[k]].status))
    && (forall k :: 0 <= k < |p| - 1 ==> Edge(ts, p[k], p[k + 1]))
  }

  /** Such a path that ends at a missing id or a failed task. */
  ghost predicate BlockingPath(ts: seq<Task>, p: seq<nat>) {
    UnstartedPath(ts, p) && Root(ts, p[|p| - 1])
  }

  ghost predicate Doomed(ts: seq<Task>, i: nat) {
    exists p :: BlockingPath(ts, p) && p[0] == i
  }

  /** Such a path may also end at a task that is BLOCKED already. */
  ghost predicate Hindered(ts: seq<Task>, i: nat) {
    exists p :: UnstartedPath(ts, p) && p[0] == i && (Root(ts, p[|p| - 1]) || ts[p[|p| - 1]].status.Blocked?)
  }

  /** No BLOCKED task is stale; in particular this holds when there is none. */
  ghost predicate NoneStale(ts: seq<Task>) {
    forall i: nat :: i < |ts| && ts[i].status.Blocked? ==> Doomed(ts, i)
  }

  /** Every status in `us` has a reason in `ts`. */
  ghost predicate Justified(ts: seq<Task>, us: seq<Task>)
    requires |ts| == |us|
  {
    forall i :: 0 <= i < |ts| ==>
      && (us[i].status.Ready? ==> Eligible(ts, i) || ts[i].status.Ready?)
      && (us[i].status.Pending? ==> ts[i].status.Pending?)
      && (us[i].status.Blocked? ==> Hindered(ts, i))
  }

  /** `us` is an acceptable result of resolving `ts`. */
  ghost predicate Resolved(ts: seq<Task>, us: seq<Task>) {
    SameStarted(ts, us) && Settled(us) && Justified(ts, us)
  }

  function StatusOf(ts: seq<Task>): PlanStatus {
    if ts == [] then Draft
    else if forall t :: t in ts ==> Finished(t.status) then Completed
    else if (exists t :: t in ts && t.status.Failed?) && !(exists t :: t in ts && InFlight(t.status))
    then PlanStatus.Failed
    else if exists t :: t in ts && InFlight(t.status) then Active
    else Draft
  }

  /** What a plan status says of the tasks, whatever the graph. */
  ghost predicate StatusFits(ts: seq<Task>, status: PlanStatus) {
    && (status == Completed <==>
          ts != [] && forall i :: 0 <= i < |ts| ==> ts[i].status.Done? || ts[i].status.Incomplete?)
    && (status == Active <==> exists i :: 0 <= i < |ts| && (ts[i].status.Running? || ts[i].status.Ready?))
    && (status == PlanStatus.Failed <==>
          && (exists i :: 0 <= i < |ts| && ts[i].status.Failed?)
          && forall i :: 0 <= i < |ts| ==> !ts[i].status.Running? && !ts[i].status.Ready?)
    && (status == Draft <==> status != Completed && status != Active && status != PlanStatus.Failed)
  }

  lemma StatusOfFits(ts: seq<Task>)
    ensures StatusFits(ts, StatusOf(ts))
  {
    forall i | 0 <= i < |ts| ensures ts[i] in ts {}
    if t :| t in ts && !Finished(t.status) {
      var i :| 0 <= i < |ts| && ts[i] == t;
    }
    if t :| t in ts && t.status.Failed? {
      var i :| 0 <= i < |ts| && ts[i] == t;
    }
    if t :| t in ts && InFlight(t.status) {
      var i :| 0 <= i < |ts| && ts[i] == t;
    }
  }

  // ----------------------------------------------------------------- resolving

  lemma SameStartedEligible(ts: seq<Task>, us: seq<Task>, i: nat)
    requires SameStarted(ts, us) && i < |ts|
    ensures HasMissing(ts, i) <==> HasMissing(us, i)
    ensures Eligible(ts, i) <==> Eligible(us, i)
    ensures Root(ts, i) <==> Root(us, i)
    ensures forall j: nat :: Edge(ts, i, j) <==> Edge(us, i, j)
  {
    forall d ensures d in Ids(ts) <==> d in Ids(us) {
      if d in Ids(ts) {
        var k :| 0 <= k < |ts| && ts[k].id == d;
        assert us[k].id == d;
      }
      if d in Ids(us) {
        var k :| 0 <= k < |us| && us[k].id == d;
        assert ts[k].id == d;
      }
    }
    assert forall j: nat :: Edge(ts, i, j) <==> Edge(us, i, j);
  }

  /** Whether task i still has to change: to READY if eligible, to BLOCKED if not. */
  ghost predicate Outstanding(ts: seq<Task>, us: seq<Task>, i: nat)
    requires |ts| == |us| && i < |us|
  {
    Unstarted(us[i].status) && if Eligible(ts, i) then !us[i].status.Ready? else !us[i].status.Blocked?
  }

  /** The number of outstanding tasks among the first n: the measure of the resolve loop. */
  ghost function Unsettled(ts: seq<Task>, us: seq<Task>, n: nat): (m: nat)
    requires |ts| == |us| && n <= |us|
    ensures m <= n
  {
    if n == 0 then 0 else Unsettled(ts, us, n - 1) + if Outstanding(ts, us, n - 1) then 1 else 0
  }

  lemma {:induction false} UnsettledUpdate(ts: seq<Task>, us: seq<Task>, i: nat, t: Task, n: nat)
    requires |ts| == |us| && i < |us| && n <= |us|
    requires Outstanding(ts, us, i) && !Outstanding(ts, us[i := t], i)
    ensures Unsettled(ts, us[i := t], n) == Unsettled(ts, us, n) - if i < n then 1 else 0
  {
    if n == 0 {
    } else {
      UnsettledUpdate(ts, us, i, t, n - 1);
      assert n - 1 != i ==> (Outstanding(ts, us[i := t], n - 1) <==> Outstanding(ts, us, n - 1));
    }
  }

  lemma PathByDependency(ts: seq<Task>, i: nat, p: seq<nat>)
    requires UnstartedPath(ts, p) && Edge(ts, i, p[0]) && Unstarted(ts[i].status)
    ensures UnstartedPath(ts, [i] + p)
  {
    var q := [i] + p;
    forall k | 0 <= k < |q| - 1 ensures Edge(ts, q[k], q[k + 1]) {
      if k > 0 { assert Edge(ts, p[k - 1], p[k - 1 + 1]); }
    }
  }

  lemma DoomedByDependency(ts: seq<Task>, i: nat, j: nat)
    requires Edge(ts, i, j) && Unstarted(ts[i].status) && Doomed(ts, j)
    ensures Doomed(ts, i)
  {
    var p :| BlockingPath(ts, p) && p[0] == j;
    PathByDependency(ts, i, p);
    assert BlockingPath(ts, [i] + p);
  }

  lemma HinderedByDependency(ts: seq<Task>, i: nat, j: nat)
    requires Edge(ts, i, j) && Unstarted(ts[i].status) && Hindered(ts, j)
    ensures Hindered(ts, i)
  {
    var p :| UnstartedPath(ts, p) && p[0] == j && (Root(ts, p[|p| - 1]) || ts[p[|p| - 1]].status.Blocked?);
    PathByDependency(ts, i, p);
    assert ([i] + p)[|p|] == p[|p| - 1];
  }

  lemma DoomedByRoot(ts: seq<Task>, i: nat)
    requires i < |ts| && Unstarted(ts[i].status) && Root(ts, i)
    ensures Doomed(ts, i) && Hindered(ts, i)
  {
    assert BlockingPath(ts, [i]);
  }

  lemma JustifiedSelf(ts: seq<Task>)
    ensures SameStarted(ts, ts) && Justified(ts, ts)
  {
    forall i: nat | i < |ts| && ts[i].status.Blocked? ensures Hindered(ts, i) {
      assert UnstartedPath(ts, [i]);
    }
  }

  lemma RewriteIsJustified(ts: seq<Task>, us: seq<Task>, i: nat, s: TaskStatus)
    requires SameStarted(ts, us) && Justified(ts, us) && i < |us| && Unstarted(us[i].status)
    requires (s.Ready? && Eligible(us, i)) || (s.Blocked? && Obstructed(us, i))
    ensures s.Ready? <==> Eligible(ts, i)
    ensures s.Blocked? ==> Hindered(ts, i)
  {
    SameStartedEligible(ts, us, i);
    if s.Blocked? {
      if Root(ts, i) {
        DoomedByRoot(ts, i);
      } else {
        var j: nat :| Edge(us, i, j) && Stops(us[j].status);
        assert Edge(ts, i, j) && us[j].status.Blocked?;
        HinderedByDependency(ts, i, j);
      }
    }
  }

  /** One rewrite of the resolve loop: it keeps all that is known and settles one more task. */
  lemma RewriteKeeps(ts: seq<Task>, us: seq<Task>, i: nat, s: TaskStatus)
    requires SameStarted(ts, us) && Justified(ts, us) && i < |us|
    requires Unstarted(us[i].status) && us[i].status != s
    requires (s.Ready? && Eligible(us, i)) || (s.Blocked? && Obstructed(us, i))
    ensures var vs := us[i := us[i].(status := s)];
            && SameStarted(ts, vs) && Justified(ts, vs)
            && Unsettled(ts, vs, |vs|) == Unsettled(ts, us, |us|) - 1
  {
    RewriteIsJustified(ts, us, i, s);
    UnsettledUpdate(ts, us, i, us[i].(status := s), |us|);
  }

  // ------------------------------------------------ least fixpoint, order independence

  lemma RestOfPath(ts: seq<Task>, p: seq<nat>)
    requires UnstartedPath(ts, p) && |p| > 1
    ensures UnstartedPath(ts, p[1..]) && Edge(ts, p[0], p[1])
    ensures BlockingPath(ts, p) ==> BlockingPath(ts, p[1..])
  {
    var q := p[1..];
    assert Edge(ts, p[0], p[0 + 1]);
    forall k | 0 <= k < |q| - 1 ensures Edge(ts, q[k], q[k + 1]) {
      assert Edge(ts, p[k + 1], p[k + 1 + 1]);
    }
  }

  /** What waits, directly or not, for a doomed task is doomed. */
  lemma {:induction false} DoomSpreads(ts: seq<Task>, p: seq<nat>)
    requires UnstartedPath(ts, p) && Doomed(ts, p[|p| - 1])
    ensures Doomed(ts, p[0])
    decreases |p|
  {
    if |p| == 1 {
    } else {
      RestOfPath(ts, p);
      DoomSpreads(ts, p[1..]);
      DoomedByDependency(ts, p[0], p[1]);
    }
  }

  lemma HinderedIsDoomed(ts: seq<Task>, i: nat)
    requires NoneStale(ts) && Hindered(ts, i)
    ensures Doomed(ts, i)
  {
    var p :| UnstartedPath(ts, p) && p[0] == i && (Root(ts, p[|p| - 1]) || ts[p[|p| - 1]].status.Blocked?);
    if Root(ts, p[|p| - 1]) { DoomedByRoot(ts, p[|p| - 1]); }
    DoomSpreads(ts, p);
  }

  lemma {:induction false} PathIsBlocked(ts: seq<Task>, us: seq<Task>, p: seq<nat>)
    requires SameStarted(ts, us) && Settled(us) && BlockingPath(ts, p)
    ensures us[p[0]].status.Blocked?
    decreases |p|
  {
    var i := p[0];
    SameStartedEligible(ts, us, i);
    assert SettledAt(us, i);
    if |p| == 1 {
      assert Root(us, i);
    } else {
      RestOfPath(ts, p);
      PathIsBlocked(ts, us, p[1..]);
      assert Edge(us, i, p[1]);
    }
  }

  /** What waits for a task that is BLOCKED without need is BLOCKED as well. */
  ghost predicate Propagated(ts: seq<Task>) {
    forall i: nat, j: nat :: Edge(ts, i, j) && Unstarted(ts[i].status) && ts[j].status.Blocked? && Eligible(ts, j) ==>
      ts[i].status.Blocked?
  }

  /** The status each task must end with: a function of the input that never mentions task order. */
  ghost function Outcome(ts: seq<Task>, i: nat): TaskStatus
    requires i < |ts|
  {
    if !Unstarted(ts[i].status) then ts[i].status
    else if Eligible(ts, i) then Ready
    else if Hindered(ts, i) then Blocked
    else ts[i].status
  }

  /** What waits for an unstarted task is not eligible. */
  lemma WaitingNotEligible(ts: seq<Task>, i: nat, j: nat)
    requires Edge(ts, i, j) && Unstarted(ts[j].status)
    ensures !Eligible(ts, i)
  {
  }

  /** A BLOCKED task that may not start stays BLOCKED. */
  lemma StaysBlocked(ts: seq<Task>, us: seq<Task>, k: nat)
    requires Resolved(ts, us) && k < |ts| && ts[k].status.Blocked? && !Eligible(ts, k)
    ensures us[k].status.Blocked?
  {
  }

  lemma BlockedByDependency(ts: seq<Task>, us: seq<Task>, i: nat, j: nat)
    requires Resolved(ts, us) && Edge(ts, i, j) && Unstarted(ts[i].status) && us[j].status.Blocked?
    ensures us[i].status.Blocked?
  {
    SameStartedEligible(ts, us, i);
    assert Edge(us, i, j) && SettledAt(us, i);
  }

  /** Along a hindering path every task ends BLOCKED, unless the path is a single task that may start. */
  lemma {:induction false} HinderedPathBlocked(ts: seq<Task>, us: seq<Task>, p: seq<nat>)
    requires Resolved(ts, us) && Propagated(ts) && UnstartedPath(ts, p)
    requires Root(ts, p[|p| - 1]) || ts[p[|p| - 1]].status.Blocked?
    ensures us[p[0]].status.Blocked? || (|p| == 1 && Eligible(ts, p[0]))
    decreases |p|
  {
    if Root(ts, p[|p| - 1]) {
      PathIsBlocked(ts, us, p);
    } else if |p| == 1 {
      if !Eligible(ts, p[0]) { StaysBlocked(ts, us, p[0]); }
    } else {
      RestOfPath(ts, p);
      HinderedPathBlocked(ts, us, p[1..]);
      WaitingNotEligible(ts, p[0], p[1]);
      if us[p[1]].status.Blocked? {
        BlockedByDependency(ts, us, p[0], p[1]);
      } else {
        StaysBlocked(ts, us, p[0]);
      }
    }
  }

  /** The result is determined: which unstarted tasks end BLOCKED depends on the input alone. */
  lemma FinalStatus(ts: seq<Task>, us: seq<Task>, i: nat)
    requires Resolved(ts, us) && Propagated(ts) && i < |ts|
    ensures us[i].status.Blocked? <==> Unstarted(ts[i].status) && !Eligible(ts, i) && Hindered(ts, i)
    ensures us[i] == ts[i].(status := Outcome(ts, i))
  {
    if Unstarted(ts[i].status) {
      SameStartedEligible(ts, us, i);
      assert SettledAt(us, i);
      if Hindered(ts, i) {
        var p :| UnstartedPath(ts, p) && p[0] == i && (Root(ts, p[|p| - 1]) || ts[p[|p| - 1]].status.Blocked?);
        HinderedPathBlocked(ts, us, p);
      }
    }
  }

  /** Two results of resolving one list are the same list. */
  lemma ResolveDeterministic(ts: seq<Task>, us: seq<Task>, us': seq<Task>)
    requires Resolved(ts, us) && Resolved(ts, us') && Propagated(ts)
    ensures us == us'
  {
    forall i: nat | i < |ts| ensures us[i] == us'[i] {
      FinalStatus(ts, us, i);
      FinalStatus(ts, us', i);
    }
  }

  lemma DoomedNotEligible(ts: seq<Task>, i: nat)
    requires Doomed(ts, i)
    ensures !Eligible(ts, i) && Hindered(ts, i)
  {
    var p :| BlockingPath(ts, p) && p[0] == i;
    if |p| > 1 {
      RestOfPath(ts, p);
      WaitingNotEligible(ts, i, p[1]);
    }
  }

  lemma NoneStalePropagated(ts: seq<Task>)
    requires NoneStale(ts)
    ensures Propagated(ts)
  {
    forall j: nat | j < |ts| && ts[j].status.Blocked? ensures !Eligible(ts, j) { DoomedNotEligible(ts, j); }
  }

  /** Unless a BLOCKED task was stale before, the result is the least fixpoint: BLOCKED iff doomed. */
  lemma LeastFixpoint(ts: seq<Task>, us: seq<Task>, i: nat)
    requires Resolved(ts, us) && NoneStale(ts) && i < |ts|
    ensures us[i].status.Blocked? <==> Unstarted(ts[i].status) && Doomed(ts, i)
    ensures us[i].status == Outcome(ts, i)
  {
    NoneStalePropagated(ts);
    FinalStatus(ts, us, i);
    if Doomed(ts, i) { DoomedNotEligible(ts, i); }
    if Hindered(ts, i) { HinderedIsDoomed(ts, i); }
  }

  lemma SameStartedDoomed(ts: seq<Task>, us: seq<Task>, i: nat)
    requires SameStarted(ts, us) && Doomed(ts, i)
    ensures Doomed(us, i)
  {
    var p :| BlockingPath(ts, p) && p[0] == i;
    SameStartedEligible(ts, us, p[|p| - 1]);
    forall k | 0 <= k < |p| - 1 ensures Edge(us, p[k], p[k + 1]) {
      SameStartedEligible(ts, us, p[k]);
      assert Edge(ts, p[k], p[k + 1]);
    }
    assert BlockingPath(us, p);
  }

  lemma SameStartedBack(ts: seq<Task>, us: seq<Task>)
    requires SameStarted(ts, us)
    ensures SameStarted(us, ts)
  {
  }

  // ----------------------------------------------------- when BLOCKED is not stale

  /** Every BLOCKED task has a missing or failed task in its way, or may start at once. */
  ghost predicate Accountable(ts: seq<Task>) {
    forall k: nat :: k < |ts| && ts[k].status.Blocked? ==> Doomed(ts, k) || Eligible(ts, k)
  }

  lemma {:induction false} HinderedIsAccountable(ts: seq<Task>, p: seq<nat>)
    requires Accountable(ts) && Propagated(ts) && UnstartedPath(ts, p) && ts[p[|p| - 1]].status.Blocked?
    ensures Doomed(ts, p[0]) || (|p| == 1 && Eligible(ts, p[0]))
    decreases |p|
  {
    if |p| == 1 {
    } else {
      RestOfPath(ts, p);
      HinderedIsAccountable(ts, p[1..]);
      if Doomed(ts, p[1]) { DoomedByDependency(ts, p[0], p[1]); }
    }
  }

  /** Resolving leaves no stale BLOCKED task exactly if every BLOCKED task it is given is accountable. */
  lemma ResolveStale(ts: seq<Task>, us: seq<Task>)
    requires Resolved(ts, us) && Propagated(ts)
    ensures NoneStale(us) <==> Accountable(ts)
  {
    SameStartedBack(ts, us);
    if NoneStale(us) {
      forall k: nat | k < |ts| && ts[k].status.Blocked? && !Eligible(ts, k) ensures Doomed(ts, k) {
        StaysBlocked(ts, us, k);
        SameStartedDoomed(us, ts, k);
      }
    }
    if Accountable(ts) {
      forall i: nat | i < |us| && us[i].status.Blocked? ensures Doomed(us, i) {
        ResultAccountable(ts, us, i);
        SameStartedDoomed(ts, us, i);
      }
    }
  }

  lemma ResultAccountable(ts: seq<Task>, us: seq<Task>, i: nat)
    requires Resolved(ts, us) && Propagated(ts) && Accountable(ts) && i < |us| && us[i].status.Blocked?
    ensures Doomed(ts, i)
  {
    var p :| UnstartedPath(ts, p) && p[0] == i && (Root(ts, p[|p| - 1]) || ts[p[|p| - 1]].status.Blocked?);
    if Root(ts, p[|p| - 1]) {
      DoomedByRoot(ts, p[|p| - 1]);
      DoomSpreads(ts, p);
    } else {
      HinderedIsAccountable(ts, p);
      SameStartedEligible(ts, us, i);
      assert SettledAt(us, i);
    }
  }

  /** BLOCKED means doomed, and nothing else. */
  ghost predicate Exact(ts: seq<Task>) {
    forall i: nat :: i < |ts| ==> (ts[i].status.Blocked? <==> Unstarted(ts[i].status) && Doomed(ts, i))
  }

  lemma SettledExact(ts: seq<Task>)
    requires Settled(ts)
    ensures Exact(ts) <==> NoneStale(ts)
  {
    forall i: nat | i < |ts| && Unstarted(ts[i].status) && Doomed(ts, i) ensures ts[i].status.Blocked? {
      var p :| BlockingPath(ts, p) && p[0] == i;
      PathIsBlocked(ts, ts, p);
    }
  }

  /** `perm` lists the positions of `us` in `ts`: the same tasks in another order. */
  ghost predicate Reordered(ts: seq<Task>, us: seq<Task>, perm: seq<nat>, inv: seq<nat>) {
    && |ts| == |us| == |perm| == |inv|
    && (forall k :: 0 <= k < |us| ==> perm[k] < |ts| && us[k] == ts[perm[k]] && inv[perm[k]] == k)
    && (forall k :: 0 <= k < |ts| ==> inv[k] < |us| && ts[k] == us[inv[k]] && perm[inv[k]] == k)
  }

  lemma ReorderedLocal(ts: seq<Task>, us: seq<Task>, perm: seq<nat>, inv: seq<nat>, k: nat)
    requires Reordered(ts, us, perm, inv) && k < |us|
    ensures HasMissing(us, k) <==> HasMissing(ts, perm[k])
    ensures Eligible(us, k) <==> Eligible(ts, perm[k])
    ensures Root(us, k) ==> Root(ts, perm[k])
  {
    forall d ensures d in Ids(ts) <==> d in Ids(us) {
      if d in Ids(ts) {
        var m :| 0 <= m < |ts| && ts[m].id == d;
        assert us[inv[m]].id == d;
      }
      if d in Ids(us) {
        var m :| 0 <= m < |us| && us[m].id == d;
        assert ts[perm[m]].id == d;
      }
    }
    forall j: nat | Edge(us, k, j) ensures Edge(ts, perm[k], perm[j]) {}
    forall j: nat | Edge(ts, perm[k], j) ensures Edge(us, k, inv[j]) {}
  }

  lemma ReorderedPath(ts: seq<Task>, us: seq<Task>, perm: seq<nat>, inv: seq<nat>, p: seq<nat>) returns (q: seq<nat>)
    requires Reordered(ts, us, perm, inv) && UnstartedPath(us, p)
    ensures UnstartedPath(ts, q) && |q| == |p| && q[0] == perm[p[0]] && q[|q| - 1] == perm[p[|p| - 1]]
  {
    q := seq(|p|, m requires 0 <= m < |p| => perm[p[m]]);
    forall m | 0 <= m < |q| - 1 ensures Edge(ts, q[m], q[m + 1]) {
      assert Edge(us, p[m], p[m + 1]);
    }
  }

  lemma ReorderedHindered(ts: seq<Task>, us: seq<Task>, perm: seq<nat>, inv: seq<nat>, k: nat)
    requires Reordered(ts, us, perm, inv) && k < |us| && Hindered(us, k)
    ensures Hindered(ts, perm[k])
  {
    var p :| UnstartedPath(us, p) && p[0] == k && (Root(us, p[|p| - 1]) || us[p[|p| - 1]].status.Blocked?);
    ReorderedLocal(ts, us, perm, inv, p[|p| - 1]);
    var q := ReorderedPath(ts, us, perm, inv, p);
  }

  lemma ReorderedPropagated(ts: seq<Task>, us: seq<Task>, perm: seq<nat>, inv: seq<nat>)
    requires Reordered(ts, us, perm, inv) && Propagated(ts)
    ensures Propagated(us)
  {
    forall i: nat, j: nat | Edge(us, i, j) && Unstarted(us[i].status) && us[j].status.Blocked? && Eligible(us, j)
      ensures us[i].status.Blocked?
    {
      ReorderedLocal(ts, us, perm, inv, j);
      assert Edge(ts, perm[i], perm[j]);
    }
  }

  /** Resolving the same tasks listed in another order gives every task the same status. */
  lemma OrderIndependent(ts: seq<Task>, ts': seq<Task>, us: seq<Task>, us': seq<Task>,
                         perm: seq<nat>, inv: seq<nat>, k: nat)
    requires Resolved(ts, ts') && Resolved(us, us') && Propagated(ts)
    requires Reordered(ts, us, perm, inv) && k < |us|
    ensures us'[k] == ts'[perm[k]]
  {
    ReorderedPropagated(ts, us, perm, inv);
    FinalStatus(ts, ts', perm[k]);
    FinalStatus(us, us', k);
    ReorderedLocal(ts, us, perm, inv, k);
    if Hindered(us, k) { ReorderedHindered(ts, us, perm, inv, k); }
    if Hindered(ts, perm[k]) {
      assert Reordered(us, ts, inv, perm);
      ReorderedHindered(us, ts, inv, perm, perm[k]);
    }
  }

  // -------------------------------------------------------------- READY is safe

  /** A READY task whose dependencies neither have all finished nor stand in its way. */
  ghost predicate ReadyTooSoon(ts: seq<Task>, i: nat)
    requires i < |ts|
  {
    ts[i].status.Ready? && !Eligible(ts, i) && !Hindered(ts, i)
  }

  ghost predicate NoneTooSoon(ts: seq<Task>) {
    forall i: nat :: i < |ts| ==> !ReadyTooSoon(ts, i)
  }

  /** Resolving a list makes READY safe exactly when no task in it is READY too soon. */
  lemma EntryCondition(ts: seq<Task>, us: seq<Task>)
    requires Resolved(ts, us) && Propagated(ts)
    ensures ReadySafe(us) <==> NoneTooSoon(ts)
  {
    forall i: nat | i < |ts|
      ensures (us[i].status.Ready? ==> Eligible(us, i)) <==> !ReadyTooSoon(ts, i)
    {
      FinalStatus(ts, us, i);
      SameStartedEligible(ts, us, i);
    }
  }

  /** A list holding a task handed in READY while its dependency is still to run. */
  lemma ReadyHandedInIsUnsafe()
    ensures var ts := [Task("a", [], Pending), Task("b", ["a"], Ready)];
            Propagated(ts) && ReadyTooSoon(ts, 1)
  {
    var ts := [Task("a", [], Pending), Task("b", ["a"], Ready)];
    assert "a" in Ids(ts) by { assert ts[0].id == "a"; }
    assert Edge(ts, 1, 0);
    assert !Eligible(ts, 1);
    assert forall i: nat, j: nat :: Edge(ts, i, j) ==> !ts[j].status.Failed?;
    assert forall i: nat :: i < |ts| ==> !Root(ts, i);
  }

  /** Resolving keeps READY safe when every READY task is eligible or has a missing or failed dependency. */
  lemma ResolveReadySafe(ts: seq<Task>, us: seq<Task>)
    requires Resolved(ts, us)
    requires forall i :: 0 <= i < |ts| && ts[i].status.Ready? ==> Eligible(ts, i) || Root(ts, i)
    ensures ReadySafe(us)
  {
    forall i: nat | i < |us| && us[i].status.Ready? ensures Eligible(us, i) {
      SameStartedEligible(ts, us, i);
      assert SettledAt(us, i);
    }
  }

  // ---------------------------------------------------------- no silent deadlock

  /** A topological numbering: every task comes after all it depends on. */
  ghost predicate Ranked(ts: seq<Task>, rank: seq<nat>) {
    |rank| == |ts| && forall i: nat, j: nat :: Edge(ts, i, j) ==> rank[j] < rank[i]
  }

  ghost predicate Acyclic(ts: seq<Task>) {
    exists rank :: Ranked(ts, rank)
  }

  /** A dependency path from task i down to a failed task. */
  ghost predicate FailedAncestor(ts: seq<Task>, i: nat) {
    exists p: seq<nat> ::
      && |p| > 0 && p[0] == i
      && (forall k :: 0 <= k < |p| ==> p[k] < |ts|)
      && (forall k :: 0 <= k < |p| - 1 ==> Edge(ts, p[k], p[k + 1]))
      && ts[p[|p| - 1]].status.Failed?
  }

  lemma {:induction false} StuckIsBlocked(ts: seq<Task>, rank: seq<nat>, i: nat)
    requires Settled(ts) && NoMissing(ts) && Ranked(ts, rank) && i < |ts|
    requires forall k :: 0 <= k < |ts| ==> !InFlight(ts[k].status)
    requires !Finished(ts[i].status)
    ensures FailedAncestor(ts, i)
    ensures !ts[i].status.Failed? ==> ts[i].status.Blocked?
    decreases rank[i]
  {
    if ts[i].status.Failed? {
      var p: seq<nat> := [i];
      assert p[0] == i;
    } else {
      assert SettledAt(ts, i) && !Eligible(ts, i);
      var j: nat :| Edge(ts, i, j) && !Finished(ts[j].status);
      StuckIsBlocked(ts, rank, j);
      var p: seq<nat> :|
        && |p| > 0 && p[0] == j
        && (forall k :: 0 <= k < |p| ==> p[k] < |ts|)
        && (forall k :: 0 <= k < |p| - 1 ==> Edge(ts, p[k], p[k + 1]))
        && ts[p[|p| - 1]].status.Failed?;
      var q := [i] + p;
      assert q[0] == i;
      forall k | 0 <= k < |q| - 1 ensures Edge(ts, q[k], q[k + 1]) {
        if k > 0 { assert Edge(ts, p[k - 1], p[k - 1 + 1]); }
      }
    }
  }

  /** The three ways an acyclic plan can stand; there is no fourth. */
  ghost predicate Accounted(ts: seq<Task>, status: PlanStatus) {
    || (status == Completed && forall i :: 0 <= i < |ts| ==> Finished(ts[i].status))
    || (status == Active && exists i :: 0 <= i < |ts| && InFlight(ts[i].status))
    || (status == PlanStatus.Failed
        && (forall i :: 0 <= i < |ts| ==> !InFlight(ts[i].status))
        && (exists i :: 0 <= i < |ts| && ts[i].status.Failed?)
        && forall i :: 0 <= i < |ts| && !Finished(ts[i].status) && !ts[i].status.Failed? ==>
             ts[i].status.Blocked? && FailedAncestor(ts, i))
  }

  lemma SettledIsAccounted(ts: seq<Task>)
    requires Settled(ts) && NoMissing(ts) && Acyclic(ts) && ts != []
    ensures Accounted(ts, StatusOf(ts))
  {
    var rank :| Ranked(ts, rank);
    if (forall k :: 0 <= k < |ts| ==> !InFlight(ts[k].status)) && StatusOf(ts) != Completed {
      var t :| t in ts && !Finished(t.status);
      var i :| 0 <= i < |ts| && ts[i] == t;
      StuckIsBlocked(ts, rank, i);
      var p: seq<nat> :|
        && |p| > 0 && p[0] == i
        && (forall k :: 0 <= k < |p| ==> p[k] < |ts|)
        && (forall k :: 0 <= k < |p| - 1 ==> Edge(ts, p[k], p[k + 1]))
        && ts[p[|p| - 1]].status.Failed?;
      assert ts[p[|p| - 1]] in ts;
      forall k: nat | k < |ts| && !Finished(ts[k].status) && !ts[k].status.Failed?
        ensures ts[k].status.Blocked? && FailedAncestor(ts, k)
      {
        StuckIsBlocked(ts, rank, k);
      }
    }
  }

  // ------------------------------------------------------------ plans that are stuck

  /** A dependency path of any tasks. */
  ghost predicate DependencyPath(ts: seq<Task>, p: seq<nat>) {
    && |p| > 0 && (forall k :: 0 <= k < |p| ==> p[k] < |ts|)
    && forall k :: 0 <= k < |p| - 1 ==> Edge(ts, p[k], p[k + 1])
  }

  /** A dependency path leads from task i to a missing id, or comes back to a task that it has been at. */
  ghost predicate Astray(ts: seq<Task>, i: nat) {
    exists p :: DependencyPath(ts, p) && p[0] == i && (HasMissing(ts, p[|p| - 1]) || p[|p| - 1] in p[..|p| - 1])
  }

  function Indexes(n: nat): (s: set<nat>)
    ensures forall k: nat :: k in s <==> k < n
  {
    if n == 0 then {} else Indexes(n - 1) + {n - 1}
  }

  lemma {:induction false} FollowUnfinished(ts: seq<Task>, p: seq<nat>, unseen: set<nat>)
    requires Settled(ts) && DependencyPath(ts, p) && !Finished(ts[p[|p| - 1]].status)
    requires forall k :: 0 <= k < |ts| ==> Finished(ts[k].status) || Unstarted(ts[k].status)
    requires forall k :: 0 <= k < |ts| ==> !ts[k].status.Ready?
    requires forall k: nat :: k < |ts| ==> k in unseen || k in p
    ensures Astray(ts, p[0])
    decreases unseen
  {
    var last := p[|p| - 1];
    if HasMissing(ts, last) {
    } else {
      assert SettledAt(ts, last) && !Eligible(ts, last);
      var j: nat :| Edge(ts, last, j) && !Finished(ts[j].status);
      var q := p + [j];
      forall k | 0 <= k < |q| - 1 ensures Edge(ts, q[k], q[k + 1]) {
        if k < |p| - 1 { assert Edge(ts, p[k], p[k + 1]); }
      }
      if j in p {
        assert q[..|q| - 1] == p && q[0] == p[0];
      } else {
        FollowUnfinished(ts, q, unseen - {j});
      }
    }
  }

  /** A settled non-empty plan is a draft only where tasks wait for a missing one or for each other. */
  lemma DraftIsAstray(ts: seq<Task>, i: nat)
    requires Settled(ts) && StatusFits(ts, Draft) && i < |ts| && !Finished(ts[i].status)
    ensures Astray(ts, i)
  {
    forall k | 0 <= k < |ts|
      ensures (Finished(ts[k].status) || Unstarted(ts[k].status)) && !ts[k].status.Ready?
    {
    }
    var p: seq<nat> := [i];
    FollowUnfinished(ts, p, Indexes(|ts|));
  }
}
