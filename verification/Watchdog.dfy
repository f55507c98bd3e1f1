/**
 The ACP watchdog against transport generations.

 A watchdog judges a stall without the lifecycle lock, waits for that lock while
 other threads may start, close or restart the transport, judges again, and only
 then kills. Each event below is one critical section of one thread, so a run is
 any interleaving of any number of watchdog and caller threads.
 */
module Watchdog {
  import opened Wrappers

  type ProcId = nat

  datatype Trigger = ProcDead | InflightDeadline | ControlDeadline

  /**
   The shared transport state. `inflight` is the deadline of the unfinished
   in-flight call, `callDeadline` is 0 when no control call has one, `exited`
   are the processes with a return code, and `spawned` counts all processes.
   */
  datatype Transport = Transport(
    generation: nat, proc: Option<ProcId>, exited: set<ProcId>, spawned: nat,
    inflight: Option<real>, callDeadline: real, lastRequest: real, pending: bool, prompts: bool,
    now: real, timeout: real, initialized: bool, healthy: bool, terminated: bool)

  predicate Dead(t: Transport, p: Option<ProcId>) {
    p.Some? && p.value in t.exited
  }

  /** The first look, taken without the lifecycle lock. */
  function Check(t: Transport): Option<Trigger> {
    if t.inflight.None? then None
    else if Dead(t, t.proc) then Some(ProcDead)
    else if t.now > t.inflight.value then Some(InflightDeadline)
    else if t.pending && !t.prompts && ControlOverdue(t) then Some(ControlDeadline)
    else None
  }

  predicate ControlOverdue(t: Transport) {
    if t.callDeadline != 0.0 then t.now > t.callDeadline else t.now - t.lastRequest > t.timeout
  }

  /** The second look, taken under the lifecycle lock. */
  predicate StillStalled(t: Transport, trigger: Trigger, observed: Option<ProcId>) {
    match trigger
    case ProcDead => Dead(t, observed)
    case InflightDeadline => t.inflight.Some? && t.now > t.inflight.value
    case ControlDeadline => t.pending && !t.prompts && ControlOverdue(t)
  }

  datatype Observation = Observation(trigger: Trigger, proc: Option<ProcId>, gen: nat)

  /** Where a watchdog thread is. */
  datatype Phase =
    | Resting
    | Waiting(obs: Observation)    // wants the lifecycle lock
    | Judging(obs: Observation)    // holds it
    | Condemned(obs: Observation)  // has confirmed the stall
    | Killing(obs: Observation)    // has released the callers

  datatype Owner = Dog(d: nat) | Caller(c: nat)

  datatype System = System(t: Transport, lock: Option<Owner>, dogs: map<nat, Phase>)

  datatype Event =
    | Tick(now: real)
    | Exit(p: ProcId)
    | CallStarts(deadline: real)
    | CallEnds
    | Traffic(pending: bool, prompts: bool, callDeadline: real, lastRequest: real)
    | Lock(c: nat)
    | Unlock(c: nat)
    | CleanupStale(c: nat)  // kill what is left of the old transport
    | Bump(c: nat)          // a new generation begins
    | Spawn(c: nat)
    | Started(c: nat)
    | CloseKill(c: nat)
    | CloseClear(c: nat)
    | Observe(d: nat)
    | DogLock(d: nat)
    | Judge(d: nat)
    | Unblock(d: nat)
    | DogKill(d: nat)

  function PhaseOf(s: System, d: nat): Phase {
    if d in s.dogs then s.dogs[d] else Resting
  }

  function Killed(t: Transport): Transport {
    if t.proc.Some? && t.proc.value !in t.exited then t.(exited := t.exited + {t.proc.value}, terminated := true) else t
  }

  predicate Holds(s: System, c: nat) {
    s.lock == Some(Caller(c))
  }

  predicate Stale(t: Transport, obs: Observation) {
    t.generation != obs.gen || t.proc != obs.proc
  }

  predicate Step(s: System, ev: Event, s': System) {
    match ev
    case Tick(now) => now >= s.t.now && s' == s.(t := s.t.(now := now))
    case Exit(p) => p < s.t.spawned && s' == s.(t := s.t.(exited := s.t.exited + {p}))
    case CallStarts(deadline) => s' == s.(t := s.t.(inflight := Some(deadline)))
    case CallEnds => s' == s.(t := s.t.(inflight := None))
    case Traffic(pending, prompts, callDeadline, lastRequest) =>
      s' == s.(t := s.t.(pending := pending, prompts := prompts, callDeadline := callDeadline,
                         lastRequest := lastRequest))
    case Lock(c) => s.lock.None? && s' == s.(lock := Some(Caller(c)))
    case Unlock(c) => Holds(s, c) && s' == s.(lock := None)
    case CleanupStale(c) => Holds(s, c) && s' == s.(t := Killed(s.t).(proc := None))
    case Bump(c) => Holds(s, c) && s' == s.(t := s.t.(generation := s.t.generation + 1, prompts := false))
    case Spawn(c) =>
      Holds(s, c) && s' == s.(t := s.t.(proc := Some(s.t.spawned), spawned := s.t.spawned + 1, terminated := false))
    case Started(c) => Holds(s, c) && s' == s.(t := s.t.(initialized := true, healthy := true))
    case CloseKill(c) =>
      Holds(s, c) && s' == s.(t := Killed(s.t).(terminated := true, initialized := false, healthy := false))
    case CloseClear(c) => Holds(s, c) && s' == s.(t := s.t.(proc := None))
    case Observe(d) =>
      PhaseOf(s, d).Resting? &&
      var found := Check(s.t);
      s' == if found.Some?
            then s.(dogs := s.dogs[d := Waiting(Observation(found.value, s.t.proc, s.t.generation))])
            else s
    case DogLock(d) =>
      PhaseOf(s, d).Waiting? && s.lock.None? &&
      s' == s.(lock := Some(Dog(d)), dogs := s.dogs[d := Judging(PhaseOf(s, d).obs)])
    case Judge(d) =>
      PhaseOf(s, d).Judging? &&
      var obs := PhaseOf(s, d).obs;
      s' == if Stale(s.t, obs) || !StillStalled(s.t, obs.trigger, obs.proc)
            then s.(lock := None, dogs := s.dogs[d := Resting])
            else s.(dogs := s.dogs[d := Condemned(obs)])
    case Unblock(d) =>
      PhaseOf(s, d).Condemned? &&
      s' == s.(t := s.t.(inflight := None, pending := false), dogs := s.dogs[d := Killing(PhaseOf(s, d).obs)])
    case DogKill(d) =>
      PhaseOf(s, d).Killing? &&
      s' == s.(t := Killed(s.t).(healthy := false, initialized := false), lock := None, dogs := s.dogs[d := Resting])
  }

  ghost predicate Initial(s: System) {
    s.lock.None? && s.dogs == map[] && s.t.proc.None? && s.t.exited == {} && s.t.spawned == 0
  }

  ghost predicate StepAt(ss: seq<System>, evs: seq<Event>, k: nat) {
    k < |evs| && k + 1 < |ss| && Step(ss[k], evs[k], ss[k + 1])
  }

  ghost predicate Run(ss: seq<System>, evs: seq<Event>) {
    |ss| == |evs| + 1 && Initial(ss[0]) && forall k: nat :: k < |evs| ==> StepAt(ss, evs, k)
  }

  // ------------------------------------------------------------------- invariant

  /** A watchdog past the lock holds it; past its judgement it faces what it observed. */
  ghost predicate DogSound(s: System, d: nat) {
    var phase := PhaseOf(s, d);
    && (phase.Judging? || phase.Condemned? || phase.Killing? ==> s.lock == Some(Dog(d)))
    && (phase.Condemned? || phase.Killing? ==> !Stale(s.t, phase.obs))
  }

  ghost predicate Inv(s: System) {
    forall d :: DogSound(s, d)
  }

  lemma StepKeepsInv(s: System, ev: Event, s': System)
    requires Inv(s) && Step(s, ev, s')
    ensures Inv(s')
  {
    forall d ensures DogSound(s', d) {
      assert DogSound(s, d);
      if ev.Judge? || ev.Unblock? || ev.DogKill? || ev.DogLock? || ev.Observe? { assert DogSound(s, ev.d); }
    }
  }

  lemma {:induction false} RunInv(ss: seq<System>, evs: seq<Event>, k: nat)
    requires Run(ss, evs) && k < |ss|
    ensures Inv(ss[k])
    decreases k
  {
    if k == 0 {
    } else {
      RunInv(ss, evs, k - 1);
      assert StepAt(ss, evs, k - 1);
      StepKeepsInv(ss[k - 1], evs[k - 1], ss[k]);
    }
  }

  // --------------------------------------------------------- tracing a kill back

  /** At event i the watchdog observed exactly this. */
  ghost predicate ObservedAt(ss: seq<System>, evs: seq<Event>, i: nat, d: nat, obs: Observation) {
    && i < |evs| && i < |ss| && evs[i] == Observe(d)
    && Check(ss[i].t) == Some(obs.trigger) && ss[i].t.proc == obs.proc && ss[i].t.generation == obs.gen
  }

  /** At event j the watchdog, holding the lifecycle lock, found the observation current and the stall standing. */
  ghost predicate ConfirmedAt(ss: seq<System>, evs: seq<Event>, j: nat, d: nat, obs: Observation) {
    && j < |evs| && j < |ss| && evs[j] == Judge(d)
    && ss[j].lock == Some(Dog(d)) && PhaseOf(ss[j], d) == Judging(obs)
    && !Stale(ss[j].t, obs) && StillStalled(ss[j].t, obs.trigger, obs.proc)
  }

  lemma StepOfPhase(s: System, ev: Event, s': System, d: nat)
    requires Step(s, ev, s') && !PhaseOf(s', d).Resting?
    ensures ev == Observe(d) || (!PhaseOf(s, d).Resting? && PhaseOf(s, d).obs == PhaseOf(s', d).obs)
    ensures ev == Observe(d) && PhaseOf(s', d) != PhaseOf(s, d) ==>
              var obs := PhaseOf(s', d).obs;
              Check(s.t) == Some(obs.trigger) && s.t.proc == obs.proc && s.t.generation == obs.gen
    ensures PhaseOf(s', d).Condemned? || PhaseOf(s', d).Killing? ==>
              PhaseOf(s, d).Condemned? || PhaseOf(s, d).Killing? || ev == Judge(d)
    ensures ev == Judge(d) && PhaseOf(s', d).Condemned? ==>
              && PhaseOf(s, d).Judging? && !Stale(s.t, PhaseOf(s, d).obs)
              && StillStalled(s.t, PhaseOf(s, d).obs.trigger, PhaseOf(s, d).obs.proc)
  {
  }

  lemma {:induction false} FindObservation(ss: seq<System>, evs: seq<Event>, k: nat, d: nat) returns (i: nat)
    requires Run(ss, evs) && k < |ss| && !PhaseOf(ss[k], d).Resting?
    ensures i < k && ObservedAt(ss, evs, i, d, PhaseOf(ss[k], d).obs)
    decreases k
  {
    assert StepAt(ss, evs, k - 1);
    StepOfPhase(ss[k - 1], evs[k - 1], ss[k], d);
    if PhaseOf(ss[k - 1], d).Resting? {
      i := k - 1;
    } else {
      i := FindObservation(ss, evs, k - 1, d);
    }
  }

  lemma {:induction false} FindJudgement(ss: seq<System>, evs: seq<Event>, k: nat, d: nat) returns (j: nat)
    requires Run(ss, evs) && k < |ss| && (PhaseOf(ss[k], d).Condemned? || PhaseOf(ss[k], d).Killing?)
    ensures j < k && ConfirmedAt(ss, evs, j, d, PhaseOf(ss[k], d).obs)
    decreases k
  {
    assert StepAt(ss, evs, k - 1);
    StepOfPhase(ss[k - 1], evs[k - 1], ss[k], d);
    if PhaseOf(ss[k - 1], d).Judging? {
      RunInv(ss, evs, k - 1);
      assert DogSound(ss[k - 1], d);
      j := k - 1;
    } else {
      j := FindJudgement(ss, evs, k - 1, d);
    }
  }

  lemma {:induction false} GenerationGrows(ss: seq<System>, evs: seq<Event>, i: nat, k: nat)
    requires Run(ss, evs) && i <= k < |ss|
    ensures ss[i].t.generation <= ss[k].t.generation
    ensures forall m :: i <= m < k && evs[m].Bump? ==> ss[i].t.generation < ss[k].t.generation
    decreases k
  {
    if i == k {
    } else {
      GenerationGrows(ss, evs, i, k - 1);
      assert StepAt(ss, evs, k - 1);
    }
  }

  lemma {:induction false} ExitedGrows(ss: seq<System>, evs: seq<Event>, i: nat, k: nat)
    requires Run(ss, evs) && i <= k < |ss|
    ensures ss[i].t.exited <= ss[k].t.exited
    decreases k
  {
    if i == k {
    } else {
      ExitedGrows(ss, evs, i, k - 1);
      assert StepAt(ss, evs, k - 1);
    }
  }

  /**
   A process that recovery kills is the one whose stall was observed, in the same
   generation; the stall was confirmed under the lifecycle lock, and no new
   transport was started between the observation and the kill.
   */
  lemma KillsWhatItObserved(ss: seq<System>, evs: seq<Event>, k: nat, d: nat, p: ProcId)
      returns (i: nat, j: nat, trigger: Trigger)
    requires Run(ss, evs) && k < |evs| && evs[k] == DogKill(d)
    requires p !in ss[k].t.exited && p in ss[k + 1].t.exited
    ensures i < j < k
    ensures ObservedAt(ss, evs, i, d, Observation(trigger, Some(p), ss[k].t.generation))
    ensures ConfirmedAt(ss, evs, j, d, Observation(trigger, Some(p), ss[k].t.generation))
    ensures ss[k].t.proc == Some(p)
    ensures forall m :: i <= m < k ==> !evs[m].Bump?
    ensures trigger != ProcDead
    ensures var t := ss[j].t;
            && (trigger == InflightDeadline ==> t.inflight.Some? && t.now > t.inflight.value)
            && (trigger == ControlDeadline ==>
                  && t.pending && !t.prompts
                  && (t.callDeadline != 0.0 ==> t.now > t.callDeadline)
                  && (t.callDeadline == 0.0 ==> t.now - t.lastRequest > t.timeout))
            && (t.prompts ==> trigger == InflightDeadline)
  {
    assert StepAt(ss, evs, k);
    RunInv(ss, evs, k);
    assert DogSound(ss[k], d);
    j := FindJudgement(ss, evs, k, d);
    i := FindObservation(ss, evs, j, d);
    trigger := PhaseOf(ss[k], d).obs.trigger;
    GenerationGrows(ss, evs, i, k);
    ExitedGrows(ss, evs, j, k);
  }

  /** If a new transport was started since the observation, or the stall has cleared, recovery touches nothing. */
  lemma SkipsWhenReplacedOrCleared(ss: seq<System>, evs: seq<Event>, i: nat, k: nat, d: nat, obs: Observation)
    requires Run(ss, evs) && i < k < |evs| && evs[k] == Judge(d) && PhaseOf(ss[k], d) == Judging(obs)
    requires ObservedAt(ss, evs, i, d, obs)
    requires (exists m :: i <= m < k && evs[m].Bump?) || !StillStalled(ss[k].t, obs.trigger, obs.proc)
    ensures ss[k + 1].t == ss[k].t && PhaseOf(ss[k + 1], d).Resting? && ss[k + 1].lock.None?
  {
    assert StepAt(ss, evs, k);
    GenerationGrows(ss, evs, i, k);
  }

  /** The first look reports an unfinished call exactly for a dead process, a passed deadline, or an overdue control. */
  lemma FirstLook(t: Transport)
    ensures Check(t) == Some(ProcDead) <==> t.inflight.Some? && t.proc.Some? && t.proc.value in t.exited
    ensures Check(t) == Some(InflightDeadline) <==>
              t.inflight.Some? && !(t.proc.Some? && t.proc.value in t.exited) && t.now > t.inflight.value
    ensures Check(t) == Some(ControlDeadline) <==>
              && t.inflight.Some? && !(t.proc.Some? && t.proc.value in t.exited) && t.now <= t.inflight.value
              && t.pending && !t.prompts
              && ((t.callDeadline != 0.0 && t.now > t.callDeadline)
                  || (t.callDeadline == 0.0 && t.now - t.lastRequest > t.timeout))
  {
  }

  /** A stall that stands and whose transport has not been replaced is acted upon. */
  lemma ActsOnStandingStall(ss: seq<System>, evs: seq<Event>, k: nat, d: nat, obs: Observation)
    requires Run(ss, evs) && k < |evs| && evs[k] == Judge(d) && PhaseOf(ss[k], d) == Judging(obs)
    requires ss[k].t.generation == obs.gen && ss[k].t.proc == obs.proc
    requires var t := ss[k].t;
             match obs.trigger
             case ProcDead => t.proc.Some? && t.proc.value in t.exited
             case InflightDeadline => t.inflight.Some? && t.now > t.inflight.value
             case ControlDeadline =>
               && t.pending && !t.prompts
               && (if t.callDeadline != 0.0 then t.now > t.callDeadline else t.now - t.lastRequest > t.timeout)
    ensures PhaseOf(ss[k + 1], d) == Condemned(obs) && ss[k + 1].lock == ss[k].lock && ss[k + 1].t == ss[k].t
  {
    assert StepAt(ss, evs, k);
  }

  /** What recovery leaves: no call in flight, no live process, an unhealthy transport that is to be started again. */
  lemma RecoveryLeaves(ss: seq<System>, evs: seq<Event>, k: nat, d: nat)
    requires Run(ss, evs) && k < |evs| && evs[k] == DogKill(d)
    ensures var t, t' := ss[k].t, ss[k + 1].t;
            && t'.proc == t.proc && t'.generation == t.generation && (t.proc.Some? ==> t.proc.value in t'.exited)
            && !t'.healthy && !t'.initialized && ss[k + 1].lock.None? && PhaseOf(ss[k + 1], d).Resting?
  {
    assert StepAt(ss, evs, k);
  }

  /** Stopping the transport, before a start or for good, leaves no live process behind. */
  lemma StopLeavesNoProcess(ss: seq<System>, evs: seq<Event>, k: nat, c: nat)
    requires Run(ss, evs) && k < |evs| && (evs[k] == CleanupStale(c) || evs[k] == CloseKill(c))
    ensures ss[k].t.proc.Some? ==> ss[k].t.proc.value in ss[k + 1].t.exited
    ensures evs[k].CleanupStale? ==> ss[k + 1].t.proc.None?
    ensures evs[k].CloseKill? ==> !ss[k + 1].t.initialized && !ss[k + 1].t.healthy && ss[k + 1].t.terminated
  {
    assert StepAt(ss, evs, k);
  }

  lemma UnblockReleases(ss: seq<System>, evs: seq<Event>, k: nat, d: nat)
    requires Run(ss, evs) && k < |evs| && evs[k] == Unblock(d)
    ensures ss[k + 1].t.inflight.None? && !ss[k + 1].t.pending && PhaseOf(ss[k + 1], d).Killing?
  {
    assert StepAt(ss, evs, k);
  }

  /** All processes, running or not, have been spawned. */
  ghost predicate Known(t: Transport) {
    (forall p :: p in t.exited ==> p < t.spawned) && (t.proc.Some? ==> t.proc.value < t.spawned)
  }

  lemma StepKnown(s: System, ev: Event, s': System)
    requires Step(s, ev, s') && Known(s.t)
    ensures Known(s'.t)
  {
    if ev.CleanupStale? || ev.CloseKill? || ev.DogKill? {
      KillStepKnown(s, ev, s');
    } else {
      OtherStepKnown(s, ev, s');
    }
  }

  lemma KillStepKnown(s: System, ev: Event, s': System)
    requires Step(s, ev, s') && Known(s.t) && (ev.CleanupStale? || ev.CloseKill? || ev.DogKill?)
    ensures Known(s'.t)
  {
    KilledKnown(s.t);
  }

  lemma OtherStepKnown(s: System, ev: Event, s': System)
    requires Step(s, ev, s') && Known(s.t) && !ev.CleanupStale? && !ev.CloseKill? && !ev.DogKill?
    ensures Known(s'.t)
  {
    if !ev.Spawn? && !ev.Exit? {
      assert s'.t.exited == s.t.exited && s'.t.spawned == s.t.spawned;
    }
  }

  lemma KilledKnown(t: Transport)
    requires Known(t)
    ensures Known(Killed(t))
  {
  }

  lemma {:induction false} KnownProcesses(ss: seq<System>, evs: seq<Event>, k: nat)
    requires Run(ss, evs) && k < |ss|
    ensures Known(ss[k].t)
    decreases k
  {
    if k == 0 {
    } else {
      KnownProcesses(ss, evs, k - 1);
      assert StepAt(ss, evs, k - 1);
      StepKnown(ss[k - 1], evs[k - 1], ss[k]);
    }
  }

  /** Every new process is alive and its own, in a transport that is not marked as terminated. */
  lemma SpawnIsFresh(ss: seq<System>, evs: seq<Event>, k: nat, c: nat)
    requires Run(ss, evs) && k < |evs| && evs[k] == Spawn(c)
    ensures var t' := ss[k + 1].t;
            t'.proc.Some? && t'.proc.value !in t'.exited && t'.proc != ss[k].t.proc && !t'.terminated
  {
    KnownProcesses(ss, evs, k);
    assert StepAt(ss, evs, k);
  }
}
