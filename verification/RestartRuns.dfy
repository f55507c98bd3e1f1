/**
 Runs of the restart limiter: a check and the record that follows it are two
 critical sections, so any number of restarts may overlap; watchdogs record without
 a check, and processes end and are followed by others with windows of their own.
 */
module RestartRuns {
  import opened RestartLimiter

  datatype Event =
    | Reload(requested: real, now: real)
    | Check(now: real, reason: string)
    | Record(now: real, reason: string)
    | Unchecked(now: real, reason: string)

  /**
   The history of the current process, the file, all that was ever recorded, the time,
   and how many restarts have passed their check and are yet to be recorded.
   */
  datatype World = World(history: seq<Attempt>, file: seq<Attempt>, log: Log, clock: real, window: real,
                         passed: map<string, nat>)

  function InFlight(w: World, reason: string): nat {
    if reason in w.passed then w.passed[reason] else 0
  }

  /** Clock readings never go back, and only a restart that has passed its check is recorded as such. */
  predicate Enabled(w: World, ev: Event) {
    w.clock <= ev.now && (ev.Record? ==> InFlight(w, ev.reason) > 0)
  }

  function Next(w: World, ev: Event, limits: map<string, int>): World
    requires Enabled(w, ev)
  {
    match ev
    case Reload(requested, now) =>
      var window := Max(1.0, requested);
      World(Pruned(w.file, now - window), Pruned(w.file, now - window), w.log, now, window, map[])
    case Check(now, reason) =>
      var limit := LimitOf(limits, reason);
      w.(history := if limit > 0 then Pruned(w.history, now - w.window) else w.history, clock := now,
         passed := if Room(w.history, limit, reason, now - w.window)
                   then w.passed[reason := InFlight(w, reason) + 1] else w.passed)
    case Record(now, reason) =>
      Noted(w, Attempt(now, reason), true).(passed := w.passed[reason := InFlight(w, reason) - 1])
    case Unchecked(now, reason) => Noted(w, Attempt(now, reason), false)
  }

  /** An attempt enters history, file and log. */
  function Noted(w: World, a: Attempt, checked: bool): World {
    w.(history := Recorded(w.history, a, w.window), file := Recorded(w.history, a, w.window),
       log := Logged(w.log, a, checked), clock := a.timestamp)
  }

  ghost predicate StepAt(ws: seq<World>, evs: seq<Event>, limits: map<string, int>, k: nat) {
    k < |evs| && k + 1 < |ws| && Enabled(ws[k], evs[k]) && ws[k + 1] == Next(ws[k], evs[k], limits)
  }

  predicate Initial(w: World) {
    w.history == [] && w.file == [] && w.log == Log([], []) && w.window >= 1.0 && w.passed == map[]
  }

  ghost predicate Run(ws: seq<World>, evs: seq<Event>, limits: map<string, int>) {
    |ws| == |evs| + 1 && Initial(ws[0]) && forall k: nat :: k < |evs| ==> StepAt(ws, evs, limits, k)
  }

  /** No reload comes with a longer window than the one before. */
  ghost predicate NeverLonger(ws: seq<World>) {
    forall k :: 0 <= k < |ws| - 1 ==> ws[k + 1].window <= ws[k].window
  }

  // ------------------------------------------------------ nothing is forgotten

  /** Neither memory nor file has forgotten an attempt inside the window. */
  ghost predicate Guarded(w: World) {
    Remembers(w.window, w.history, w.file, w.log, w.clock, w.clock - w.window)
  }

  lemma RemembersLater(window: real, h: seq<Attempt>, file: seq<Attempt>, log: Log, clock: real, later: real,
                       known: real, cutoff: real)
    requires Remembers(window, h, file, log, clock, known) && clock <= later && known <= cutoff
    ensures Remembers(window, h, file, log, later, cutoff)
  {
  }

  lemma ReloadGuarded(w: World, ev: Event, limits: map<string, int>)
    requires Guarded(w) && ev.Reload? && Enabled(w, ev) && Max(1.0, ev.requested) <= w.window
    ensures Guarded(Next(w, ev, limits))
  {
    PruneRetains(w.file, w.log, w.clock - w.window, ev.now - Max(1.0, ev.requested));
  }

  lemma CheckGuarded(w: World, ev: Event, limits: map<string, int>)
    requires Guarded(w) && ev.Check? && Enabled(w, ev)
    ensures Guarded(Next(w, ev, limits))
  {
    PruneRemembers(w.window, w.history, w.file, w.log, w.clock, w.clock - w.window, ev.now);
    RemembersLater(w.window, w.history, w.file, w.log, w.clock, ev.now, w.clock - w.window, ev.now - w.window);
  }

  lemma NotedGuarded(w: World, now: real, reason: string, checked: bool)
    requires Guarded(w) && w.clock <= now
    ensures Guarded(Noted(w, Attempt(now, reason), checked))
  {
    var h := Recorded(w.history, Attempt(now, reason), w.window);
    RecordRemembers(w.window, w.history, w.file, w.log, w.clock, w.clock - w.window, now, reason, checked, h);
  }

  lemma StepGuarded(w: World, ev: Event, limits: map<string, int>)
    requires Guarded(w) && Enabled(w, ev) && (ev.Reload? ==> Max(1.0, ev.requested) <= w.window)
    ensures Guarded(Next(w, ev, limits))
  {
    match ev
    case Reload(_, _) => ReloadGuarded(w, ev, limits);
    case Check(_, _) => CheckGuarded(w, ev, limits);
    case Record(now, reason) => NotedGuarded(w, now, reason, true);
    case Unchecked(now, reason) => NotedGuarded(w, now, reason, false);
  }

  lemma {:induction false} RunGuarded(ws: seq<World>, evs: seq<Event>, limits: map<string, int>, k: nat)
    requires Run(ws, evs, limits) && NeverLonger(ws) && k < |ws|
    ensures Guarded(ws[k])
    decreases k
  {
    if k == 0 {
    } else {
      RunGuarded(ws, evs, limits, k - 1);
      assert StepAt(ws, evs, limits, k - 1);
      assert ws[k - 1 + 1].window <= ws[k - 1].window;
      StepGuarded(ws[k - 1], evs[k - 1], limits);
    }
  }

  // ---------------------------------------------------------- how many get through

  /** What holds for a reason if at most p of its restarts are ever between check and record. */
  ghost predicate Bounded(w: World, reason: string, limit: int, p: nat) {
    && InFlight(w, reason) <= p
    && Spread(w.log, reason, limit + p - 1, w.window)
    && Few(w.log, reason, w.clock - w.window, limit + p - 1 - InFlight(w, reason))
  }

  lemma CheckFew(w: World, now: real, reason: string, limit: int, most: int)
    requires Guarded(w) && w.clock <= now && limit > 0 && Few(w.log, reason, w.clock - w.window, most)
    ensures Few(w.log, reason, now - w.window, most)
    ensures Room(w.history, limit, reason, now - w.window) ==> Few(w.log, reason, now - w.window, limit - 1)
  {
    FewLater(w.log, reason, w.clock - w.window, now - w.window, most, most);
    assert SameAfter(w.history, w.log, now - w.window);
    if Room(w.history, limit, reason, now - w.window) {
      RoomIsFew(w.log, reason, limit, now - w.window, w.clock);
    }
  }

  lemma CheckMoves(w: World, ev: Event, limits: map<string, int>, reason: string)
    requires ev.Check? && Enabled(w, ev) && LimitOf(limits, reason) > 0
    ensures var w' := Next(w, ev, limits);
            && w'.log == w.log && w'.window == w.window && w'.clock == ev.now
            && (InFlight(w', reason) == InFlight(w, reason)
                || (InFlight(w', reason) == InFlight(w, reason) + 1
                    && Room(w.history, LimitOf(limits, reason), reason, ev.now - w.window)))
  {
  }

  lemma CheckedBounded(w: World, w': World, reason: string, limit: int, p: nat)
    requires Guarded(w) && w.clock <= w'.clock && limit > 0 && p > 0 && Bounded(w, reason, limit, p)
    requires w'.log == w.log && w'.window == w.window && InFlight(w', reason) <= p
    requires InFlight(w', reason) == InFlight(w, reason)
             || (InFlight(w', reason) == InFlight(w, reason) + 1
                 && Room(w.history, limit, reason, w'.clock - w.window))
    ensures Bounded(w', reason, limit, p)
  {
    CheckFew(w, w'.clock, reason, limit, limit + p - 1 - InFlight(w, reason));
    if InFlight(w', reason) != InFlight(w, reason) {
      var cutoff := w'.clock - w.window;
      FewLater(w.log, reason, cutoff, cutoff, limit - 1, limit + p - 1 - InFlight(w', reason));
    }
  }

  lemma CheckBounded(w: World, ev: Event, limits: map<string, int>, reason: string, p: nat)
    requires Guarded(w) && ev.Check? && Enabled(w, ev) && LimitOf(limits, reason) > 0 && p > 0
    requires Bounded(w, reason, LimitOf(limits, reason), p) && InFlight(Next(w, ev, limits), reason) <= p
    ensures Bounded(Next(w, ev, limits), reason, LimitOf(limits, reason), p)
  {
    CheckMoves(w, ev, limits, reason);
    CheckedBounded(w, Next(w, ev, limits), reason, LimitOf(limits, reason), p);
  }

  /** A checked attempt for the reason moves one restart from those in flight to those counted. */
  lemma NotedFew(log: Log, a: Attempt, checked: bool, reason: string, cutoff: real, most: int)
    requires |log.checked| == |log.attempts| && Few(log, reason, cutoff, most) && most >= 0
    ensures Few(Logged(log, a, checked), reason, cutoff, most + if checked && a.reason == reason then 1 else 0)
  {
    var log', more := Logged(log, a, checked), most + if checked && a.reason == reason then 1 else 0;
    forall i: nat ensures FewSince(log', reason, cutoff, more, i) {
      if i <= |log.attempts| { CheckedPush(log, a, checked, reason, i, |log.attempts|); }
      if i < |log.attempts| { assert FewSince(log, reason, cutoff, most, i); }
    }
  }

  lemma NotedBounded(w: World, a: Attempt, checked: bool, reason: string, limit: int, p: nat)
    requires Guarded(w) && w.clock <= a.timestamp && limit > 0 && p > 0 && Bounded(w, reason, limit, p)
    requires checked && a.reason == reason ==> InFlight(w, reason) > 0
    ensures var w', q := Noted(w, a, checked), InFlight(w, reason) - if checked && a.reason == reason then 1 else 0;
            && Spread(w'.log, reason, limit + p - 1, w'.window)
            && Few(w'.log, reason, w'.clock - w'.window, limit + p - 1 - q)
  {
    var most := limit + p - 1 - InFlight(w, reason);
    FewLater(w.log, reason, w.clock - w.window, a.timestamp - w.window, most, most);
    NotedFew(w.log, a, checked, reason, a.timestamp - w.window, most);
    if checked && a.reason == reason {
      FewLater(w.log, reason, a.timestamp - w.window, a.timestamp - w.window, most, limit + p - 2);
    }
    RecordSpread(w.log, a, checked, reason, limit + p - 1, w.window);
  }

  lemma ReloadBounded(w: World, ev: Event, limits: map<string, int>, reason: string, p: nat)
    requires ev.Reload? && Enabled(w, ev) && Max(1.0, ev.requested) <= w.window
    requires Bounded(w, reason, LimitOf(limits, reason), p)
    ensures Bounded(Next(w, ev, limits), reason, LimitOf(limits, reason), p)
  {
    var bound, window := LimitOf(limits, reason) + p - 1, Max(1.0, ev.requested);
    FewLater(w.log, reason, w.clock - w.window, ev.now - window, bound - InFlight(w, reason), bound);
    forall i: nat, j: nat ensures SpreadAt(w.log, reason, bound, window, i, j) {
      assert SpreadAt(w.log, reason, bound, w.window, i, j);
    }
  }

  lemma StepBounded(w: World, ev: Event, limits: map<string, int>, reason: string, p: nat)
    requires Guarded(w) && Enabled(w, ev) && (ev.Reload? ==> Max(1.0, ev.requested) <= w.window)
    requires LimitOf(limits, reason) > 0 && p > 0 && Bounded(w, reason, LimitOf(limits, reason), p)
    requires InFlight(Next(w, ev, limits), reason) <= p
    ensures Bounded(Next(w, ev, limits), reason, LimitOf(limits, reason), p)
  {
    match ev
    case Reload(_, _) => ReloadBounded(w, ev, limits, reason, p);
    case Check(_, _) => CheckBounded(w, ev, limits, reason, p);
    case Record(now, r) => NotedBounded(w, Attempt(now, r), true, reason, LimitOf(limits, reason), p);
    case Unchecked(now, r) => NotedBounded(w, Attempt(now, r), false, reason, LimitOf(limits, reason), p);
  }

  /** Up to state k at most p restarts for the reason are between check and record. */
  ghost predicate AtMost(ws: seq<World>, k: nat, reason: string, p: nat) {
    forall m: nat :: m <= k && m < |ws| ==> InFlight(ws[m], reason) <= p
  }

  lemma {:induction false} RunBounded(ws: seq<World>, evs: seq<Event>, limits: map<string, int>, k: nat, reason: string,
                                      p: nat)
    requires Run(ws, evs, limits) && NeverLonger(ws) && k < |ws| && AtMost(ws, k, reason, p)
    requires LimitOf(limits, reason) > 0 && p > 0
    ensures Bounded(ws[k], reason, LimitOf(limits, reason), p)
    decreases k
  {
    if k == 0 {
    } else {
      RunBounded(ws, evs, limits, k - 1, reason, p);
      RunGuarded(ws, evs, limits, k - 1);
      assert StepAt(ws, evs, limits, k - 1);
      assert ws[k - 1 + 1].window <= ws[k - 1].window;
      StepBounded(ws[k - 1], evs[k - 1], limits, reason, p);
    }
  }

  /**
   In every run with at most p overlapping restarts for a reason, any stretch shorter
   than the window holds at most limit + p - 1 checked ones; serialised, that is the limit.
   */
  lemma RunWindowBound(ws: seq<World>, evs: seq<Event>, limits: map<string, int>, k: nat, reason: string, p: nat,
                       i: nat, j: nat)
    requires Run(ws, evs, limits) && NeverLonger(ws) && k < |ws| && AtMost(ws, k, reason, p)
    requires LimitOf(limits, reason) > 0 && p > 0 && i < j <= |ws[k].log.attempts|
    requires ws[k].log.attempts[j - 1].timestamp - ws[k].log.attempts[i].timestamp < ws[k].window
    ensures Checked(ws[k].log, reason, i, j) <= LimitOf(limits, reason) + p - 1
  {
    RunBounded(ws, evs, limits, k, reason, p);
    RunGuarded(ws, evs, limits, k);
    WindowBound(ws[k].log, reason, LimitOf(limits, reason) + p - 1, ws[k].window, i, j);
  }

  // ---------------------------------------------------------- the bound is reached

  function Last(ws: seq<World>): World
    requires ws != []
  {
    ws[|ws| - 1]
  }

  lemma Extend(ws: seq<World>, evs: seq<Event>, limits: map<string, int>, ev: Event)
      returns (ws': seq<World>, evs': seq<Event>)
    requires Run(ws, evs, limits) && Enabled(Last(ws), ev)
    ensures Run(ws', evs', limits) && ws' == ws + [Next(Last(ws), ev, limits)]
  {
    ws', evs' := ws + [Next(Last(ws), ev, limits)], evs + [ev];
    forall k: nat | k < |evs'| ensures StepAt(ws', evs', limits, k) {
      if k < |evs| { assert StepAt(ws, evs, limits, k); }
    }
  }

  lemma {:induction false} PrunedNone(h: seq<Attempt>, c: real)
    requires forall k :: 0 <= k < |h| ==> h[k].timestamp <= c
    ensures Pruned(h, c) == []
  {
    if h == [] {
    } else {
      PrunedNone(h[..|h| - 1], c);
    }
  }

  lemma CheckedLast(log: Log, a: Attempt, checked: bool, reason: string, base: nat)
    requires base <= |log.attempts| == |log.checked|
    ensures Checked(Logged(log, a, checked), reason, base, |log.attempts| + 1)
            == Checked(log, reason, base, |log.attempts|) + if checked && a.reason == reason then 1 else 0
  {
    CheckedPush(log, a, checked, reason, base, |log.attempts|);
  }

  /** From position `base` on the log holds c checked restarts at time t; what is before lies before the cutoff. */
  ghost predicate BurstLog(log: Log, t: real, reason: string, base: nat, c: nat, cutoff: real) {
    && |log.attempts| == |log.checked| == base + c
    && (forall k :: base <= k < base + c ==> log.attempts[k] == Attempt(t, reason) && log.checked[k])
    && (forall k :: 0 <= k < base ==> log.attempts[k].timestamp <= cutoff)
  }

  /** The log of such a burst, while q more restarts have passed their check. */
  ghost predicate Burst(w: World, t: real, reason: string, base: nat, c: nat, q: nat) {
    w.clock <= t && w.window >= 1.0 && BurstLog(w.log, t, reason, base, c, t - w.window) && InFlight(w, reason) == q
  }

  lemma {:induction false} BurstCounted(h: seq<Attempt>, a: Attempt, base: nat, cutoff: real)
    requires base <= |h| && a.timestamp > cutoff
    requires forall k :: base <= k < |h| ==> h[k] == a
    requires forall k :: 0 <= k < base ==> h[k].timestamp <= cutoff
    ensures CountAfter(h, cutoff, a.reason) == |h| - base
    decreases |h|
  {
    if |h| == base {
      PrunedNone(h, cutoff);
    } else {
      BurstCounted(h[..|h| - 1], a, base, cutoff);
      CountAfterLast(h, cutoff, a.reason);
    }
  }

  lemma {:induction false} BurstChecked(log: Log, reason: string, base: nat, n: nat)
    requires base <= n <= |log.attempts| == |log.checked|
    requires forall k :: base <= k < n ==> log.attempts[k].reason == reason && log.checked[k]
    ensures Checked(log, reason, base, n) == n - base
    decreases n
  {
    if n == base {
    } else {
      BurstChecked(log, reason, base, n - 1);
    }
  }

  lemma BurstBegins(w: World, t: real, reason: string)
    requires Guarded(w) && t >= w.clock + w.window && InFlight(w, reason) == 0
    ensures Burst(w, t, reason, |w.log.attempts|, 0, 0)
  {
  }

  lemma BurstRoom(w: World, t: real, reason: string, base: nat, c: nat, q: nat, limit: int)
    requires Guarded(w) && Burst(w, t, reason, base, c, q) && c < limit
    ensures Room(w.history, limit, reason, t - w.window)
  {
    assert SameAfter(w.history, w.log, t - w.window);
    BurstCounted(w.log.attempts, Attempt(t, reason), base, t - w.window);
  }

  lemma CheckPasses(w: World, t: real, reason: string, limits: map<string, int>)
    requires w.clock <= t && LimitOf(limits, reason) > 0
    requires Room(w.history, LimitOf(limits, reason), reason, t - w.window)
    ensures Next(w, Check(t, reason), limits)
            == w.(history := Pruned(w.history, t - w.window), clock := t,
                  passed := w.passed[reason := InFlight(w, reason) + 1])
  {
  }

  lemma BurstCheck(w: World, t: real, reason: string, base: nat, c: nat, q: nat, limits: map<string, int>)
    requires Guarded(w) && Burst(w, t, reason, base, c, q) && c < LimitOf(limits, reason)
    ensures Burst(Next(w, Check(t, reason), limits), t, reason, base, c, q + 1)
    ensures Next(w, Check(t, reason), limits).window == w.window
  {
    BurstRoom(w, t, reason, base, c, q, LimitOf(limits, reason));
    CheckPasses(w, t, reason, limits);
  }

  lemma BurstRecord(w: World, t: real, reason: string, base: nat, c: nat, q: nat, limits: map<string, int>)
    requires Burst(w, t, reason, base, c, q) && q > 0
    ensures Burst(Next(w, Record(t, reason), limits), t, reason, base, c + 1, q - 1)
    ensures Next(w, Record(t, reason), limits).window == w.window
  {
  }

  /** A run that stands in a burst, with never more than p restarts in flight. */
  ghost predicate InBurst(ws: seq<World>, evs: seq<Event>, limits: map<string, int>, window: real, t: real,
                          reason: string, base: nat, c: nat, q: nat, p: nat)
  {
    && Run(ws, evs, limits) && NeverLonger(ws) && AtMost(ws, |evs|, reason, p)
    && Last(ws).window == window && Burst(Last(ws), t, reason, base, c, q)
  }

  lemma DoCheck(ws: seq<World>, evs: seq<Event>, limits: map<string, int>, window: real, t: real, reason: string,
                base: nat, c: nat, q: nat, p: nat)
      returns (ws': seq<World>, evs': seq<Event>)
    requires InBurst(ws, evs, limits, window, t, reason, base, c, q, p) && c < LimitOf(limits, reason) && q < p
    ensures InBurst(ws', evs', limits, window, t, reason, base, c, q + 1, p) && ws <= ws'
  {
    RunGuarded(ws, evs, limits, |evs|);
    BurstCheck(Last(ws), t, reason, base, c, q, limits);
    ws', evs' := Extend(ws, evs, limits, Check(t, reason));
  }

  lemma DoRecord(ws: seq<World>, evs: seq<Event>, limits: map<string, int>, window: real, t: real, reason: string,
                 base: nat, c: nat, q: nat, p: nat)
      returns (ws': seq<World>, evs': seq<Event>)
    requires InBurst(ws, evs, limits, window, t, reason, base, c, q, p) && q > 0
    ensures InBurst(ws', evs', limits, window, t, reason, base, c + 1, q - 1, p) && ws <= ws'
  {
    BurstRecord(Last(ws), t, reason, base, c, q, limits);
    ws', evs' := Extend(ws, evs, limits, Record(t, reason));
  }

  /** Restarts one after the other, up to a count of n. */
  lemma {:induction false} Serial(ws: seq<World>, evs: seq<Event>, limits: map<string, int>, window: real, t: real,
                                  reason: string, base: nat, c: nat, n: nat, p: nat)
      returns (ws': seq<World>, evs': seq<Event>)
    requires InBurst(ws, evs, limits, window, t, reason, base, c, 0, p) && c <= n <= LimitOf(limits, reason) && p > 0
    ensures InBurst(ws', evs', limits, window, t, reason, base, n, 0, p) && ws <= ws'
    decreases n - c
  {
    if c == n {
      ws', evs' := ws, evs;
    } else {
      ws', evs' := DoCheck(ws, evs, limits, window, t, reason, base, c, 0, p);
      ws', evs' := DoRecord(ws', evs', limits, window, t, reason, base, c, 1, p);
      ws', evs' := Serial(ws', evs', limits, window, t, reason, base, c + 1, n, p);
    }
  }

  /** Checks alone, until p restarts are in flight. */
  lemma {:induction false} Pile(ws: seq<World>, evs: seq<Event>, limits: map<string, int>, window: real, t: real,
                                reason: string, base: nat, c: nat, q: nat, p: nat)
      returns (ws': seq<World>, evs': seq<Event>)
    requires InBurst(ws, evs, limits, window, t, reason, base, c, q, p) && c < LimitOf(limits, reason) && q <= p
    ensures InBurst(ws', evs', limits, window, t, reason, base, c, p, p) && ws <= ws'
    decreases p - q
  {
    if q == p {
      ws', evs' := ws, evs;
    } else {
      ws', evs' := DoCheck(ws, evs, limits, window, t, reason, base, c, q, p);
      ws', evs' := Pile(ws', evs', limits, window, t, reason, base, c, q + 1, p);
    }
  }

  /** Records alone, until none is in flight. */
  lemma {:induction false} Unpile(ws: seq<World>, evs: seq<Event>, limits: map<string, int>, window: real, t: real,
                                  reason: string, base: nat, c: nat, q: nat, p: nat)
      returns (ws': seq<World>, evs': seq<Event>)
    requires InBurst(ws, evs, limits, window, t, reason, base, c, q, p)
    ensures InBurst(ws', evs', limits, window, t, reason, base, c + q, 0, p) && ws <= ws'
    decreases q
  {
    if q == 0 {
      ws', evs' := ws, evs;
    } else {
      ws', evs' := DoRecord(ws, evs, limits, window, t, reason, base, c, q, p);
      ws', evs' := Unpile(ws', evs', limits, window, t, reason, base, c + 1, q - 1, p);
    }
  }

  lemma StartBurst(ws: seq<World>, evs: seq<Event>, limits: map<string, int>, reason: string, p: nat) returns (t: real)
    requires Run(ws, evs, limits) && NeverLonger(ws) && AtMost(ws, |evs|, reason, p) && InFlight(Last(ws), reason) == 0
    ensures InBurst(ws, evs, limits, Last(ws).window, t, reason, |Last(ws).log.attempts|, 0, 0, p)
  {
    RunGuarded(ws, evs, limits, |evs|);
    t := Last(ws).clock + Last(ws).window;
    BurstBegins(Last(ws), t, reason);
  }

  /** Every run can go on so that p overlapping restarts, and no more, let limit + p - 1 through at one moment. */
  lemma OverlapReachesBound(ws: seq<World>, evs: seq<Event>, limits: map<string, int>, reason: string, p: nat)
      returns (ws': seq<World>, evs': seq<Event>, i: nat)
    requires Run(ws, evs, limits) && NeverLonger(ws) && AtMost(ws, |evs|, reason, p) && InFlight(Last(ws), reason) == 0
    requires LimitOf(limits, reason) > 0 && p > 0
    ensures Run(ws', evs', limits) && ws <= ws' && NeverLonger(ws') && AtMost(ws', |evs'|, reason, p)
    ensures i < |Last(ws').log.attempts|
            && Last(ws').log.attempts[|Last(ws').log.attempts| - 1].timestamp == Last(ws').log.attempts[i].timestamp
            && Checked(Last(ws').log, reason, i, |Last(ws').log.attempts|) == LimitOf(limits, reason) + p - 1
  {
    var limit, window := LimitOf(limits, reason), Last(ws).window;
    i := |Last(ws).log.attempts|;
    var t := StartBurst(ws, evs, limits, reason, p);
    ws', evs' := Serial(ws, evs, limits, window, t, reason, i, 0, limit - 1, p);
    ws', evs' := Pile(ws', evs', limits, window, t, reason, i, limit - 1, 0, p);
    ws', evs' := Unpile(ws', evs', limits, window, t, reason, i, limit - 1, p, p);
    BurstChecked(Last(ws').log, reason, i, i + limit - 1 + p);
  }

  // ------------------------------------------------------------- a longer window

  /** An unchecked restart a window later makes file and history forget the burst. */
  lemma BurstForgotten(w: World, t: real, other: string)
    requires Guarded(w) && w.clock <= t
    ensures Recorded(w.history, Attempt(t + w.window, other), w.window) == [Attempt(t + w.window, other)]
  {
    assert SameAfter(w.history, w.log, t);
    PrunedNone(w.log.attempts, t);
  }

  lemma PrunedOne(a: Attempt, c: real)
    requires a.timestamp > c
    ensures Pruned([a], c) == [a]
  {
    assert [a][..0] == [];
  }

  lemma NoneCounted(b: Attempt, cutoff: real, reason: string)
    requires b.timestamp > cutoff && b.reason != reason
    ensures CountAfter([b], cutoff, reason) == 0
  {
    CountAfterLast([b], cutoff, reason);
    assert [b][..0] == [];
  }

  lemma Reloaded(w: World, b: Attempt, longer: real, limits: map<string, int>)
    requires w.file == [b] && w.clock == b.timestamp && longer >= 1.0
    ensures Next(w, Reload(longer, w.clock), limits) == World([b], [b], w.log, w.clock, longer, map[])
  {
    PrunedOne(b, b.timestamp - longer);
  }

  /** After a reload with a longer window nothing of the burst is left to count. */
  lemma LongerAdmits(w: World, b: Attempt, reason: string, limits: map<string, int>)
    requires w.history == [b] && w.clock == b.timestamp && w.window >= 1.0 && InFlight(w, reason) == 0
    requires b.reason != reason && LimitOf(limits, reason) > 0
    ensures var w' := Next(w, Check(w.clock, reason), limits);
            w'.window == w.window && InFlight(w', reason) == 1 && w'.log == w.log && w'.clock == w.clock
  {
    NoneCounted(b, w.clock - w.window, reason);
    CheckPasses(w, w.clock, reason, limits);
  }

  lemma BurstAndMore(log: Log, t: real, reason: string, base: nat, c: nat, cutoff: real, b: Attempt, a: Attempt)
    requires BurstLog(log, t, reason, base, c, cutoff) && c > 0 && b.reason != reason && a.reason == reason
    ensures var log' := Logged(Logged(log, b, false), a, true);
            && base < |log'.attempts| == |log.attempts| + 2
            && log'.attempts[base].timestamp == t && log'.attempts[|log'.attempts| - 1] == a
            && Checked(log', reason, base, |log'.attempts|) == c + 1
  {
    BurstChecked(log, reason, base, base + c);
    CheckedLast(log, b, false, reason, base);
    CheckedLast(Logged(log, b, false), a, true, reason, base);
  }

  /**
   Any longer window breaks the limit: every run with no restart in flight can go on
   with serial restarts, one reload with the longer window and one restart more, so that
   limit + 1 of them lie less than that window apart.
   */
  lemma LongerWindowExceedsLimit(ws: seq<World>, evs: seq<Event>, limits: map<string, int>, reason: string,
                                 other: string, longer: real)
      returns (ws': seq<World>, evs': seq<Event>, i: nat)
    requires Run(ws, evs, limits) && NeverLonger(ws) && AtMost(ws, |evs|, reason, 1) && InFlight(Last(ws), reason) == 0
    requires LimitOf(limits, reason) > 0 && other != reason && longer > Last(ws).window
    ensures Run(ws', evs', limits) && ws <= ws' && Last(ws').window == longer
    ensures var log := Last(ws').log;
            && i < |log.attempts|
            && log.attempts[|log.attempts| - 1].timestamp - log.attempts[i].timestamp < longer
            && Checked(log, reason, i, |log.attempts|) == LimitOf(limits, reason) + 1
  {
    var limit, window := LimitOf(limits, reason), Last(ws).window;
    i := |Last(ws).log.attempts|;
    var t := StartBurst(ws, evs, limits, reason, 1);
    var a, b := Attempt(t + window, reason), Attempt(t + window, other);
    ws', evs' := Serial(ws, evs, limits, window, t, reason, i, 0, limit, 1);
    BurstAndMore(Last(ws').log, t, reason, i, limit, t - window, b, a);
    ws', evs' := Forget(ws', evs', limits, t, other);
    ws', evs' := ReloadLonger(ws', evs', limits, b, longer);
    ws', evs' := OneMore(ws', evs', limits, b, reason);
  }

  lemma Forget(ws: seq<World>, evs: seq<Event>, limits: map<string, int>, t: real, other: string)
      returns (ws': seq<World>, evs': seq<Event>)
    requires Run(ws, evs, limits) && NeverLonger(ws) && Last(ws).clock <= t
    ensures Run(ws', evs', limits) && ws <= ws'
    ensures var w, b := Last(ws), Attempt(t + Last(ws).window, other);
            && Last(ws').history == Last(ws').file == [b] && Last(ws').clock == b.timestamp
            && Last(ws').log == Logged(w.log, b, false)
  {
    RunGuarded(ws, evs, limits, |evs|);
    BurstForgotten(Last(ws), t, other);
    ws', evs' := Extend(ws, evs, limits, Unchecked(t + Last(ws).window, other));
  }

  lemma ReloadLonger(ws: seq<World>, evs: seq<Event>, limits: map<string, int>, b: Attempt, longer: real)
      returns (ws': seq<World>, evs': seq<Event>)
    requires Run(ws, evs, limits) && Last(ws).file == [b] && Last(ws).clock == b.timestamp && longer >= 1.0
    ensures Run(ws', evs', limits) && ws <= ws'
    ensures Last(ws') == World([b], [b], Last(ws).log, b.timestamp, longer, map[])
  {
    Reloaded(Last(ws), b, longer, limits);
    ws', evs' := Extend(ws, evs, limits, Reload(longer, b.timestamp));
  }

  lemma OneMore(ws: seq<World>, evs: seq<Event>, limits: map<string, int>, b: Attempt, reason: string)
      returns (ws': seq<World>, evs': seq<Event>)
    requires Run(ws, evs, limits) && Last(ws).history == [b] && Last(ws).clock == b.timestamp && Last(ws).window >= 1.0
    requires b.reason != reason && LimitOf(limits, reason) > 0 && InFlight(Last(ws), reason) == 0
    ensures Run(ws', evs', limits) && ws <= ws' && Last(ws').window == Last(ws).window
    ensures Last(ws').log == Logged(Last(ws).log, Attempt(b.timestamp, reason), true)
  {
    LongerAdmits(Last(ws), b, reason, limits);
    ws', evs' := Extend(ws, evs, limits, Check(b.timestamp, reason));
    ws', evs' := Extend(ws', evs', limits, Record(b.timestamp, reason));
  }
}
