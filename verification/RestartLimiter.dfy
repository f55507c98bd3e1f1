/**
 The persistent restart history that limits how often the transport is
 restarted: a sliding window over timestamps, pruned on use, rewritten to a file
 and reloaded by the next process.
 */
module RestartLimiter {
  import opened Selections

  datatype Attempt = Attempt(timestamp: real, reason: string)

  function Pruned(h: seq<Attempt>, cutoff: real): seq<Attempt> {
    if h == [] then []
    else Pruned(h[..|h| - 1], cutoff) + if h[|h| - 1].timestamp > cutoff then [h[|h| - 1]] else []
  }

  /** A reason without a configured limit has limit 0, which means no limit. */
  function LimitOf(limits: map<string, int>, reason: string): int {
    if reason in limits then limits[reason] else 0
  }

  /** A check passes when the limit is off or leaves room in the pruned history. */
  predicate Room(h: seq<Attempt>, limit: int, reason: string, cutoff: real) {
    limit <= 0 || CountOf(Pruned(h, cutoff), reason) < limit
  }

  /** A recorded attempt also prunes the history. */
  function Recorded(h: seq<Attempt>, a: Attempt, window: real): seq<Attempt> {
    Pruned(h, a.timestamp - window) + [a]
  }

  function Max(a: real, b: real): real {
    if a < b then b else a
  }

  /** The attempts for a reason that are later than the cutoff. */
  ghost function RecentFor(h: seq<Attempt>, cutoff: real, reason: string): set<nat> {
    set i: nat | i < |h| && h[i].timestamp > cutoff && h[i].reason == reason
  }

  function CountAfter(h: seq<Attempt>, cutoff: real, reason: string): nat {
    CountOf(Pruned(h, cutoff), reason)
  }

  lemma CountAfterLast(h: seq<Attempt>, cutoff: real, reason: string)
    requires h != []
    ensures var last := h[|h| - 1];
            CountAfter(h, cutoff, reason)
            == CountAfter(h[..|h| - 1], cutoff, reason)
               + if last.timestamp > cutoff && last.reason == reason then 1 else 0
  {
    var kept, last := Pruned(h[..|h| - 1], cutoff), h[|h| - 1];
    assert Pruned(h, cutoff) == if last.timestamp > cutoff then kept + [last] else kept;
    assert (kept + [last])[..|kept|] == kept;
  }

  lemma RecentLast(h: seq<Attempt>, cutoff: real, reason: string)
    requires h != []
    ensures var n := |h| - 1;
            |RecentFor(h, cutoff, reason)|
            == |RecentFor(h[..n], cutoff, reason)| + if h[n].timestamp > cutoff && h[n].reason == reason then 1 else 0
  {
    var n := |h| - 1;
    var more := if h[n].timestamp > cutoff && h[n].reason == reason then {n} else {};
    assert RecentFor(h, cutoff, reason) == RecentFor(h[..n], cutoff, reason) + more;
  }

  /** The count of a pruned history is the number of those attempts. */
  lemma {:induction false} RecentCount(h: seq<Attempt>, cutoff: real, reason: string)
    ensures CountAfter(h, cutoff, reason) == |RecentFor(h, cutoff, reason)|
  {
    if h == [] {
      assert RecentFor(h, cutoff, reason) == {};
    } else {
      RecentCount(h[..|h| - 1], cutoff, reason);
      CountAfterLast(h, cutoff, reason);
      RecentLast(h, cutoff, reason);
    }
  }

  /** A check passes iff the limit is off, or fewer attempts than the limit are for the reason and recent. */
  lemma RoomMeans(h: seq<Attempt>, limit: int, reason: string, cutoff: real)
    ensures Room(h, limit, reason, cutoff) <==> limit <= 0 || |RecentFor(h, cutoff, reason)| < limit
  {
    RecentCount(h, cutoff, reason);
  }

  ghost function Later(h: seq<Attempt>, cutoff: real): set<nat> {
    set i: nat | i < |h| && h[i].timestamp > cutoff
  }

  /** Pruning keeh exactly the attempts that are later than the cutoff, in their order. */
  lemma {:induction false} PrunedMeans(h: seq<Attempt>, cutoff: real) returns (at: seq<nat>)
    ensures Selects(h, Pruned(h, cutoff), at, Later(h, cutoff))
  {
    if h == [] {
      at := [];
      SelectNone(h, Pruned(h, cutoff), at, Later(h, cutoff));
    } else {
      var n := |h| - 1;
      var front, take := h[..n], h[n].timestamp > cutoff;
      at := PrunedMeans(front, cutoff);
      assert Later(h, cutoff) == Later(front, cutoff) + if take then {n} else {};
      at := SelectNext(front, Pruned(front, cutoff), at, Later(front, cutoff), take,
                       h, Pruned(h, cutoff), Later(h, cutoff));
    }
  }

  function CountOf(h: seq<Attempt>, reason: string): nat {
    if h == [] then 0 else CountOf(h[..|h| - 1], reason) + if h[|h| - 1].reason == reason then 1 else 0
  }

  /**
   Every attempt ever recorded, in order, across processes; `checked` tells which
   of them went through a successful check first.
   */
  datatype Log = Log(attempts: seq<Attempt>, checked: seq<bool>)

  ghost predicate InOrder(log: Log, clock: real) {
    && |log.checked| == |log.attempts|
    && (forall i, j :: 0 <= i < j < |log.attempts| ==> log.attempts[i].timestamp <= log.attempts[j].timestamp)
    && forall i :: 0 <= i < |log.attempts| ==> log.attempts[i].timestamp <= clock
  }

  function Logged(log: Log, a: Attempt, checked: bool): Log {
    Log(log.attempts + [a], log.checked + [checked])
  }

  predicate CheckedAt(log: Log, reason: string, k: nat) {
    k < |log.attempts| && k < |log.checked| && log.checked[k] && log.attempts[k].reason == reason
  }

  /** How many checked attempts for `reason` the log holds from position i up to j. */
  ghost function Checked(log: Log, reason: string, i: nat, j: nat): nat
    requires i <= j
    decreases j - i
  {
    if i == j then 0 else Checked(log, reason, i, j - 1) + if CheckedAt(log, reason, j - 1) then 1 else 0
  }

  ghost predicate SameAfter(h: seq<Attempt>, log: Log, c: real) {
    Pruned(h, c) == Pruned(log.attempts, c)
  }

  /** The history still knows everything later than `cutoff`. */
  ghost predicate Retains(h: seq<Attempt>, log: Log, cutoff: real) {
    forall c: real :: c >= cutoff ==> SameAfter(h, log, c)
  }

  /** If positions i to j hold more checked attempts than `bound`, j being one, they span at least a window. */
  ghost predicate SpreadAt(log: Log, reason: string, bound: int, window: real, i: nat, j: nat) {
    i <= j < |log.attempts| && CheckedAt(log, reason, j) && Checked(log, reason, i, j + 1) > bound
    ==> log.attempts[j].timestamp - log.attempts[i].timestamp >= window
  }

  /** Of any bound + 1 checked attempts for a reason, the first and the last are at least a window apart. */
  ghost predicate Spread(log: Log, reason: string, bound: int, window: real) {
    forall i: nat, j: nat :: SpreadAt(log, reason, bound, window, i, j)
  }

  /** That holds for every reason with a limit. */
  ghost predicate Limited(log: Log, limits: map<string, int>, window: real) {
    forall reason :: LimitOf(limits, reason) > 0 ==> Spread(log, reason, LimitOf(limits, reason), window)
  }

  ghost predicate FewSince(log: Log, reason: string, cutoff: real, most: int, i: nat) {
    i < |log.attempts| && log.attempts[i].timestamp > cutoff ==> Checked(log, reason, i, |log.attempts|) <= most
  }

  /** At most so many checked attempts for a reason are later than the cutoff. */
  ghost predicate Few(log: Log, reason: string, cutoff: real, most: int) {
    forall i: nat :: FewSince(log, reason, cutoff, most, i)
  }

  lemma {:induction false} PrunedTwice(h: seq<Attempt>, a: real, c: real)
    requires a <= c
    ensures Pruned(Pruned(h, a), c) == Pruned(h, c)
  {
    if h == [] {
    } else {
      var front, last := Pruned(h[..|h| - 1], a), h[|h| - 1];
      PrunedTwice(h[..|h| - 1], a, c);
      if last.timestamp > a {
        assert (front + [last])[..|front|] == front;
      } else {
        assert Pruned(h, a) == front;
      }
    }
  }

  lemma PruneRetains(h: seq<Attempt>, log: Log, known: real, cutoff: real)
    requires Retains(h, log, known)
    ensures Retains(Pruned(h, cutoff), log, Max(known, cutoff)) && Retains(h, log, Max(known, cutoff))
  {
    forall c: real | c >= Max(known, cutoff) ensures SameAfter(Pruned(h, cutoff), log, c) {
      PrunedTwice(h, cutoff, c);
      assert SameAfter(h, log, c);
    }
  }

  lemma InOrderPush(log: Log, a: Attempt, checked: bool, clock: real)
    requires InOrder(log, clock) && clock <= a.timestamp
    ensures InOrder(Logged(log, a, checked), a.timestamp)
  {
  }

  lemma RecordedRetains(h: seq<Attempt>, log: Log, a: Attempt, checked: bool, known: real, window: real)
    requires Retains(h, log, known)
    ensures Retains(Recorded(h, a, window), Logged(log, a, checked), Max(known, a.timestamp - window))
  {
    PruneRetains(h, log, known, a.timestamp - window);
    RetainsPush(Pruned(h, a.timestamp - window), log, a, checked, Max(known, a.timestamp - window));
  }

  lemma RetainsPush(h: seq<Attempt>, log: Log, a: Attempt, checked: bool, cutoff: real)
    requires Retains(h, log, cutoff)
    ensures Retains(h + [a], Logged(log, a, checked), cutoff)
  {
    assert (h + [a])[..|h|] == h && (log.attempts + [a])[..|log.attempts|] == log.attempts;
    forall c: real | c >= cutoff ensures SameAfter(h + [a], Logged(log, a, checked), c) {
      assert SameAfter(h, log, c);
    }
  }

  lemma {:induction false} CheckedPush(log: Log, a: Attempt, checked: bool, reason: string, i: nat, j: nat)
    requires i <= j <= |log.attempts| == |log.checked|
    ensures Checked(Logged(log, a, checked), reason, i, j) == Checked(log, reason, i, j)
    decreases j - i
  {
    if i == j {
    } else {
      CheckedPush(log, a, checked, reason, i, j - 1);
      assert CheckedAt(Logged(log, a, checked), reason, j - 1) <==> CheckedAt(log, reason, j - 1);
    }
  }

  /** What lies later than the cutoff is all counted, so the count covers the checked attempts among it. */
  lemma {:induction false} CountCovers(attempts: seq<Attempt>, log: Log, reason: string, i: nat, cutoff: real)
    requires attempts <= log.attempts && i <= |attempts|
    requires forall k :: i <= k < |attempts| ==> attempts[k].timestamp > cutoff
    ensures Checked(log, reason, i, |attempts|) <= CountOf(Pruned(attempts, cutoff), reason)
    decreases |attempts|
  {
    if i == |attempts| {
    } else {
      var front, last := attempts[..|attempts| - 1], attempts[|attempts| - 1];
      CountCovers(front, log, reason, i, cutoff);
      var kept := Pruned(front, cutoff);
      assert (kept + [last])[..|kept|] == kept;
    }
  }

  lemma RecentCounted(log: Log, reason: string, cutoff: real, clock: real, i: nat)
    requires InOrder(log, clock) && i < |log.attempts| && log.attempts[i].timestamp > cutoff
    ensures Checked(log, reason, i, |log.attempts|) <= CountOf(Pruned(log.attempts, cutoff), reason)
  {
    CountCovers(log.attempts, log, reason, i, cutoff);
  }

  /** Where a check finds room, there are fewer checked attempts than the limit. */
  lemma RoomIsFew(log: Log, reason: string, limit: int, cutoff: real, clock: real)
    requires InOrder(log, clock) && limit > 0 && Room(log.attempts, limit, reason, cutoff)
    ensures Few(log, reason, cutoff, limit - 1)
  {
    var most := limit - 1;
    forall i: nat ensures FewSince(log, reason, cutoff, most, i) {
      if i < |log.attempts| && log.attempts[i].timestamp > cutoff { RecentCounted(log, reason, cutoff, clock, i); }
    }
  }

  lemma FewLater(log: Log, reason: string, cutoff: real, later: real, most: int, more: int)
    requires Few(log, reason, cutoff, most) && cutoff <= later && most <= more
    ensures Few(log, reason, later, more)
  {
    forall i: nat ensures FewSince(log, reason, later, more, i) { assert FewSince(log, reason, cutoff, most, i); }
  }

  /** Appending an attempt keeps the spread if it is not a checked one for the reason, or few of those are recent. */
  lemma RecordSpread(log: Log, a: Attempt, checked: bool, reason: string, bound: int, window: real)
    requires |log.checked| == |log.attempts| && bound >= 1 && Spread(log, reason, bound, window)
    requires checked && a.reason == reason ==> Few(log, reason, a.timestamp - window, bound - 1)
    ensures Spread(Logged(log, a, checked), reason, bound, window)
  {
    var log' := Logged(log, a, checked);
    forall i: nat, j: nat ensures SpreadAt(log', reason, bound, window, i, j) {
      if i <= j < |log.attempts| {
        assert SpreadAt(log, reason, bound, window, i, j);
        CheckedPush(log, a, checked, reason, i, j + 1);
      } else if i <= j == |log.attempts| {
        CheckedPush(log, a, checked, reason, i, j);
        if checked && a.reason == reason { assert FewSince(log, reason, a.timestamp - window, bound - 1, i); }
      }
    }
  }

  /** Appending keeps the limit if the attempt is unchecked, or its check found room in the window. */
  lemma RecordLimited(log: Log, a: Attempt, checked: bool, limits: map<string, int>, window: real, cutoff: real,
                      clock: real)
    requires Limited(log, limits, window) && InOrder(log, clock)
    requires checked ==> Room(log.attempts, LimitOf(limits, a.reason), a.reason, cutoff)
    requires a.timestamp - window >= cutoff
    ensures Limited(Logged(log, a, checked), limits, window)
  {
    forall reason | LimitOf(limits, reason) > 0
      ensures Spread(Logged(log, a, checked), reason, LimitOf(limits, reason), window)
    {
      var limit := LimitOf(limits, reason);
      if checked && a.reason == reason {
        RoomIsFew(log, reason, limit, cutoff, clock);
        FewLater(log, reason, cutoff, a.timestamp - window, limit - 1, limit - 1);
      }
      RecordSpread(log, a, checked, reason, limit, window);
    }
  }

  /** What a restart returns, and the history, file and log it leaves. */
  function RestartResult(history: seq<Attempt>, file: seq<Attempt>, log: Log, window: real, limits: map<string, int>,
                         checkedAt: real, recordedAt: real, reason: string): (bool, seq<Attempt>, seq<Attempt>, Log)
  {
    var limit := LimitOf(limits, reason);
    var kept := if limit > 0 then Pruned(history, checkedAt - window) else history;
    if Room(history, limit, reason, checkedAt - window) then
      var a := Attempt(recordedAt, reason);
      (true, Recorded(kept, a, window), Recorded(kept, a, window), Logged(log, a, true))
    else (false, kept, file, log)
  }

  /** If all of the window is still known, the check counts right and the limit is kept. */
  lemma RestartKeepsLimit(h: seq<Attempt>, file: seq<Attempt>, log: Log, limits: map<string, int>, window: real,
                          clock: real, known: real, checkedAt: real, recordedAt: real, reason: string)
    requires Limited(log, limits, window) && InOrder(log, clock) && Retains(h, log, known)
    requires clock <= checkedAt <= recordedAt && known <= checkedAt - window
    ensures var (ok, _, _, log') := RestartResult(h, file, log, window, limits, checkedAt, recordedAt, reason);
            && Limited(log', limits, window)
            && (ok <==> Room(log.attempts, LimitOf(limits, reason), reason, checkedAt - window))
  {
    assert SameAfter(h, log, checkedAt - window);
    if Room(h, LimitOf(limits, reason), reason, checkedAt - window) {
      RecordLimited(log, Attempt(recordedAt, reason), true, limits, window, checkedAt - window, clock);
    }
  }

  /** Any window of the given length, open at its end, holds at most `bound` checked attempts for the reason. */
  lemma {:induction false} WindowBound(log: Log, reason: string, bound: nat, window: real, i: nat, j: nat)
    requires Spread(log, reason, bound, window)
    requires i < j <= |log.attempts| && log.attempts[j - 1].timestamp - log.attempts[i].timestamp < window
    requires forall m, n :: 0 <= m < n < |log.attempts| ==> log.attempts[m].timestamp <= log.attempts[n].timestamp
    ensures Checked(log, reason, i, j) <= bound
    decreases j - i
  {
    assert SpreadAt(log, reason, bound, window, i, j - 1);
    if CheckedAt(log, reason, j - 1) || i == j - 1 {
    } else {
      WindowBound(log, reason, bound, window, i, j - 1);
    }
  }

  /** Memory and file both know every attempt of the log that is later than `known`. */
  ghost predicate Remembers(window: real, history: seq<Attempt>, file: seq<Attempt>, log: Log, clock: real, known: real)
  {
    window >= 1.0 && InOrder(log, clock) && Retains(history, log, known) && Retains(file, log, known)
  }

  lemma PruneRemembers(window: real, history: seq<Attempt>, file: seq<Attempt>, log: Log, clock: real, known: real,
                       now: real)
    requires Remembers(window, history, file, log, clock, known) && clock <= now
    ensures Remembers(window, Pruned(history, now - window), file, log, now, Max(known, now - window))
  {
    PruneRetains(history, log, known, now - window);
    PruneRetains(file, log, known, now - window);
  }

  lemma RecordRemembers(window: real, history: seq<Attempt>, file: seq<Attempt>, log: Log, clock: real, known: real,
                        now: real, reason: string, checked: bool, h: seq<Attempt>)
    requires Remembers(window, history, file, log, clock, known) && clock <= now
    requires h == Recorded(history, Attempt(now, reason), window)
    ensures Remembers(window, h, h, Logged(log, Attempt(now, reason), checked), now, Max(known, now - window))
  {
    RecordedRetains(history, log, Attempt(now, reason), checked, known, window);
    InOrderPush(log, Attempt(now, reason), checked, clock);
  }

  class RestartHistory {
    const window: real
    var history: seq<Attempt>
    var file: seq<Attempt>
    ghost var log: Log
    ghost var clock: real  // the latest time that has been read
    ghost var known: real  // what is later than this has not been forgotten

    ghost predicate Valid()
      reads this
    {
      Remembers(window, history, file, log, clock, known)
    }

    /** A new process reloads the file that an earlier one left, with whatever window is configured now. */
    constructor (requested: real, file: seq<Attempt>, ghost log: Log, ghost clock: real, ghost known: real, now: real)
      requires clock <= now && InOrder(log, clock) && Retains(file, log, known)
      ensures Valid() && this.log == log && this.clock == now
      ensures window == if requested < 1.0 then 1.0 else requested
      ensures history == Pruned(file, now - window) == this.file
      ensures this.known == Max(known, now - window)
    {
      var w := Max(1.0, requested);
      this.window := w;
      this.history := file;
      this.log, this.clock, this.known := log, now, Max(known, now - w);
      new;
      Prune(now);
      this.file := history;
      PruneRetains(file, log, known, now - w);
    }

    method Prune(now: real)
      modifies this`history
      ensures history == Pruned(old(history), now - window)
    {
      var kept := [];
      for k := 0 to |history|
        invariant kept == Pruned(history[..k], now - window)
      {
        assert history[..k + 1][..k] == history[..k];
        if history[k].timestamp > now - window { kept := kept + [history[k]]; }
      }
      assert history[..|history|] == history;
      history := kept;
    }

    method Record(now: real, reason: string, ghost checked: bool)
      requires Valid() && clock <= now
      modifies this
      ensures Valid() && clock == now && known == Max(old(known), now - window)
      ensures log == Logged(old(log), Attempt(now, reason), checked)
      ensures history == Recorded(old(history), Attempt(now, reason), window) == file
    {
      Prune(now);
      history := history + [Attempt(now, reason)];
      RecordRemembers(window, old(history), file, log, clock, known, now, reason, checked, history);
      file := history;
      log, clock, known := Logged(log, Attempt(now, reason), checked), now, Max(known, now - window);
    }

    /** False stands for the error that gives up restarting. */
    method Check(now: real, maxRestarts: int, reason: string) returns (ok: bool)
      requires Valid() && clock <= now
      modifies this`history, this`clock, this`known
      ensures Valid() && old(clock) <= clock <= now
      ensures ok <==> Room(old(history), maxRestarts, reason, now - window)
      ensures maxRestarts <= 0 ==> ok
      ensures if maxRestarts > 0
              then && clock == now && history == Pruned(old(history), now - window)
                   && known == Max(old(known), now - window)
              else clock == old(clock) && history == old(history) && known == old(known)
    {
      if maxRestarts <= 0 {
        return true;
      }
      PruneRemembers(window, history, file, log, clock, known, now);
      clock, known := now, Max(known, now - window);
      Prune(now);
      ok := CountOf(history, reason) < maxRestarts;
    }

    /** A restart: checked and then recorded, with no other attempt in between. */
    method Restart(checkedAt: real, recordedAt: real, reason: string, limits: map<string, int>) returns (ok: bool)
      requires Valid() && clock <= checkedAt <= recordedAt
      modifies this
      ensures Valid()
      ensures (ok, history, file, log) ==
              RestartResult(old(history), old(file), old(log), window, limits, checkedAt, recordedAt, reason)
      ensures old(Limited(log, limits, window)) && old(known) <= checkedAt - window ==>
                && Limited(log, limits, window)
                && (ok <==> Room(old(log.attempts), LimitOf(limits, reason), reason, checkedAt - window))
    {
      if Limited(log, limits, window) && known <= checkedAt - window {
        RestartKeepsLimit(history, file, log, limits, window, clock, known, checkedAt, recordedAt, reason);
      }
      ok := CheckAndRecord(checkedAt, recordedAt, reason, limits);
    }

    method CheckAndRecord(checkedAt: real, recordedAt: real, reason: string, limits: map<string, int>)
        returns (ok: bool)
      requires Valid() && clock <= checkedAt <= recordedAt
      modifies this
      ensures Valid()
      ensures (ok, history, file, log) ==
              RestartResult(old(history), old(file), old(log), window, limits, checkedAt, recordedAt, reason)
    {
      ok := Check(checkedAt, LimitOf(limits, reason), reason);
      if ok {
        Record(recordedAt, reason, true);
      }
    }

    /** The watchdog records its restarts without a check. */
    method RecordUnchecked(now: real, reason: string, ghost limits: map<string, int>)
      requires Valid() && clock <= now
      modifies this
      ensures Valid() && log == Logged(old(log), Attempt(now, reason), false)
      ensures history == Recorded(old(history), Attempt(now, reason), window) == file
      ensures old(Limited(log, limits, window)) ==> Limited(log, limits, window)
    {
      if Limited(log, limits, window) {
        RecordLimited(log, Attempt(now, reason), false, limits, window, now - window, clock);
      }
      Record(now, reason, false);
    }
  }

  /** The window must be open at its end: two checked restarts exactly a window apart pass a limit of one. */
  lemma ClosedWindowExceedsLimit(window: real)
    requires window >= 1.0
    ensures var log := Log([Attempt(1.0, "r"), Attempt(1.0 + window, "r")], [true, true]);
            && CountOf(Pruned([log.attempts[0]], log.attempts[1].timestamp - window), "r") < 1
            && Checked(log, "r", 0, 2) == 2
            && log.attempts[1].timestamp - log.attempts[0].timestamp == window
  {
  }
}
