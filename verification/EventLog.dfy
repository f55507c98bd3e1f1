/**
 The event log of one chat: an append-only file, a bounded ring over its end that
 is loaded on first use, and clients that poll with a cursor.
 */
module EventLog {
  import opened Wrappers

  datatype Event = Event(seqNo: int, payload: string)

  const RING_MAX := 500

  /** The newest events, as many as the ring holds. */
  function Ring(file: seq<Event>): seq<Event> {
    if |file| <= RING_MAX then file else file[|file| - RING_MAX..]
  }

  lemma RingMeans(file: seq<Event>)
    ensures Ring(file) == file[if |file| <= 500 then 0 else |file| - 500..]
  {
  }

  /** A log that numbers its events 1, 2, 3, ... */
  ghost predicate Contiguous(log: seq<Event>) {
    forall k :: 0 <= k < |log| ==> log[k].seqNo == k + 1
  }

  function NextSeq(ring: seq<Event>): int {
    if ring == [] then 1 else ring[|ring| - 1].seqNo + 1
  }

  /** The events after the cursor, in order. */
  function After(ring: seq<Event>, since: int): seq<Event> {
    if ring == [] then []
    else After(ring[..|ring| - 1], since) + if ring[|ring| - 1].seqNo > since then [ring[|ring| - 1]] else []
  }

  datatype Answer = Answer(events: seq<Event>, nextSeq: int, truncated: bool)

  function Answered(ring: seq<Event>, since: int, limit: nat): Answer {
    var events := After(ring, since);
    Answer(if |events| <= limit then events else events[..limit], NextSeq(ring),
           ring != [] && since < ring[0].seqNo - 1)
  }

  class EventLog {
    var file: seq<Event>
    var ring: Option<seq<Event>>  // None until the chat is first used

    /** The ring that the next call works on. */
    function Current(): seq<Event>
      reads this
    {
      if ring.Some? then ring.value else Ring(file)
    }

    /** A new process over what earlier ones have written. */
    constructor (file: seq<Event>)
      ensures this.file == file && ring == None
    {
      this.file, ring := file, None;
    }

    method LoadRing() returns (r: seq<Event>)
      modifies this`ring
      ensures ring == Some(r) && r == old(Current())
    {
      if ring.Some? {
        return ring.value;
      }
      r := if |file| <= RING_MAX then file else file[|file| - RING_MAX..];
      ring := Some(r);
    }

    /** Appends an event; if the write to the file fails, only the ring carries it. */
    method Append(payload: string, written: bool) returns (e: Event)
      modifies this
      ensures e == Event(NextSeq(old(Current())), payload)
      ensures ring == Some(Ring(old(Current()) + [e]))
      ensures file == if written then old(file) + [e] else old(file)
    {
      var r := LoadRing();
      e := Event(NextSeq(r), payload);
      if written {
        file := file + [e];
      }
      ring := Some(Ring(r + [e]));
    }

    /** One evaluation of the polling loop: what it returns when it returns. */
    method Since(since: int, limit: nat) returns (a: Answer)
      modifies this`ring
      ensures Current() == old(Current())
      ensures a == Answered(Current(), since, limit)
    {
      var r := LoadRing();
      var events := [];
      for k := 0 to |r|
        invariant events == After(r[..k], since)
      {
        assert r[..k + 1][..k] == r[..k];
        if r[k].seqNo > since { events := events + [r[k]]; }
      }
      assert r[..|r|] == r;
      a := Answer(if |events| <= limit then events else events[..limit], NextSeq(r), r != [] && since < r[0].seqNo - 1);
    }
  }

  // ------------------------------------------------------------- what a poll sees

  /** How many events of a ring that begins after number `base` a cursor has passed. */
  function Passed(n: nat, base: nat, since: int): nat {
    if since <= base then 0 else if since - base <= n then since - base else n
  }

  lemma {:induction false} AfterConcat(a: seq<Event>, b: seq<Event>, since: int)
    ensures After(a + b, since) == After(a, since) + After(b, since)
  {
    if b == [] {
      assert a + b == a;
    } else {
      assert (a + b)[..|a + b| - 1] == a + b[..|b| - 1];
      AfterConcat(a, b[..|b| - 1], since);
    }
  }

  lemma {:induction false} NothingAfter(ring: seq<Event>, since: int)
    requires forall k :: 0 <= k < |ring| ==> ring[k].seqNo <= since
    ensures After(ring, since) == []
  {
    if ring == [] {
    } else {
      NothingAfter(ring[..|ring| - 1], since);
    }
  }

  lemma {:induction false} AllAfter(ring: seq<Event>, since: int)
    requires forall k :: 0 <= k < |ring| ==> ring[k].seqNo > since
    ensures After(ring, since) == ring
  {
    if ring == [] {
    } else {
      AllAfter(ring[..|ring| - 1], since);
    }
  }

  lemma AfterSplit(ring: seq<Event>, p: nat, since: int)
    requires p <= |ring|
    requires forall k :: 0 <= k < p ==> ring[k].seqNo <= since
    requires forall k :: p <= k < |ring| ==> ring[k].seqNo > since
    ensures After(ring, since) == ring[p..]
  {
    NothingAfter(ring[..p], since);
    AllAfter(ring[p..], since);
    AfterConcat(ring[..p], ring[p..], since);
    assert ring == ring[..p] + ring[p..];
  }

  lemma AfterIs(ring: seq<Event>, base: nat, since: int)
    requires forall k :: 0 <= k < |ring| ==> ring[k].seqNo == base + k + 1
    ensures After(ring, since) == ring[Passed(|ring|, base, since)..]
  {
    AfterSplit(ring, Passed(|ring|, base, since), since);
  }

  function Dropped(file: seq<Event>): nat {
    if |file| <= RING_MAX then 0 else |file| - RING_MAX
  }

  lemma SliceOfSlice(file: seq<Event>, d: nat, p: nat)
    requires d + p <= |file|
    ensures file[d..][p..] == file[d + p..]
  {
  }

  lemma RingAfter(file: seq<Event>, since: int)
    requires Contiguous(file)
    ensures var from := Dropped(file) + Passed(|Ring(file)|, Dropped(file), since);
            from <= |file| && After(Ring(file), since) == file[from..]
  {
    var d := Dropped(file);
    assert Ring(file) == file[d..];
    AfterIs(file[d..], d, since);
    SliceOfSlice(file, d, Passed(|Ring(file)|, d, since));
  }

  lemma NextIs(file: seq<Event>)
    requires Contiguous(file)
    ensures NextSeq(Ring(file)) == |file| + 1
  {
  }

  lemma Capped(file: seq<Event>, from: nat, limit: nat)
    requires from <= |file|
    ensures (if |file[from..]| <= limit then file[from..] else file[from..][..limit])
            == file[from..if |file| - from <= limit then |file| else from + limit]
  {
  }

  /** A poll answers with the events after the cursor that the ring still holds, from the oldest on. */
  lemma PollSees(file: seq<Event>, since: int, limit: nat)
    requires Contiguous(file)
    ensures var from := Dropped(file) + Passed(|Ring(file)|, Dropped(file), since);
            var a := Answered(Ring(file), since, limit);
            && from <= |file|
            && a.events == file[from..if |file| - from <= limit then |file| else from + limit]
            && a.nextSeq == |file| + 1
  {
    RingAfter(file, since);
    NextIs(file);
    Capped(file, Dropped(file) + Passed(|Ring(file)|, Dropped(file), since), limit);
  }

  /** Some event after the cursor has left the ring. */
  ghost predicate Missed(file: seq<Event>, since: int) {
    exists k :: 0 <= k < Dropped(file) && file[k].seqNo > since
  }

  /** `truncated` is right for every cursor a client can have; only a negative one on an undropped log is wrong. */
  lemma TruncatedExactly(file: seq<Event>, since: int, limit: nat)
    requires Contiguous(file)
    ensures (Answered(Ring(file), since, limit).truncated <==> Missed(file, since))
            <==> (since >= 0 || file == [] || |file| > RING_MAX)
  {
    if Dropped(file) > 0 {
      assert Ring(file)[0] == file[Dropped(file)];
      if since < Dropped(file) { assert file[Dropped(file) - 1].seqNo > since; }
    }
  }

  // ------------------------------------------------------------------------ runs

  datatype Action = Append(payload: string, written: bool) | Restart | Poll(limit: nat)

  /**
   The file, the ring of the current process, and one client. `log` is the history
   of all events ever appended, and `written` says which of them reached the file.
   */
  datatype World = World(file: seq<Event>, ring: Option<seq<Event>>, received: seq<Event>, cursor: int,
                         log: seq<Event>, written: seq<bool>)

  function RingOf(w: World): seq<Event> {
    if w.ring.Some? then w.ring.value else Ring(w.file)
  }

  /** The client advances to the last event it has received; it gives up on a truncated answer. */
  ghost predicate Step(w: World, act: Action, w': World) {
    match act
    case Append(payload, written) =>
      var e := Event(NextSeq(RingOf(w)), payload);
      w' == w.(file := if written then w.file + [e] else w.file, ring := Some(Ring(RingOf(w) + [e])),
               log := w.log + [e], written := w.written + [written])
    case Restart => w' == w.(ring := None)
    case Poll(limit) =>
      var a := Answered(RingOf(w), w.cursor, limit);
      && !a.truncated
      && w' == w.(ring := Some(RingOf(w)), received := w.received + a.events,
                  cursor := if a.events == [] then w.cursor else a.events[|a.events| - 1].seqNo)
  }

  ghost predicate StepAt(ws: seq<World>, acts: seq<Action>, k: nat) {
    k < |acts| && k + 1 < |ws| && Step(ws[k], acts[k], ws[k + 1])
  }

  ghost predicate Run(ws: seq<World>, acts: seq<Action>) {
    && |ws| == |acts| + 1 && ws[0] == World([], None, [], 0, [], [])
    && forall m: nat :: m < |acts| ==> StepAt(ws, acts, m)
  }

  // ------------------------------------------------------ what a restart preserves

  /** The events of a history that reached the file. */
  ghost function Persisted(log: seq<Event>, written: seq<bool>): seq<Event>
    requires |log| == |written|
  {
    if log == [] then []
    else
      var n := |log| - 1;
      Persisted(log[..n], written[..n]) + if written[n] then [log[n]] else []
  }

  /** The file is what was written of the history. */
  ghost predicate Booked(w: World) {
    |w.log| == |w.written| && w.file == Persisted(w.log, w.written)
  }

  /** Every event that the ring should hold is in the file. */
  ghost predicate Harmless(w: World) {
    |w.log| == |w.written| && forall i :: Dropped(w.log) <= i < |w.log| ==> w.written[i]
  }

  /** No two events look alike; they carry the time of their making. */
  ghost predicate Distinct(log: seq<Event>) {
    forall i, j :: 0 <= i < j < |log| ==> log[i] != log[j]
  }

  lemma {:induction false} PersistedTail(log: seq<Event>, written: seq<bool>, d: nat)
    requires |log| == |written| && d <= |log| && forall i :: d <= i < |log| ==> written[i]
    ensures Persisted(log, written) == Persisted(log[..d], written[..d]) + log[d..]
  {
    if d == |log| {
      assert log[..d] == log && written[..d] == written;
    } else {
      var n := |log| - 1;
      PersistedTail(log[..n], written[..n], d);
      assert log[..n][..d] == log[..d] && written[..n][..d] == written[..d];
      assert log[d..] == log[..n][d..] + [log[n]];
    }
  }

  lemma {:induction false} OnlyWritten(log: seq<Event>, written: seq<bool>, i: nat)
    requires |log| == |written| && i < |log| && !written[i] && Distinct(log)
    ensures log[i] !in Persisted(log, written)
  {
    var n := |log| - 1;
    if i < n {
      OnlyWritten(log[..n], written[..n], i);
    } else {
      PersistedAreOld(log[..n], written[..n]);
    }
  }

  lemma {:induction false} PersistedAreOld(log: seq<Event>, written: seq<bool>)
    requires |log| == |written|
    ensures forall e :: e in Persisted(log, written) ==> e in log
  {
    if log == [] {
    } else {
      PersistedAreOld(log[..|log| - 1], written[..|log| - 1]);
    }
  }

  /** A reload gives the ring of the whole history exactly if all that the ring should hold was written. */
  lemma ReloadExactly(w: World)
    requires Booked(w) && Distinct(w.log)
    ensures Ring(w.file) == Ring(w.log) <==> Harmless(w)
  {
    if Harmless(w) {
      HarmlessReload(w);
    } else {
      var i :| Dropped(w.log) <= i < |w.log| && !w.written[i];
      OnlyWritten(w.log, w.written, i);
      assert Ring(w.log)[i - Dropped(w.log)] == w.log[i];
    }
  }

  lemma HarmlessReload(w: World)
    requires Booked(w) && Harmless(w)
    ensures Ring(w.file) == Ring(w.log)
  {
    PersistedTail(w.log, w.written, Dropped(w.log));
  }

  // -------------------------------------------------------------------- delivery

  ghost predicate Sound(w: World) {
    && Booked(w) && Contiguous(w.log) && RingOf(w) == Ring(w.log)
    && w.cursor == |w.received| && w.received <= w.log
  }

  /** Pushing on the ring is the same as pushing on the log. */
  lemma RingPush(log: seq<Event>, e: Event)
    ensures Ring(Ring(log) + [e]) == Ring(log + [e])
  {
  }

  lemma AppendSound(log: seq<Event>, e: Event)
    requires Contiguous(log) && e.seqNo == NextSeq(Ring(log))
    ensures Contiguous(log + [e]) && e.seqNo == |log| + 1
  {
  }

  lemma PrefixPlus(log: seq<Event>, r: nat, n: nat)
    requires r + n <= |log|
    ensures log[..r] + log[r..r + n] == log[..r + n]
  {
  }

  lemma UntruncatedFrom(log: seq<Event>, since: nat, limit: nat)
    requires Contiguous(log) && since <= |log| && !Answered(Ring(log), since, limit).truncated
    ensures Dropped(log) + Passed(|Ring(log)|, Dropped(log), since) == since
  {
    if Dropped(log) > 0 { assert Ring(log)[0] == log[Dropped(log)]; }
  }

  lemma TakenFrom(log: seq<Event>, received: seq<Event>, limit: nat, events: seq<Event>)
    requires Contiguous(log) && received <= log
    requires events == if |log[|received|..]| <= limit then log[|received|..] else log[|received|..][..limit]
    ensures received + events <= log
    ensures events != [] ==> events[|events| - 1].seqNo == |received| + |events|
  {
    var r, n := |received|, |events|;
    assert events == log[r..r + n];
    PrefixPlus(log, r, n);
    if n > 0 { assert events[n - 1] == log[r + n - 1]; }
  }

  lemma PollSound(log: seq<Event>, received: seq<Event>, limit: nat)
    requires Contiguous(log) && received <= log
    requires !Answered(Ring(log), |received|, limit).truncated
    ensures var a := Answered(Ring(log), |received|, limit);
            && received + a.events <= log
            && (a.events != [] ==> a.events[|a.events| - 1].seqNo == |received| + |a.events|)
  {
    UntruncatedFrom(log, |received|, limit);
    RingAfter(log, |received|);
    TakenFrom(log, received, limit, Answered(Ring(log), |received|, limit).events);
  }

  lemma StepBooked(w: World, act: Action, w': World)
    requires Booked(w) && Step(w, act, w')
    ensures Booked(w') && w.log <= w'.log
  {
    if act.Append? {
      assert w'.log[..|w.log|] == w.log && w'.written[..|w.log|] == w.written;
    }
  }

  lemma StepSound(w: World, act: Action, w': World)
    requires Sound(w) && Step(w, act, w') && (act.Restart? ==> Harmless(w))
    ensures Sound(w')
  {
    StepBooked(w, act, w');
    match act
    case Append(payload, written) =>
      RingPush(w.log, Event(NextSeq(RingOf(w)), payload));
      AppendSound(w.log, Event(NextSeq(RingOf(w)), payload));
    case Restart => HarmlessReload(w);
    case Poll(limit) => PollSound(w.log, w.received, limit);
  }

  /**
   Whatever writes fail: if every restart finds in the file all that the ring should
   hold, a client without truncated polls has received exactly a prefix of all events.
   */
  lemma {:induction false} CursorDelivery(ws: seq<World>, acts: seq<Action>, k: nat)
    requires Run(ws, acts) && k < |ws|
    requires forall m :: 0 <= m < k && acts[m].Restart? ==> Harmless(ws[m])
    ensures ws[k].received <= ws[k].log && ws[k].cursor == |ws[k].received|
    ensures Contiguous(ws[k].log) && RingOf(ws[k]) == Ring(ws[k].log)
    ensures Booked(ws[k])
    decreases k
  {
    if k == 0 {
    } else {
      CursorDelivery(ws, acts, k - 1);
      assert StepAt(ws, acts, k - 1);
      StepSound(ws[k - 1], acts[k - 1], ws[k]);
    }
  }

  // --------------------------------------------------------- one client's delivery

  /**
   The ring is some front that is of no interest to the client, and then the events of
   the log from position d on, at least the last one; there is no such front if the
   client needs more than the ring has.
   */
  ghost predicate EndsLike(ring: seq<Event>, front: seq<Event>, log: seq<Event>, cursor: int, d: nat) {
    && d <= |log| && ring == front + log[d..]
    && (if log == [] then front == [] else d < |log|)
    && (forall k :: 0 <= k < |front| ==> front[k].seqNo <= cursor)
    && (d > cursor ==> front == [])
  }

  /** The last event, and all that the client still needs and the ring should hold, have been written. */
  ghost predicate HarmlessTo(w: World) {
    && |w.log| == |w.written| && (w.log != [] ==> w.written[|w.log| - 1])
    && forall i :: Dropped(w.log) <= i < |w.log| && w.cursor <= i ==> w.written[i]
  }

  ghost predicate Served(w: World) {
    && Booked(w) && Contiguous(w.log) && w.cursor == |w.received| && w.received <= w.log
    && exists front, d :: EndsLike(RingOf(w), front, w.log, w.cursor, d)
  }

  lemma RingOfConcat(p: seq<Event>, tail: seq<Event>) returns (front: seq<Event>)
    requires |tail| <= RING_MAX
    ensures Ring(p + tail) == front + tail && (forall k :: 0 <= k < |front| ==> front[k] in p)
    ensures |tail| == RING_MAX ==> front == []
  {
    front := if |p| + |tail| <= RING_MAX then p else p[|p| + |tail| - RING_MAX..];
  }

  /** The position from which on a reload is sure to bring back the log to the client. */
  function SureFrom(w: World): nat {
    if w.log == [] then 0
    else if w.cursor <= Dropped(w.log) then Dropped(w.log)
    else if w.cursor < |w.log| then w.cursor
    else |w.log| - 1
  }

  lemma PersistedBelow(log: seq<Event>, written: seq<bool>, d: nat)
    requires |log| == |written| && d <= |log| && Contiguous(log)
    ensures forall e :: e in Persisted(log[..d], written[..d]) ==> e.seqNo <= d
    ensures d == 0 ==> Persisted(log[..d], written[..d]) == []
  {
    PersistedAreOld(log[..d], written[..d]);
  }

  lemma ReloadEndsLike(w: World) returns (front: seq<Event>)
    requires Booked(w) && Contiguous(w.log) && HarmlessTo(w)
    ensures EndsLike(Ring(w.file), front, w.log, w.cursor, SureFrom(w))
  {
    var d := SureFrom(w);
    PersistedTail(w.log, w.written, d);
    PersistedBelow(w.log, w.written, d);
    front := RingOfConcat(Persisted(w.log[..d], w.written[..d]), w.log[d..]);
  }

  lemma PushWhole(ring: seq<Event>, front: seq<Event>, log: seq<Event>, d: nat, e: Event)
    requires d <= |log| && ring == front + log[d..]
    ensures ring + [e] == front + (log + [e])[d..]
  {
    assert (log + [e])[d..] == log[d..] + [e];
  }

  lemma DropFirst(front: seq<Event>, log: seq<Event>, d: nat)
    requires d < |log|
    ensures (front + log[d..])[1..] == if front == [] then log[d + 1..] else front[1..] + log[d..]
  {
  }

  lemma PushEndsLike(ring: seq<Event>, front: seq<Event>, log: seq<Event>, cursor: int, d: nat, e: Event)
      returns (front': seq<Event>, d': nat)
    requires EndsLike(ring, front, log, cursor, d) && |ring| <= RING_MAX
    ensures EndsLike(Ring(ring + [e]), front', log + [e], cursor, d')
  {
    PushWhole(ring, front, log, d, e);
    front', d' := front, d;
    if |ring| == RING_MAX {
      DropFirst(front, log + [e], d);
      if front == [] { d' := d + 1; } else { front' := front[1..]; }
    }
  }

  lemma NextAgrees(ring: seq<Event>, front: seq<Event>, log: seq<Event>, cursor: int, d: nat)
    requires EndsLike(ring, front, log, cursor, d) && Contiguous(log)
    ensures NextSeq(ring) == |log| + 1
  {
    if log != [] { assert ring[|ring| - 1] == log[|log| - 1]; }
  }

  lemma NotAhead(ring: seq<Event>, front: seq<Event>, log: seq<Event>, cursor: nat, d: nat, limit: nat)
    requires EndsLike(ring, front, log, cursor, d) && Contiguous(log) && !Answered(ring, cursor, limit).truncated
    ensures d <= cursor
  {
    if front == [] && log != [] { assert ring[0] == log[d]; }
  }

  /** An untruncated poll of such a ring returns what a poll of the whole log would. */
  lemma PollEndsLike(ring: seq<Event>, front: seq<Event>, log: seq<Event>, cursor: nat, d: nat)
    requires EndsLike(ring, front, log, cursor, d) && Contiguous(log) && d <= cursor <= |log|
    ensures After(ring, cursor) == log[cursor..]
  {
    NothingAfter(front, cursor);
    TailAfter(log, d, cursor);
    AfterConcat(front, log[d..], cursor);
  }

  lemma TailAfter(log: seq<Event>, d: nat, cursor: nat)
    requires Contiguous(log) && d <= cursor <= |log|
    ensures After(log[d..], cursor) == log[cursor..]
  {
    AfterIs(log[d..], d, cursor);
    SliceOfSlice(log, d, cursor - d);
  }

  lemma PollMoves(ring: seq<Event>, front: seq<Event>, log: seq<Event>, received: seq<Event>, d: nat, limit: nat,
                  events: seq<Event>)
    requires EndsLike(ring, front, log, |received|, d) && Contiguous(log) && received <= log
    requires Untruncated(ring, |received|, limit, events)
    ensures received + events <= log && EndsLike(ring, front, log, |received + events|, d)
    ensures events != [] ==> events[|events| - 1].seqNo == |received + events|
  {
    NotAhead(ring, front, log, |received|, d, limit);
    PollEndsLike(ring, front, log, |received|, d);
    TakenFrom(log, received, limit, events);
  }

  ghost predicate Untruncated(ring: seq<Event>, cursor: int, limit: nat, events: seq<Event>) {
    events == Answered(ring, cursor, limit).events && !Answered(ring, cursor, limit).truncated
  }

  lemma ServedWith(w: World, front: seq<Event>, d: nat)
    requires Booked(w) && Contiguous(w.log) && w.cursor == |w.received| && w.received <= w.log
    requires EndsLike(RingOf(w), front, w.log, w.cursor, d)
    ensures Served(w)
  {
  }

  lemma PollStep(w: World, limit: nat, w': World) returns (events: seq<Event>)
    requires Step(w, Poll(limit), w') && Booked(w)
    ensures Untruncated(RingOf(w), w.cursor, limit, events)
    ensures Booked(w') && w'.log == w.log && RingOf(w') == RingOf(w) && w'.received == w.received + events
    ensures w'.cursor == if events == [] then w.cursor else events[|events| - 1].seqNo
  {
    events := Answered(RingOf(w), w.cursor, limit).events;
  }

  lemma PollServed(w: World, limit: nat, w': World)
    requires Served(w) && Step(w, Poll(limit), w')
    ensures Served(w')
  {
    var front, d :| EndsLike(RingOf(w), front, w.log, w.cursor, d);
    var events := PollStep(w, limit, w');
    Polled(w, w', limit, front, d, events);
  }

  lemma Polled(w: World, w': World, limit: nat, front: seq<Event>, d: nat, events: seq<Event>)
    requires EndsLike(RingOf(w), front, w.log, w.cursor, d) && Untruncated(RingOf(w), w.cursor, limit, events)
    requires Contiguous(w.log) && w.cursor == |w.received| && w.received <= w.log
    requires Booked(w') && w'.log == w.log && RingOf(w') == RingOf(w) && w'.received == w.received + events
    requires w'.cursor == if events == [] then w.cursor else events[|events| - 1].seqNo
    ensures Served(w')
  {
    PollMoves(RingOf(w), front, w.log, w.received, d, limit, events);
    ServedWith(w', front, d);
  }

  lemma AppendEndsLike(ring: seq<Event>, front: seq<Event>, log: seq<Event>, cursor: int, d: nat, payload: string)
      returns (front': seq<Event>, d': nat)
    requires EndsLike(ring, front, log, cursor, d) && |ring| <= RING_MAX && Contiguous(log)
    ensures var e := Event(NextSeq(ring), payload);
            EndsLike(Ring(ring + [e]), front', log + [e], cursor, d') && Contiguous(log + [e])
  {
    NextAgrees(ring, front, log, cursor, d);
    front', d' := PushEndsLike(ring, front, log, cursor, d, Event(NextSeq(ring), payload));
  }

  lemma AppendServed(w: World, payload: string, written: bool, w': World)
    requires Served(w) && Step(w, Append(payload, written), w') && |RingOf(w)| <= RING_MAX
    ensures Served(w')
  {
    StepBooked(w, Append(payload, written), w');
    var front, d :| EndsLike(RingOf(w), front, w.log, w.cursor, d);
    var front', d' := AppendEndsLike(RingOf(w), front, w.log, w.cursor, d, payload);
    ServedWith(w', front', d');
  }

  lemma RestartServed(w: World, w': World)
    requires Served(w) && Step(w, Restart, w') && HarmlessTo(w)
    ensures Served(w')
  {
    var front := ReloadEndsLike(w);
    ServedWith(w', front, SureFrom(w));
  }

  lemma StepServed(w: World, act: Action, w': World)
    requires Served(w) && Step(w, act, w') && |RingOf(w)| <= RING_MAX && (act.Restart? ==> HarmlessTo(w))
    ensures Served(w') && |RingOf(w')| <= RING_MAX
  {
    match act
    case Append(payload, written) => AppendServed(w, payload, written, w');
    case Restart => RestartServed(w, w');
    case Poll(limit) => PollServed(w, limit, w');
  }

  /**
   For one client less is enough: if every restart finds in the file the last event and
   all that this client still needs, it has received exactly a prefix of all events.
   */
  lemma {:induction false} ClientDelivery(ws: seq<World>, acts: seq<Action>, k: nat)
    requires Run(ws, acts) && k < |ws|
    requires forall m :: 0 <= m < k && acts[m].Restart? ==> HarmlessTo(ws[m])
    ensures Served(ws[k]) && |RingOf(ws[k])| <= RING_MAX
    decreases k
  {
    if k == 0 {
      ServedWith(ws[0], [], 0);
    } else {
      ClientDelivery(ws, acts, k - 1);
      assert StepAt(ws, acts, k - 1);
      StepServed(ws[k - 1], acts[k - 1], ws[k]);
    }
  }

  // ------------------------------------------------------------------------ loss

  lemma {:induction false} LogGrows(ws: seq<World>, acts: seq<Action>, k: nat, m: nat)
    requires Run(ws, acts) && k <= m < |ws|
    ensures Booked(ws[k]) && Booked(ws[m]) && ws[k].log <= ws[m].log
    decreases m
  {
    if m == 0 {
    } else if k == m {
      LogGrows(ws, acts, k - 1, m - 1);
      assert StepAt(ws, acts, m - 1);
      StepBooked(ws[m - 1], acts[m - 1], ws[m]);
    } else {
      LogGrows(ws, acts, k, m - 1);
      assert StepAt(ws, acts, m - 1);
      StepBooked(ws[m - 1], acts[m - 1], ws[m]);
    }
  }

  /** One of the events of an earlier state, if no later one looks like it, stays out of file and ring. */
  lemma StepKeepsLost(w: World, act: Action, w': World, past: seq<Event>, i: nat)
    requires Step(w, act, w') && i < |past| && past <= w.log && Distinct(w'.log)
    requires past[i] !in w.file && past[i] !in RingOf(w)
    ensures past[i] !in w'.file && past[i] !in RingOf(w')
  {
    if act.Append? { assert w'.log[i] == past[i] && w'.log[i] != w'.log[|w.log|]; }
  }

  lemma RestartLoses(w: World, w': World, i: nat)
    requires Step(w, Restart, w') && Booked(w) && Distinct(w.log) && i < |w.log| && !w.written[i]
    ensures w.log[i] !in w'.file && w.log[i] !in RingOf(w')
  {
    OnlyWritten(w.log, w.written, i);
  }

  lemma DistinctPrefix(a: seq<Event>, b: seq<Event>)
    requires a <= b && Distinct(b)
    ensures Distinct(a)
  {
  }

  lemma {:induction false} AfterFrom(ring: seq<Event>, since: int)
    ensures forall e :: e in After(ring, since) ==> e in ring
  {
    if ring == [] {
    } else {
      AfterFrom(ring[..|ring| - 1], since);
    }
  }

  lemma {:induction false} LostStaysLost(ws: seq<World>, acts: seq<Action>, k: nat, m: nat, i: nat)
    requires Run(ws, acts) && k < m < |ws| && acts[k].Restart?
    requires i < |ws[k].log| == |ws[k].written| && !ws[k].written[i] && Distinct(ws[m].log)
    ensures ws[k].log[i] !in ws[m].file && ws[k].log[i] !in RingOf(ws[m])
    decreases m
  {
    LogGrows(ws, acts, k, m - 1);
    LogGrows(ws, acts, m - 1, m);
    DistinctPrefix(ws[m - 1].log, ws[m].log);
    assert StepAt(ws, acts, m - 1);
    if m == k + 1 {
      RestartLoses(ws[k], ws[m], i);
    } else {
      LostStaysLost(ws, acts, k, m - 1, i);
      StepKeepsLost(ws[m - 1], acts[m - 1], ws[m], ws[k].log, i);
    }
  }

  /** The converse: an event that is unwritten at a restart is never returned again, whatever the cursor. */
  lemma UnwrittenIsLost(ws: seq<World>, acts: seq<Action>, k: nat, m: nat, i: nat, since: int, limit: nat)
    requires Run(ws, acts) && k < m < |ws| && acts[k].Restart?
    requires i < |ws[k].log| == |ws[k].written| && !ws[k].written[i] && Distinct(ws[m].log)
    ensures ws[k].log[i] !in Answered(RingOf(ws[m]), since, limit).events
  {
    LostStaysLost(ws, acts, k, m, i);
    AfterFrom(RingOf(ws[m]), since);
  }

  lemma ShownByRing(file: seq<Event>, lost: Event)
    requires Contiguous(file) && lost.seqNo == NextSeq(Ring(file))
    ensures lost in After(Ring(Ring(file) + [lost]), lost.seqNo - 1)
  {
    RingPush(file, lost);
    AppendSound(file, lost);
    PollSees(file + [lost], |file|, 1);
    assert (file + [lost])[|file|..|file| + 1] == [lost];
  }

  /**
   One way to miss an event: it is shown to clients but not written, a restart forgets
   it, the next event gets the same number, and a client that saw the first one never
   sees the second.
   */
  lemma FailedWriteHidesAnEvent(file: seq<Event>, lost: Event, next: Event, limit: nat)
    requires Contiguous(file) && lost.seqNo == NextSeq(Ring(file)) && next.seqNo == NextSeq(Ring(file))
    ensures lost in After(Ring(Ring(file) + [lost]), lost.seqNo - 1)
    ensures var polled := Answered(Ring(file + [next]), lost.seqNo, limit);
            polled.events == [] && !polled.truncated
  {
    ShownByRing(file, lost);
    AppendSound(file, next);
    SuccessorHidden(file, next, limit);
  }

  lemma SuccessorHidden(file: seq<Event>, next: Event, limit: nat)
    requires Contiguous(file) && next.seqNo == |file| + 1
    ensures var polled := Answered(Ring(file + [next]), |file| + 1, limit); polled.events == [] && !polled.truncated
  {
    HoleRing(file, next);
    NothingLeft(Ring(file + [next]), |file| + 1, limit);
  }

  lemma NothingLeft(ring: seq<Event>, since: int, limit: nat)
    requires forall k :: 0 <= k < |ring| ==> ring[k].seqNo <= since
    ensures Answered(ring, since, limit).events == [] && !Answered(ring, since, limit).truncated
  {
    NothingAfter(ring, since);
  }

  /**
   Another: the event after the unwritten one is written. After a restart a client that
   has all of the file polls the later event only, and is told of a gap only if the
   file was empty.
   */
  lemma InteriorHole(file: seq<Event>, lost: Event, next: Event, limit: nat)
    requires Contiguous(file) && limit > 0
    requires lost.seqNo == NextSeq(Ring(file)) && next.seqNo == NextSeq(Ring(file) + [lost])
    ensures var polled := Answered(Ring(file + [next]), |file|, limit);
            polled.events == [next] && (polled.truncated <==> file == [])
  {
    AppendSound(file, lost);
    HoleRing(file, next);
    var ring := Ring(file + [next]);
    NothingAfter(ring[..|ring| - 1], |file|);
  }

  lemma HoleRing(file: seq<Event>, next: Event)
    requires Contiguous(file)
    ensures var ring := Ring(file + [next]);
            && ring != [] && ring[|ring| - 1] == next && (file == [] <==> |ring| == 1)
            && (forall k :: 0 <= k < |ring| - 1 ==> 1 <= ring[k].seqNo <= |file|)
  {
  }
}
