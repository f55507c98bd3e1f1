/**
 The durable path of a turn: buffer, backing file, spool, server, dead letters.

 Every step of every component is an event of its own, so a run is any
 interleaving of turns being recorded, hand-overs that may fail, other threads'
 items, flush passes with any POST outcomes, and restarts between operations.
 */
module RetainPipeline {
  import opened RetainBuffer
  import opened HindsightSpool

  /** Where the buffer's thread stands: which part of `append` or `flush` comes next. */
  datatype Phase =
    | Resting
    | Flushing(next: Goal)  // handing over head runs
    | Deleting(end: nat, next: Goal)  // a run has been handed over and is still in the buffer
    | Writing(next: Goal)   // about to write the backing file
    | Adding(e: Entry)      // about to put the new turn into the buffer

  /** What follows a flush: nothing, or the turn whose session made it necessary. */
  datatype Goal = Return | Add(e: Entry)

  /** `recorded` and `given` are histories: all turns recorded, all documents the backend has taken. */
  datatype System = System(bundle: int, entries: seq<Entry>, file: seq<Entry>, phase: Phase, store: Store,
                           recorded: seq<Entry>, given: seq<Document>)

  datatype Event =
    | Append(e: Entry)          // a turn is to be recorded
    | Flush
    | Hand(end: nat, ok: bool)  // the flush loop hands a head run to the backend
    | Delete                    // what was handed over leaves the buffer
    | Put                       // the new turn enters the buffer
    | Persist                   // the backing file is written
    | Restart
    | Note(d: Document)         // an item that carries no turn, from any thread
    | BeginPass
    | Post(outcome: Outcome)
    | FinishPass

  /** A process starts on whatever earlier ones left in the backing file and the spool. */
  ghost predicate Initial(s: System) {
    && s.entries == Loaded(s.file) && s.phase.Resting?
    && s.store == Store(s.store.spool, [], [], Idle)
    && s.given == ItemsOf(s.store.spool) && s.recorded == TurnsOf(s.given) + s.entries
    && forall d :: d in s.given ==> Carries(d)
  }

  /** The buffer without what has just been handed over and is about to be deleted. */
  function Pending(s: System): seq<Entry> {
    if s.phase.Deleting? && s.phase.end <= |s.entries| then s.entries[s.phase.end..] else s.entries
  }

  /** The text of a document holds the turns that are counted in it. */
  ghost predicate Carries(d: Document) {
    d.turns == [] || WellFormed(d)
  }

  /** A document reaches the backend. */
  function Given(s: System, d: Document): System {
    s.(store := Take(s.store, d), given := s.given + [d])
  }

  function BundleSize(s: System): int {
    if s.bundle < 1 then 1 else s.bundle
  }

  /** The new turn enters the buffer, which is then flushed or only written. */
  function Added(s: System, e: Entry): System {
    var s' := s.(entries := s.entries + [e], recorded := s.recorded + [e]);
    s'.(phase := if |s'.entries| >= BundleSize(s') then Flushing(Return) else Writing(Return))
  }

  /** After the write an operation is over, unless it was the flush before a new session's turn. */
  function AfterWrite(next: Goal): Phase {
    match next
    case Return => Resting
    case Add(e) => Adding(e)
  }

  ghost predicate Step(s: System, ev: Event, s': System) {
    match ev
    case Append(e) =>
      && s.phase.Resting? && e.content != ""
      && s' == s.(phase := if s.entries != [] && s.entries[0].session != e.session then Flushing(Add(e)) else Adding(e))
    case Flush => s.phase.Resting? && s' == s.(phase := Flushing(Return))
    case Hand(end, ok) =>
      && s.phase.Flushing? && IsHeadRun(s.entries, end)
      && s' == if ok then Given(s, DocumentOf(s.entries[..end])).(phase := Deleting(end, s.phase.next))
               else s.(phase := Writing(s.phase.next))
    case Delete => s.phase.Deleting? && s' == s.(entries := Pending(s), phase := Flushing(s.phase.next))
    case Put => s.phase.Adding? && s' == Added(s, s.phase.e)
    case Persist =>
      && (s.phase.Writing? || (s.phase.Flushing? && s.entries == []))
      && s' == s.(file := s.entries, phase := AfterWrite(s.phase.next))
    case Restart => s.phase.Resting? && s.store.pass.Idle? && s' == s.(entries := Loaded(s.file))
    case Note(d) => d.turns == [] && s' == Given(s, d)
    case BeginPass => s.store.pass.Idle? && s' == s.(store := Begin(s.store))
    case Post(outcome) => CanPost(s.store) && s' == s.(store := PostBatch(s.store, outcome))
    case FinishPass => s.store.pass.Posting? && !CanPost(s.store) && s' == s.(store := Finish(s.store))
  }

  ghost predicate StepAt(states: seq<System>, events: seq<Event>, k: nat) {
    k < |events| && k + 1 < |states| && Step(states[k], events[k], states[k + 1])
  }

  ghost predicate Run(states: seq<System>, events: seq<Event>) {
    && |states| == |events| + 1 && Initial(states[0])
    && forall k: nat :: k < |events| ==> StepAt(states, events, k)
  }

  /** No turn on its way is empty. */
  ghost predicate NotEmpty(s: System) {
    && HaveContent(s.entries)
    && (s.phase.Adding? ==> s.phase.e.content != "")
    && (!s.phase.Resting? && !s.phase.Adding? ==> s.phase.next.Add? ==> s.phase.next.e.content != "")
  }

  /**
   The turns handed over, then those still to be, are the recorded turns in order; the
   store holds what it was given; and between operations the file restores the buffer.
   */
  ghost predicate Sound(s: System) {
    && TurnsOf(s.given) + Pending(s) == s.recorded
    && NotEmpty(s)
    && (s.phase.Resting? ==> Loaded(s.file) == s.entries)
    && Inv(s.store)
    && forall w: Weight :: Held(s.store, w) == HeldDocs(s.given, w)
  }

  lemma GivenSound(s: System, d: Document)
    requires Inv(s.store) && forall w: Weight :: Held(s.store, w) == HeldDocs(s.given, w)
    ensures var s' := Given(s, d);
            && Inv(s'.store) && TurnsOf(s'.given) == TurnsOf(s.given) + d.turns
            && forall w: Weight :: Held(s'.store, w) == HeldDocs(s'.given, w)
  {
    assert (s.given + [d])[..|s.given|] == s.given;
    forall w: Weight ensures Held(Take(s.store, d), w) == HeldDocs(s.given + [d], w) {
      TakeConserves(s.store, d, w);
    }
    TakeConserves(s.store, d, CopiesOf(d));
  }

  lemma StoreSound(s: System, store': Store)
    requires Sound(s) && Inv(store') && Conserves(s.store, store')
    ensures Sound(s.(store := store'))
  {
  }

  lemma HandSound(s: System, end: nat)
    requires Sound(s) && s.phase.Flushing? && IsHeadRun(s.entries, end)
    ensures Sound(Given(s, DocumentOf(s.entries[..end])).(phase := Deleting(end, s.phase.next)))
  {
    HandedSound(s, DocumentOf(s.entries[..end]), end);
  }

  lemma HandedSound(s: System, d: Document, end: nat)
    requires Sound(s) && s.phase.Flushing? && end <= |s.entries| && d.turns == s.entries[..end]
    ensures Sound(Given(s, d).(phase := Deleting(end, s.phase.next)))
  {
    GivenSound(s, d);
    TurnsSplit(TurnsOf(s.given), s.entries, end);
  }

  lemma PutSound(s: System, e: Entry)
    requires Sound(s) && s.phase.Adding? && e.content != ""
    ensures Sound(Added(s, e))
  {
    assert TurnsOf(s.given) + (s.entries + [e]) == TurnsOf(s.given) + s.entries + [e];
  }

  /** The write that ends an operation is what makes the next restart lossless. */
  lemma PersistSound(s: System, next: Goal)
    requires Sound(s) && !s.phase.Deleting? && (next.Add? ==> next.e.content != "")
    ensures Sound(s.(file := s.entries, phase := AfterWrite(next)))
  {
    LoadRoundTrip(s.entries);
  }

  /** The events that leave the buffer alone. */
  predicate OfStore(ev: Event) {
    ev.Note? || ev.BeginPass? || ev.Post? || ev.FinishPass?
  }

  lemma StoreStepSound(s: System, ev: Event, s': System)
    requires Sound(s) && Step(s, ev, s') && OfStore(ev)
    ensures Sound(s')
  {
    match ev
    case Note(d) => GivenSound(s, d);
    case BeginPass => BeginSound(s);
    case Post(outcome) => PostSound(s, outcome);
    case FinishPass => FinishSound(s);
  }

  lemma BeginSound(s: System)
    requires Sound(s) && s.store.pass.Idle?
    ensures Sound(s.(store := Begin(s.store)))
  {
    StoreSound(s, Begin(s.store));
  }

  lemma PostSound(s: System, outcome: Outcome)
    requires Sound(s) && CanPost(s.store)
    ensures Sound(s.(store := PostBatch(s.store, outcome)))
  {
    PassConserves(s.store, outcome);
    StoreSound(s, PostBatch(s.store, outcome));
  }

  lemma FinishSound(s: System)
    requires Sound(s) && s.store.pass.Posting?
    ensures Sound(s.(store := Finish(s.store)))
  {
    PassConserves(s.store, Accept);
    StoreSound(s, Finish(s.store));
  }

  lemma StepSound(s: System, ev: Event, s': System)
    requires Sound(s) && Step(s, ev, s')
    ensures Sound(s')
  {
    if OfStore(ev) {
      StoreStepSound(s, ev, s');
    } else {
      match ev
      case Hand(end, ok) => if ok { HandSound(s, end); }
      case Put => PutSound(s, s.phase.e);
      case Persist => PersistSound(s, s.phase.next);
      case _ =>
    }
  }

  lemma {:induction false} LoadedHaveContent(lines: seq<Entry>)
    ensures HaveContent(Loaded(lines))
  {
    if lines == [] {
    } else {
      LoadedHaveContent(lines[..|lines| - 1]);
    }
  }

  /** Malformed lines hold nothing; what a spool holds is its items. */
  lemma {:induction false} ItemsHeld(lines: seq<Line>, w: Weight)
    ensures HeldLines(lines, {}, w) == HeldDocs(ItemsOf(lines), w)
  {
    if lines == [] {
    } else {
      var front, last := lines[..|lines| - 1], lines[|lines| - 1];
      ItemsHeld(front, w);
      var docs := if last.Item? then [last.doc] else [];
      HeldDocsConcat(ItemsOf(front), docs, w);
      assert last.Item? ==> docs[..0] == [];
    }
  }

  lemma InitialSound(s: System)
    requires Initial(s)
    ensures Sound(s)
  {
    LoadedHaveContent(s.file);
    forall w: Weight ensures Held(s.store, w) == HeldDocs(s.given, w) { ItemsHeld(s.store.spool, w); }
  }

  lemma {:induction false} RunSound(states: seq<System>, events: seq<Event>, k: nat)
    requires Run(states, events) && k < |states|
    ensures Sound(states[k])
    decreases k
  {
    if k == 0 {
      InitialSound(states[0]);
    } else {
      RunSound(states, events, k - 1);
      assert StepAt(states, events, k - 1);
      StepSound(states[k - 1], events[k - 1], states[k]);
    }
  }

  lemma {:induction false} TurnOccurrences(docs: seq<Document>, e: Entry)
    ensures HeldDocs(docs, OccurrencesOf(e)) == multiset(TurnsOf(docs))[e]
  {
    if docs == [] {
    } else {
      TurnOccurrences(docs[..|docs| - 1], e);
    }
  }

  /**
   Every recorded turn is in exactly one of buffer, live spool, server and dead letters,
   as often as recorded; between a hand-over and its deletion the copies that the buffer
   still has of what was handed over do not count.
   */
  lemma TurnConservation(states: seq<System>, events: seq<Event>, k: nat, e: Entry)
    requires Run(states, events) && k < |states|
    ensures var s := states[k];
            multiset(s.recorded)[e] ==
              multiset(Pending(s))[e]
              + HeldLines(s.store.spool, Flushed(s.store), OccurrencesOf(e))
              + HeldDocs(s.store.accepted, OccurrencesOf(e))
              + HeldDocs(s.store.dead, OccurrencesOf(e))
  {
    RunSound(states, events, k);
    var s := states[k];
    assert Held(s.store, OccurrencesOf(e)) == HeldDocs(s.given, OccurrencesOf(e));
    TurnOccurrences(s.given, e);
    assert multiset(s.recorded) == multiset(TurnsOf(s.given)) + multiset(Pending(s));
  }

  /** Between operations the buffer is what a restart would load. */
  lemma RestartIsLossless(states: seq<System>, events: seq<Event>, k: nat)
    requires Run(states, events) && k < |events| && events[k].Restart?
    ensures states[k + 1] == states[k]
  {
    RunSound(states, events, k);
    assert StepAt(states, events, k);
  }

  /** Between passes no line is marked: the live spool is the spool file itself. */
  lemma DocumentConservation(states: seq<System>, events: seq<Event>, k: nat, d: Document)
    requires Run(states, events) && k < |states| && states[k].store.pass.Idle?
    ensures var s := states[k];
            HeldDocs(s.given, CopiesOf(d)) ==
              HeldLines(s.store.spool, {}, CopiesOf(d))
              + HeldDocs(s.store.accepted, CopiesOf(d))
              + HeldDocs(s.store.dead, CopiesOf(d))
  {
    RunSound(states, events, k);
    assert Held(states[k].store, CopiesOf(d)) == HeldDocs(states[k].given, CopiesOf(d));
  }
}
