/**
 One flush pass of the spool, with the events of all other threads arriving at any
 point between its snapshot and its rewrite.
 */
module FlushPass {
  import opened RetainBuffer
  import opened HindsightSpool
  import opened RetainPipeline

  /** The documents that have reached the backend from state s up to state s'. */
  function Arrived(s: System, s': System): seq<Document> {
    if |s.given| <= |s'.given| then s'.given[|s.given|..] else []
  }

  /** The lines that they append to the spool. */
  function Appended(s: System, s': System): seq<Line> {
    Lines(Sift(Arrived(s, s'), true))
  }

  /** Those among them that are buried because they cannot be posted. */
  function Buried(s: System, s': System): seq<Document> {
    Sift(Arrived(s, s'), false)
  }

  /** A pass is under way from event a on: it has begun and not finished before event b. */
  ghost predicate PassFrom(states: seq<System>, events: seq<Event>, a: nat, b: nat) {
    && Run(states, events) && a < b <= |events|
    && events[a].BeginPass? && states[a].store.spool != []
    && forall k :: a < k < b ==> !events[k].FinishPass?
  }

  lemma BatchLeavesSpool(s: Store, outcome: Outcome)
    requires CanPost(s)
    ensures var s' := PostBatch(s, outcome);
            s'.spool == s.spool && s'.pass.Posting? && s'.pass.snapshot == s.pass.snapshot
  {
  }

  lemma TakeAppends(s: Store, d: Document)
    ensures Take(s, d).spool == s.spool + Lines(Sift([d], true))
  {
    assert [d][..0] == [];
    assert Sift([d], true) == if Postable(d) then [d] else [];
  }

  /** During a pass a step leaves the snapshot alone and appends the postable ones of the documents it brings. */
  lemma StepDuringPass(s: System, ev: Event, s': System) returns (docs: seq<Document>)
    requires Step(s, ev, s') && s.store.pass.Posting? && !ev.FinishPass?
    ensures s'.store.pass.Posting? && s'.store.pass.snapshot == s.store.pass.snapshot
    ensures s'.given == s.given + docs && s'.store.spool == s.store.spool + Lines(Sift(docs, true))
  {
    docs := [];
    match ev
    case Hand(end, ok) => if ok { docs := [DocumentOf(s.entries[..end])]; TakeAppends(s.store, docs[0]); }
    case Note(d) => docs := [d]; TakeAppends(s.store, d);
    case Post(outcome) => BatchLeavesSpool(s.store, outcome);
    case _ =>
  }

  lemma StepBeginsPass(s: System, s': System)
    requires Step(s, BeginPass, s') && s.store.spool != []
    ensures s'.store.pass.Posting? && s'.store.pass.snapshot == s'.store.spool == s.store.spool
    ensures s'.given == s.given
  {
  }

  lemma AppendedPush(s: System, t: System, t': System, spool: seq<Line>, docs: seq<Document>)
    requires s.given <= t.given && t'.given == t.given + docs
    ensures s.given <= t'.given
    ensures spool + Appended(s, t) + Lines(Sift(docs, true)) == spool + Appended(s, t')
  {
    SiftConcat(Arrived(s, t), docs, true);
    assert Arrived(s, t') == Arrived(s, t) + docs;
  }

  lemma {:induction false} DuringPass(states: seq<System>, events: seq<Event>, a: nat, b: nat)
    requires PassFrom(states, events, a, b)
    ensures var s := states[b].store;
            && s.pass.Posting? && s.pass.snapshot == states[a].store.spool
            && s.spool == states[a].store.spool + Appended(states[a], states[b])
    ensures states[a].given <= states[b].given
    decreases b
  {
    var last := b - 1;
    assert StepAt(states, events, last);
    if last == a {
      StepBeginsPass(states[a], states[b]);
      assert Arrived(states[a], states[b]) == [];
    } else {
      DuringPass(states, events, a, last);
      var docs := StepDuringPass(states[last], events[last], states[b]);
      AppendedPush(states[a], states[last], states[b], states[a].store.spool, docs);
    }
  }

  /**
   The rewrite drops exactly the marked snapshot lines and keeps the order of
   all others, malformed ones included; whatever was appended meanwhile follows.
   */
  lemma FlushSafety(states: seq<System>, events: seq<Event>, a: nat, b: nat)
    requires PassFrom(states, events, a, b) && b < |events| && events[b].FinishPass?
    ensures var before, marked := states[a].store.spool, Flushed(states[b].store);
            && (forall i :: i in marked ==> i < |before| && before[i].Item?)
            && states[b + 1].store.spool == Keep(before, marked) + Appended(states[a], states[b])
  {
    DuringPass(states, events, a, b);
    RunSound(states, events, b);
    assert StepAt(states, events, b);
    KeepConcat(states[a].store.spool, Appended(states[a], states[b]), Flushed(states[b].store));
  }

  // ------------------------------------------------- what is dropped was delivered

  /** What has left the spool: accepted by the server, or dead-lettered. */
  ghost function Delivered(s: Store, w: Weight): nat {
    HeldDocs(s.accepted, w) + HeldDocs(s.dead, w)
  }

  lemma StoreHoldsGiven(states: seq<System>, events: seq<Event>, k: nat, w: Weight)
    requires Run(states, events) && k < |states|
    ensures Held(states[k].store, w) == HeldDocs(states[k].given, w)
  {
    RunSound(states, events, k);
  }

  /** Whatever arrives is in the store from then on: what is postable in the spool first, the rest buried. */
  lemma PassHeld(states: seq<System>, events: seq<Event>, a: nat, b: nat, w: Weight)
    requires PassFrom(states, events, a, b)
    ensures Held(states[b].store, w)
            == Held(states[a].store, w)
               + HeldLines(Appended(states[a], states[b]), {}, w) + HeldDocs(Buried(states[a], states[b]), w)
  {
    DuringPass(states, events, a, b);
    StoreHoldsGiven(states, events, a, w);
    StoreHoldsGiven(states, events, b, w);
    ArrivalsHeld(states[a], states[b], w);
  }

  lemma ArrivalsHeld(s: System, s': System, w: Weight)
    requires s.given <= s'.given
    ensures HeldDocs(s'.given, w)
            == HeldDocs(s.given, w) + HeldLines(Appended(s, s'), {}, w) + HeldDocs(Buried(s, s'), w)
  {
    var docs := Arrived(s, s');
    assert s'.given == s.given + docs;
    HeldDocsConcat(s.given, docs, w);
    SiftHeld(docs, w);
    HeldOfLines(Sift(docs, true), w);
  }

  /** What the live spool holds during a pass: the unmarked snapshot lines and what was appended. */
  lemma LiveSpool(states: seq<System>, events: seq<Event>, a: nat, b: nat, w: Weight)
    requires PassFrom(states, events, a, b)
    ensures var s, s' := states[a].store, states[b].store;
            HeldLines(s'.spool, Flushed(s'), w)
            == HeldLines(s.spool, Flushed(s'), w) + HeldLines(Appended(states[a], states[b]), {}, w)
  {
    DuringPass(states, events, a, b);
    MarkedInSnapshot(states, events, a, b);
    HeldLinesConcat(states[a].store.spool, Appended(states[a], states[b]), Flushed(states[b].store), w);
  }

  lemma MarkedInSnapshot(states: seq<System>, events: seq<Event>, a: nat, b: nat)
    requires PassFrom(states, events, a, b)
    ensures forall i :: i in Flushed(states[b].store) ==> i < |states[a].store.spool| && states[a].store.spool[i].Item?
  {
    DuringPass(states, events, a, b);
    RunSound(states, events, b);
  }

  lemma BeginHeld(states: seq<System>, events: seq<Event>, a: nat, b: nat, w: Weight)
    requires PassFrom(states, events, a, b)
    ensures Held(states[a].store, w) == Delivered(states[a].store, w) + HeldLines(states[a].store.spool, {}, w)
  {
    assert StepAt(states, events, a);
  }

  /**
   What the pass marks for removal is what it has delivered: the server and the dead
   letters gain exactly the marked lines, and what other threads buried meanwhile.
   */
  lemma DroppedIsDelivered(states: seq<System>, events: seq<Event>, a: nat, b: nat, w: Weight)
    requires PassFrom(states, events, a, b)
    ensures var s, s' := states[a].store, states[b].store;
            Delivered(s', w) + HeldLines(s.spool, Flushed(s'), w)
            == Delivered(s, w) + HeldLines(s.spool, {}, w) + HeldDocs(Buried(states[a], states[b]), w)
  {
    BeginHeld(states, events, a, b, w);
    PassHeld(states, events, a, b, w);
    LiveSpool(states, events, a, b, w);
  }

  // ------------------------------------------------------ a pass without failures

  lemma QuietStep(s: System, ev: Event, s': System)
    requires Sound(s) && Step(s, ev, s') && Drained(s.store.pass) && !ev.FinishPass? && ev != Post(Transient)
    ensures Drained(s'.store.pass)
  {
    if ev.Post? { PostDrains(s.store, ev.outcome); }
  }

  lemma {:induction false} QuietPass(states: seq<System>, events: seq<Event>, a: nat, b: nat)
    requires PassFrom(states, events, a, b)
    requires forall k :: a < k < b ==> events[k] != Post(Transient)
    ensures Drained(states[b].store.pass)
    decreases b
  {
    var last := b - 1;
    assert StepAt(states, events, last);
    if a == last {
    } else {
      QuietPass(states, events, a, last);
      RunSound(states, events, last);
      QuietStep(states[last], events[last], states[b]);
    }
  }

  /** A pass that meets no transient failure leaves only malformed lines, and what was appended meanwhile. */
  lemma QuietPassDrains(states: seq<System>, events: seq<Event>, a: nat, b: nat)
    requires PassFrom(states, events, a, b) && b < |events| && events[b].FinishPass?
    requires forall k :: a < k < b ==> events[k] != Post(Transient)
    ensures states[b + 1].store.spool == MalformedLines(states[a].store.spool) + Appended(states[a], states[b])
  {
    QuietPass(states, events, a, b);
    FlushSafety(states, events, a, b);
    DuringPass(states, events, a, b);
    assert StepAt(states, events, b);
    KeepMalformed(states[a].store.spool, Flushed(states[b].store));
  }
}
