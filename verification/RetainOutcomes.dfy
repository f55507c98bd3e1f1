/**
 What becomes of documents, over runs: only an accepted POST takes a document to the
 server, only a rejected one buries a postable one, and what is stored anywhere has
 the text of its turns in it.
 */
module RetainOutcomes {
  import opened RetainBuffer
  import opened HindsightSpool
  import opened RetainPipeline

  lemma PostDelivers(s: System, outcome: Outcome, s': System)
    requires Step(s, Post(outcome), s')
    ensures forall d :: d in s'.store.accepted ==> d in s.store.accepted || (outcome.Accept? && Postable(d))
    ensures forall d :: d in s'.store.dead ==> d in s.store.dead || !Postable(d) || outcome.Reject?
    ensures !outcome.Accept? ==> s'.store.accepted == s.store.accepted
  {
    PostBatchDelivers(s.store, outcome);
    SiftIs(NextItems(s.store), true);
    SiftIs(NextItems(s.store), false);
  }

  lemma OtherStepDelivers(s: System, ev: Event, s': System)
    requires Step(s, ev, s') && !ev.Post?
    ensures s'.store.accepted == s.store.accepted
    ensures forall d :: d in s'.store.dead ==> d in s.store.dead || !Postable(d)
  {
  }

  /** The server has taken nothing that was blank or too long for it. */
  lemma {:induction false} AcceptedArePostable(states: seq<System>, events: seq<Event>, k: nat)
    requires Run(states, events) && k < |states|
    ensures forall d :: d in states[k].store.accepted ==>
              |d.content| <= 100_000 && exists i :: 0 <= i < |d.content| && !IsSpace(d.content[i])
    decreases k
  {
    if k == 0 {
    } else {
      AcceptedArePostable(states, events, k - 1);
      assert StepAt(states, events, k - 1);
      if events[k - 1].Post? {
        PostDelivers(states[k - 1], events[k - 1].outcome, states[k]);
      } else {
        OtherStepDelivers(states[k - 1], events[k - 1], states[k]);
      }
    }
  }

  /** Without an accepted POST the server has nothing. */
  lemma {:induction false} NoneAccepted(states: seq<System>, events: seq<Event>, k: nat)
    requires Run(states, events) && k < |states| && forall m :: 0 <= m < k ==> events[m] != Post(Accept)
    ensures states[k].store.accepted == []
    decreases k
  {
    if k == 0 {
    } else {
      NoneAccepted(states, events, k - 1);
      assert StepAt(states, events, k - 1);
      if events[k - 1].Post? {
        PostDelivers(states[k - 1], events[k - 1].outcome, states[k]);
      } else {
        OtherStepDelivers(states[k - 1], events[k - 1], states[k]);
      }
    }
  }

  /** Without a rejected POST only documents that are blank or too long are buried. */
  lemma {:induction false} NoneRejected(states: seq<System>, events: seq<Event>, k: nat)
    requires Run(states, events) && k < |states| && forall m :: 0 <= m < k ==> events[m] != Post(Reject)
    ensures forall d :: d in states[k].store.dead ==>
              |d.content| > 100_000 || forall i :: 0 <= i < |d.content| ==> IsSpace(d.content[i])
    decreases k
  {
    if k == 0 {
    } else {
      NoneRejected(states, events, k - 1);
      assert StepAt(states, events, k - 1);
      if events[k - 1].Post? {
        PostDelivers(states[k - 1], events[k - 1].outcome, states[k]);
      } else {
        OtherStepDelivers(states[k - 1], events[k - 1], states[k]);
      }
    }
  }

  // ------------------------------------------------------- the text of what is stored

  lemma StepCarries(s: System, ev: Event, s': System)
    requires Step(s, ev, s') && forall d :: d in s.given ==> Carries(d)
    ensures forall d :: d in s'.given ==> Carries(d)
  {
    if ev.Hand? { HeadRunWellFormed(s.entries, ev.end); }
  }

  lemma {:induction false} GivenCarry(states: seq<System>, events: seq<Event>, k: nat)
    requires Run(states, events) && k < |states|
    ensures forall d :: d in states[k].given ==> Carries(d)
    decreases k
  {
    if k == 0 {
    } else {
      GivenCarry(states, events, k - 1);
      assert StepAt(states, events, k - 1);
      StepCarries(states[k - 1], events[k - 1], states[k]);
    }
  }

  lemma {:induction false} CopiesCounted(docs: seq<Document>, d: Document)
    ensures HeldDocs(docs, CopiesOf(d)) > 0 <==> d in docs
  {
    if docs == [] {
    } else {
      CopiesCounted(docs[..|docs| - 1], d);
      assert docs == docs[..|docs| - 1] + [docs[|docs| - 1]];
    }
  }

  lemma StoredWasGiven(states: seq<System>, events: seq<Event>, k: nat, d: Document)
    requires Run(states, events) && k < |states|
    requires d in states[k].store.accepted || d in states[k].store.dead
    ensures d in states[k].given
  {
    RunSound(states, events, k);
    assert Held(states[k].store, CopiesOf(d)) == HeldDocs(states[k].given, CopiesOf(d));
    CopiesCounted(states[k].store.accepted, d);
    CopiesCounted(states[k].store.dead, d);
    CopiesCounted(states[k].given, d);
  }

  /** Every turn that is counted at the server or in the dead letters stands in the text there. */
  lemma TextIsStored(states: seq<System>, events: seq<Event>, k: nat, d: Document, e: Entry)
      returns (at: seq<nat>, i: nat)
    requires Run(states, events) && k < |states| && e in d.turns
    requires d in states[k].store.accepted || d in states[k].store.dead
    ensures LaidOut(d.content, d.turns, at) && i < |d.turns| && d.turns[i] == e
    ensures at[i] + |e.content| <= |d.content| && d.content[at[i]..at[i] + |e.content|] == e.content
  {
    StoredWasGiven(states, events, k, d);
    GivenCarry(states, events, k);
    at :| LaidOut(d.content, d.turns, at);
    i :| i < |d.turns| && d.turns[i] == e;
    assert LaidAt(d.content, d.turns, at, i);
  }
}
