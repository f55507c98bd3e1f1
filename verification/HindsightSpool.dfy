/**
 The spool of the Hindsight backend: lines appended by any thread at any time,
 and flush passes that read a snapshot, post it in batches without holding the
 spool lock, and then rewrite the file by snapshot index.

 A `Store` is what all threads share; each function below it is one critical
 section, so a run is any interleaving of them.
 */
module HindsightSpool {
  import opened RetainBuffer
  import opened Selections

  datatype Line = Item(doc: Document) | Malformed(text: string)

  datatype Outcome = Accept | Reject | Transient

  datatype Pass =
    | Idle
    | Posting(snapshot: seq<Line>, next: nat, flushed: set<nat>)

  datatype Store = Store(spool: seq<Line>, dead: seq<Document>, accepted: seq<Document>, pass: Pass)

  const BATCH := 20

  predicate IsSpace(c: char) {
    c == ' ' || '\t' <= c <= '\r' || '\U{001c}' <= c <= '\U{001f}' || c == '\U{0085}' || c == '\U{00a0}'
  }

  /** The white space by its code points. */
  lemma SpaceMeans(c: char)
    ensures IsSpace(c) <==> (c as int) in {9, 10, 11, 12, 13, 28, 29, 30, 31, 32, 133, 160}
  {
  }

  /** A payload is postable when its content is not blank and not too large. */
  predicate Postable(d: Document) {
    (exists c :: c in d.content && !IsSpace(c)) && |d.content| <= 100_000
  }

  /** The documents that are (or are not) postable, in order. */
  function Sift(docs: seq<Document>, postable: bool): seq<Document> {
    if docs == [] then []
    else Sift(docs[..|docs| - 1], postable) + if Postable(docs[|docs| - 1]) == postable then [docs[|docs| - 1]] else []
  }

  /** The documents of the lines that are items. */
  function ItemsOf(lines: seq<Line>): seq<Document> {
    if lines == [] then []
    else ItemsOf(lines[..|lines| - 1]) + if lines[|lines| - 1].Item? then [lines[|lines| - 1].doc] else []
  }

  // ---------------------------------------------------------- critical sections

  /** Appending to the spool. */
  function Spool(s: Store, docs: seq<Document>): Store {
    s.(spool := s.spool + Lines(docs))
  }

  function Lines(docs: seq<Document>): (r: seq<Line>)
    ensures |r| == |docs| && forall i :: 0 <= i < |docs| ==> r[i] == Item(docs[i])
  {
    seq(|docs|, i requires 0 <= i < |docs| => Item(docs[i]))
  }

  /** Writing to the dead-letter file. */
  function DeadLetter(s: Store, d: Document): Store {
    s.(dead := s.dead + [d])
  }

  /** What `retain` does with one item before it tries to flush. */
  function Take(s: Store, d: Document): Store {
    if Postable(d) then Spool(s, [d]) else DeadLetter(s, d)
  }

  /** Taking the flush lock and the snapshot; with an empty spool the pass ends at once. */
  function Begin(s: Store): Store {
    if s.pass.Idle? && s.spool != [] then s.(pass := Posting(s.spool, 0, {})) else s
  }

  /** The indices in lo..hi of items that are (or are not) postable, in order. */
  function Indices(lines: seq<Line>, lo: nat, hi: nat, postable: bool): seq<nat>
    requires lo <= hi <= |lines|
    decreases hi - lo
  {
    if lo == hi then []
    else
      Indices(lines, lo, hi - 1, postable)
      + if lines[hi - 1].Item? && Postable(lines[hi - 1].doc) == postable then [hi - 1] else []
  }

  /** Strictly increasing indices of items among `lines`, all from lo up to hi. */
  ghost predicate Picks(lines: seq<Line>, at: seq<nat>, lo: nat, hi: nat) {
    && (forall k :: 0 <= k < |at| ==> lo <= at[k] < hi && at[k] < |lines| && lines[at[k]].Item?)
    && forall j, k :: 0 <= j < k < |at| ==> at[j] < at[k]
  }

  lemma PicksPush(lines: seq<Line>, at: seq<nat>, lo: nat, hi: nat)
    requires lo < hi <= |lines| && Picks(lines, at, lo, hi - 1)
    ensures Picks(lines, at, lo, hi)
    ensures lines[hi - 1].Item? ==> Picks(lines, at + [hi - 1], lo, hi)
  {
  }

  lemma {:induction false} IndicesPick(lines: seq<Line>, lo: nat, hi: nat, postable: bool)
    requires lo <= hi <= |lines|
    ensures Picks(lines, Indices(lines, lo, hi, postable), lo, hi)
    decreases hi - lo
  {
    if lo == hi {
    } else {
      IndicesPick(lines, lo, hi - 1, postable);
      PicksPush(lines, Indices(lines, lo, hi - 1, postable), lo, hi);
    }
  }

  lemma {:induction false} IndicesAre(lines: seq<Line>, lo: nat, hi: nat, postable: bool)
    requires lo <= hi <= |lines|
    ensures forall k :: k in Indices(lines, lo, hi, postable) ==>
              k < hi && lines[k].Item? && Postable(lines[k].doc) == postable
    decreases hi - lo
  {
    if lo == hi {
    } else {
      IndicesAre(lines, lo, hi - 1, postable);
    }
  }

  /** The documents at the given indices. */
  function DocsAt(lines: seq<Line>, at: seq<nat>): seq<Document> {
    if at == [] then []
    else
      var k := at[|at| - 1];
      DocsAt(lines, at[..|at| - 1]) + if k < |lines| && lines[k].Item? then [lines[k].doc] else []
  }

  function BatchEnd(p: Pass): nat
    requires p.Posting?
  {
    if p.next + BATCH < |p.snapshot| then p.next + BATCH else |p.snapshot|
  }

  predicate CanPost(s: Store) {
    s.pass.Posting? && s.pass.next < |s.pass.snapshot|
  }

  /** One batch: unpostable items are buried, the others share the fate of the POST. */
  function PostBatch(s: Store, outcome: Outcome): Store
    requires CanPost(s)
  {
    var p := s.pass;
    var hi := BatchEnd(p);
    var bad := Indices(p.snapshot, p.next, hi, false);
    var good := Indices(p.snapshot, p.next, hi, true);
    var buried := s.(dead := s.dead + DocsAt(p.snapshot, bad), pass := Posting(p.snapshot, hi, p.flushed + SetOf(bad)));
    if good == [] then buried
    else
      match outcome
      case Accept => buried.(accepted := s.accepted + DocsAt(p.snapshot, good),
                             pass := Posting(p.snapshot, hi, p.flushed + SetOf(bad) + SetOf(good)))
      case Reject => buried.(dead := buried.dead + DocsAt(p.snapshot, good),
                             pass := Posting(p.snapshot, hi, p.flushed + SetOf(bad) + SetOf(good)))
      case Transient => buried.(pass := Posting(p.snapshot, |p.snapshot|, p.flushed + SetOf(bad)))
  }

  function SetOf(at: seq<nat>): set<nat> {
    set k | k in at
  }

  /** The lines whose index is not in `drop`, in order. */
  function Keep(lines: seq<Line>, drop: set<nat>): seq<Line> {
    if lines == [] then []
    else Keep(lines[..|lines| - 1], drop) + if |lines| - 1 in drop then [] else [lines[|lines| - 1]]
  }

  /** Rewriting the file by snapshot index and letting go of the flush lock. */
  function Finish(s: Store): Store
    requires s.pass.Posting?
  {
    s.(spool := Keep(s.spool, s.pass.flushed), pass := Idle)
  }

  // ------------------------------------------------------------------ invariant

  /** During a pass the snapshot is still the head of the spool, and only visited items are marked. */
  ghost predicate Inv(s: Store) {
    s.pass.Posting? ==>
      && s.pass.next <= |s.pass.snapshot|
      && s.pass.snapshot <= s.spool
      && forall i :: i in s.pass.flushed ==> i < s.pass.next && s.pass.snapshot[i].Item?
  }

  function Flushed(s: Store): set<nat> {
    if s.pass.Posting? then s.pass.flushed else {}
  }

  /** What is counted: copies of one document, occurrences of one turn, or anything else about documents. */
  type Weight = Document -> nat

  function CopiesOf(d: Document): Weight {
    (x: Document) => if x == d then 1 else 0
  }

  function OccurrencesOf(e: Entry): Weight {
    (d: Document) => multiset(d.turns)[e]
  }

  ghost function InLine(l: Line, w: Weight): nat {
    if l.Item? then w(l.doc) else 0
  }

  /** The weight of the lines that are not marked for removal. */
  ghost function HeldLines(lines: seq<Line>, drop: set<nat>, w: Weight): nat {
    if lines == [] then 0
    else
      HeldLines(lines[..|lines| - 1], drop, w) + if |lines| - 1 in drop then 0 else InLine(lines[|lines| - 1], w)
  }

  ghost function HeldDocs(docs: seq<Document>, w: Weight): nat {
    if docs == [] then 0 else HeldDocs(docs[..|docs| - 1], w) + w(docs[|docs| - 1])
  }

  /** The weight of all the store holds: spooled and not yet dealt with, accepted, or dead-lettered. */
  ghost function Held(s: Store, w: Weight): nat {
    HeldLines(s.spool, Flushed(s), w) + HeldDocs(s.accepted, w) + HeldDocs(s.dead, w)
  }

  // ------------------------------------------------------------- lemmas on lines

  lemma {:induction false} HeldDocsConcat(a: seq<Document>, b: seq<Document>, w: Weight)
    ensures HeldDocs(a + b, w) == HeldDocs(a, w) + HeldDocs(b, w)
  {
    if b == [] {
      assert a + b == a;
    } else {
      assert (a + b)[..|a + b| - 1] == a + b[..|b| - 1];
      HeldDocsConcat(a, b[..|b| - 1], w);
    }
  }

  lemma {:induction false} SiftHeld(docs: seq<Document>, w: Weight)
    ensures HeldDocs(docs, w) == HeldDocs(Sift(docs, true), w) + HeldDocs(Sift(docs, false), w)
  {
    if docs == [] {
    } else {
      var front, last := docs[..|docs| - 1], docs[|docs| - 1];
      SiftHeld(front, w);
      HeldDocsConcat(Sift(front, Postable(last)), [last], w);
      assert Sift(docs, !Postable(last)) == Sift(front, !Postable(last));
    }
  }

  lemma {:induction false} SiftIs(docs: seq<Document>, postable: bool)
    ensures forall d :: d in Sift(docs, postable) ==> d in docs && Postable(d) == postable
  {
    if docs == [] {
    } else {
      SiftIs(docs[..|docs| - 1], postable);
    }
  }

  lemma {:induction false} SiftConcat(a: seq<Document>, b: seq<Document>, postable: bool)
    ensures Sift(a + b, postable) == Sift(a, postable) + Sift(b, postable)
  {
    if b == [] {
      assert a + b == a;
    } else {
      assert (a + b)[..|a + b| - 1] == a + b[..|b| - 1];
      SiftConcat(a, b[..|b| - 1], postable);
    }
  }

  lemma {:induction false} HeldLinesConcat(a: seq<Line>, b: seq<Line>, drop: set<nat>, w: Weight)
    requires forall i :: i in drop ==> i < |a|
    ensures HeldLines(a + b, drop, w) == HeldLines(a, drop, w) + HeldLines(b, {}, w)
  {
    if b == [] {
      assert a + b == a;
    } else {
      assert (a + b)[..|a + b| - 1] == a + b[..|b| - 1];
      HeldLinesConcat(a, b[..|b| - 1], drop, w);
    }
  }

  lemma {:induction false} HeldOfLines(docs: seq<Document>, w: Weight)
    ensures HeldLines(Lines(docs), {}, w) == HeldDocs(docs, w)
  {
    if docs == [] {
    } else {
      assert Lines(docs)[..|docs| - 1] == Lines(docs[..|docs| - 1]);
      HeldOfLines(docs[..|docs| - 1], w);
    }
  }

  lemma {:induction false} HeldDropOne(lines: seq<Line>, drop: set<nat>, i: nat, w: Weight)
    requires i < |lines| && i !in drop
    ensures HeldLines(lines, drop, w) == HeldLines(lines, drop + {i}, w) + InLine(lines[i], w)
  {
    var front := lines[..|lines| - 1];
    if i == |lines| - 1 {
      HeldSame(front, drop, drop + {i}, w);
    } else {
      HeldDropOne(front, drop, i, w);
    }
  }

  lemma {:induction false} HeldSame(lines: seq<Line>, a: set<nat>, b: set<nat>, w: Weight)
    requires forall i :: 0 <= i < |lines| ==> (i in a <==> i in b)
    ensures HeldLines(lines, a, w) == HeldLines(lines, b, w)
  {
    if lines == [] {
    } else {
      HeldSame(lines[..|lines| - 1], a, b, w);
    }
  }

  lemma PicksFront(lines: seq<Line>, at: seq<nat>, lo: nat, hi: nat)
    requires Picks(lines, at, lo, hi) && at != []
    ensures var front, last := at[..|at| - 1], at[|at| - 1];
            && Picks(lines, front, lo, hi) && last < |lines| && lines[last].Item?
            && last !in SetOf(front) && SetOf(at) == SetOf(front) + {last}
  {
  }

  lemma {:induction false} HeldDropAll(lines: seq<Line>, drop: set<nat>, at: seq<nat>, lo: nat, hi: nat, w: Weight)
    requires Picks(lines, at, lo, hi) && SetOf(at) !! drop
    ensures HeldLines(lines, drop, w) == HeldLines(lines, drop + SetOf(at), w) + HeldDocs(DocsAt(lines, at), w)
  {
    if at == [] {
      assert drop + SetOf(at) == drop;
    } else {
      var front, last := at[..|at| - 1], at[|at| - 1];
      PicksFront(lines, at, lo, hi);
      HeldDropAll(lines, drop, front, lo, hi, w);
      HeldDropOne(lines, drop + SetOf(front), last, w);
      assert drop + SetOf(front) + {last} == drop + SetOf(at);
      assert DocsAt(lines, at) == DocsAt(lines, front) + [lines[last].doc];
    }
  }

  lemma {:induction false} HeldKeep(lines: seq<Line>, drop: set<nat>, w: Weight)
    ensures HeldLines(Keep(lines, drop), {}, w) == HeldLines(lines, drop, w)
  {
    if lines == [] {
    } else {
      var front, last := lines[..|lines| - 1], lines[|lines| - 1];
      HeldKeep(front, drop, w);
      if |lines| - 1 !in drop {
        HeldLinesConcat(Keep(front, drop), [last], {}, w);
      } else {
        assert Keep(lines, drop) == Keep(front, drop);
      }
    }
  }

  /** The indices that are not marked. */
  ghost function Others(n: nat, drop: set<nat>): set<nat> {
    set i: nat | i < n && i !in drop
  }

  /** What is kept: exactly the lines at the other indices, in their order. */
  lemma {:induction false} KeepMeans(lines: seq<Line>, drop: set<nat>) returns (at: seq<nat>)
    ensures Selects(lines, Keep(lines, drop), at, Others(|lines|, drop))
  {
    if lines == [] {
      at := [];
      SelectNone(lines, Keep(lines, drop), at, Others(|lines|, drop));
    } else {
      var n := |lines| - 1;
      var front, take := lines[..n], n !in drop;
      at := KeepMeans(front, drop);
      assert Others(|lines|, drop) == Others(|front|, drop) + if take then {n} else {};
      at := SelectNext(front, Keep(front, drop), at, Others(|front|, drop), take,
                       lines, Keep(lines, drop), Others(|lines|, drop));
    }
  }

  /** Lines appended after the snapshot are out of reach of the snapshot's indices. */
  lemma {:induction false} KeepConcat(a: seq<Line>, b: seq<Line>, drop: set<nat>)
    requires forall i :: i in drop ==> i < |a|
    ensures Keep(a + b, drop) == Keep(a, drop) + b
  {
    if b == [] {
      assert a + b == a;
    } else {
      assert (a + b)[..|a + b| - 1] == a + b[..|b| - 1];
      KeepConcat(a, b[..|b| - 1], drop);
      assert b == b[..|b| - 1] + [b[|b| - 1]];
    }
  }

  // -------------------------------------------- every critical section conserves

  /** No document is gained or lost between two states of the store. */
  ghost predicate Conserves(s: Store, s': Store) {
    forall w: Weight :: Held(s', w) == Held(s, w)
  }

  lemma SpoolConserves(s: Store, docs: seq<Document>, w: Weight)
    requires Inv(s)
    ensures Inv(Spool(s, docs)) && Held(Spool(s, docs), w) == Held(s, w) + HeldDocs(docs, w)
  {
    HeldLinesConcat(s.spool, Lines(docs), Flushed(s), w);
    HeldOfLines(docs, w);
  }

  lemma TakeConserves(s: Store, d: Document, w: Weight)
    requires Inv(s)
    ensures Inv(Take(s, d)) && Held(Take(s, d), w) == Held(s, w) + w(d)
  {
    assert HeldDocs([d], w) == w(d);
    if Postable(d) { SpoolConserves(s, [d], w); } else { HeldDocsConcat(s.dead, [d], w); }
  }

  lemma MarkedAreVisited(lines: seq<Line>, lo: nat, hi: nat, postable: bool)
    requires lo <= hi <= |lines|
    ensures forall i :: i in SetOf(Indices(lines, lo, hi, postable)) ==> i < hi && lines[i].Item?
  {
    IndicesAre(lines, lo, hi, postable);
  }

  lemma DocsAtPush(lines: seq<Line>, at: seq<nat>, k: nat)
    requires k < |lines| && lines[k].Item?
    ensures DocsAt(lines, at + [k]) == DocsAt(lines, at) + [lines[k].doc]
  {
    assert (at + [k])[..|at|] == at;
  }

  lemma ItemsPush(lines: seq<Line>, l: Line)
    ensures ItemsOf(lines + [l]) == ItemsOf(lines) + if l.Item? then [l.doc] else []
  {
    assert (lines + [l])[..|lines|] == lines;
  }

  lemma SiftPush(docs: seq<Document>, d: Document, postable: bool)
    ensures Sift(docs + [d], postable) == Sift(docs, postable) + if Postable(d) == postable then [d] else []
  {
    assert (docs + [d])[..|docs|] == docs;
  }

  /** The documents at the indices are those of the items that are (or are not) postable. */
  ghost predicate SameDocs(lines: seq<Line>, at: seq<nat>, items: seq<Document>, postable: bool) {
    DocsAt(lines, at) == Sift(items, postable) && |at| == |Sift(items, postable)|
  }

  /** One more line adds the same document to both, or none. */
  lemma SameGrows(lines: seq<Line>, at: seq<nat>, items: seq<Document>, k: nat, postable: bool,
                  at': seq<nat>, items': seq<Document>)
    requires k < |lines| && SameDocs(lines, at, items, postable)
    requires at' == at + if lines[k].Item? && Postable(lines[k].doc) == postable then [k] else []
    requires items' == items + if lines[k].Item? then [lines[k].doc] else []
    ensures SameDocs(lines, at', items', postable)
  {
    if lines[k].Item? {
      SiftPush(items, lines[k].doc, postable);
      DocsAtPush(lines, at, k);
    }
    assert at + [] == at && items + [] == items;
  }

  lemma {:induction false} BatchDocs(lines: seq<Line>, lo: nat, hi: nat, postable: bool)
    requires lo <= hi <= |lines|
    ensures SameDocs(lines, Indices(lines, lo, hi, postable), ItemsOf(lines[lo..hi]), postable)
    decreases hi - lo
  {
    if lo == hi {
    } else {
      var front := lines[lo..hi - 1];
      BatchDocs(lines, lo, hi - 1, postable);
      ItemsPush(front, lines[hi - 1]);
      assert lines[lo..hi] == front + [lines[hi - 1]];
      SameGrows(lines, Indices(lines, lo, hi - 1, postable), ItemsOf(front), hi - 1, postable,
                Indices(lines, lo, hi, postable), ItemsOf(lines[lo..hi]));
    }
  }

  /** The outcome decides where the postable documents of a batch go, and how far the pass moves on. */
  ghost predicate DeliveredBy(s: Store, s': Store, outcome: Outcome, bad: seq<Document>, good: seq<Document>, end: nat)
    requires s.pass.Posting?
  {
    && s'.spool == s.spool
    && s'.accepted == s.accepted + (if outcome.Accept? then good else [])
    && s'.dead == s.dead + bad + (if outcome.Reject? then good else [])
    && s'.pass.Posting? && s'.pass.snapshot == s.pass.snapshot
    && s'.pass.next == if outcome.Transient? && good != [] then |s.pass.snapshot| else end
  }

  lemma PostBatchBy(s: Store, outcome: Outcome, bad: seq<Document>, good: seq<Document>)
    requires CanPost(s)
    requires bad == DocsAt(s.pass.snapshot, Indices(s.pass.snapshot, s.pass.next, BatchEnd(s.pass), false))
    requires good == DocsAt(s.pass.snapshot, Indices(s.pass.snapshot, s.pass.next, BatchEnd(s.pass), true))
    requires |good| == |Indices(s.pass.snapshot, s.pass.next, BatchEnd(s.pass), true)|
    ensures DeliveredBy(s, PostBatch(s, outcome), outcome, bad, good, BatchEnd(s.pass))
  {
  }

  /** The items among the next twenty lines. */
  function NextItems(s: Store): seq<Document>
    requires CanPost(s)
  {
    var from, all := s.pass.next, s.pass.snapshot;
    ItemsOf(all[from..if from + 20 < |all| then from + 20 else |all|])
  }

  lemma PostBatchDelivers(s: Store, outcome: Outcome)
    requires CanPost(s)
    ensures var end := if s.pass.next + 20 < |s.pass.snapshot| then s.pass.next + 20 else |s.pass.snapshot|;
            DeliveredBy(s, PostBatch(s, outcome), outcome, Sift(NextItems(s), false), Sift(NextItems(s), true), end)
  {
    var p := s.pass;
    BatchDocs(p.snapshot, p.next, BatchEnd(p), true);
    BatchDocs(p.snapshot, p.next, BatchEnd(p), false);
    PostBatchBy(s, outcome, Sift(NextItems(s), false), Sift(NextItems(s), true));
  }

  lemma PostBatchKeepsInv(s: Store, outcome: Outcome)
    requires Inv(s) && CanPost(s)
    ensures Inv(PostBatch(s, outcome))
  {
    var p := s.pass;
    MarkedAreVisited(p.snapshot, p.next, BatchEnd(p), true);
    MarkedAreVisited(p.snapshot, p.next, BatchEnd(p), false);
  }

  /** Marking the items of one kind in a batch takes from the spool what those items hold. */
  lemma MarkedHeld(s: Store, drop: set<nat>, postable: bool, w: Weight)
    requires Inv(s) && CanPost(s)
    requires SetOf(Indices(s.pass.snapshot, s.pass.next, BatchEnd(s.pass), postable)) !! drop
    ensures var at := Indices(s.pass.snapshot, s.pass.next, BatchEnd(s.pass), postable);
            HeldLines(s.spool, drop, w)
            == HeldLines(s.spool, drop + SetOf(at), w) + HeldDocs(DocsAt(s.pass.snapshot, at), w)
  {
    var p := s.pass;
    var at := Indices(p.snapshot, p.next, BatchEnd(p), postable);
    IndicesPick(p.snapshot, p.next, BatchEnd(p), postable);
    SnapshotDocs(s.spool, p.snapshot, at);
    HeldDropAll(s.spool, drop, at, p.next, BatchEnd(p), w);
  }

  lemma MarksApart(s: Store)
    requires Inv(s) && CanPost(s)
    ensures var p := s.pass;
            var bad := SetOf(Indices(p.snapshot, p.next, BatchEnd(p), false));
            var good := SetOf(Indices(p.snapshot, p.next, BatchEnd(p), true));
            bad !! p.flushed && good !! p.flushed + bad
  {
    IndicesPick(s.pass.snapshot, s.pass.next, BatchEnd(s.pass), true);
    IndicesPick(s.pass.snapshot, s.pass.next, BatchEnd(s.pass), false);
    IndicesAre(s.pass.snapshot, s.pass.next, BatchEnd(s.pass), true);
    IndicesAre(s.pass.snapshot, s.pass.next, BatchEnd(s.pass), false);
  }

  /** What a batch takes from the spool is what its payloads hold. */
  lemma BatchHeld(s: Store, w: Weight)
    requires Inv(s) && CanPost(s)
    ensures var p := s.pass;
            var bad := Indices(p.snapshot, p.next, BatchEnd(p), false);
            var good := Indices(p.snapshot, p.next, BatchEnd(p), true);
            var held := HeldLines(s.spool, p.flushed + SetOf(bad), w);
            && HeldLines(s.spool, p.flushed, w) == held + HeldDocs(DocsAt(p.snapshot, bad), w)
            && held == HeldLines(s.spool, p.flushed + SetOf(bad) + SetOf(good), w)
                       + HeldDocs(DocsAt(p.snapshot, good), w)
  {
    MarksApart(s);
    MarkedHeld(s, s.pass.flushed, false, w);
    MarkedHeld(s, s.pass.flushed + SetOf(Indices(s.pass.snapshot, s.pass.next, BatchEnd(s.pass), false)), true, w);
  }

  lemma PostBatchConserves(s: Store, outcome: Outcome, w: Weight)
    requires Inv(s) && CanPost(s)
    ensures Held(PostBatch(s, outcome), w) == Held(s, w)
  {
    var p := s.pass;
    var bad := DocsAt(p.snapshot, Indices(p.snapshot, p.next, BatchEnd(p), false));
    var good := DocsAt(p.snapshot, Indices(p.snapshot, p.next, BatchEnd(p), true));
    BatchHeld(s, w);
    HeldDocsConcat(s.dead, bad, w);
    match outcome
    case Accept => HeldDocsConcat(s.accepted, good, w);
    case Reject => HeldDocsConcat(s.dead + bad, good, w);
    case Transient =>
  }

  lemma {:induction false} SnapshotDocs(lines: seq<Line>, snapshot: seq<Line>, at: seq<nat>)
    requires snapshot <= lines
    requires forall k :: 0 <= k < |at| ==> at[k] < |snapshot| && snapshot[at[k]].Item?
    ensures DocsAt(lines, at) == DocsAt(snapshot, at)
  {
    if at == [] {
    } else {
      SnapshotDocs(lines, snapshot, at[..|at| - 1]);
    }
  }

  lemma FinishConserves(s: Store, w: Weight)
    requires Inv(s) && s.pass.Posting?
    ensures Inv(Finish(s)) && Held(Finish(s), w) == Held(s, w)
  {
    HeldKeep(s.spool, s.pass.flushed, w);
  }

  /** A batch or the final rewrite of a pass neither loses nor doubles a document. */
  lemma PassConserves(s: Store, outcome: Outcome)
    requires Inv(s) && s.pass.Posting?
    ensures CanPost(s) ==> Inv(PostBatch(s, outcome)) && Conserves(s, PostBatch(s, outcome))
    ensures Inv(Finish(s)) && Conserves(s, Finish(s))
  {
    forall w: Weight ensures Held(Finish(s), w) == Held(s, w) { FinishConserves(s, w); }
    if CanPost(s) {
      PostBatchKeepsInv(s, outcome);
      forall w: Weight ensures Held(PostBatch(s, outcome), w) == Held(s, w) { PostBatchConserves(s, outcome, w); }
    }
  }

  // ------------------------------------------------------ a pass without failures

  /** Every item among the visited lines has been dealt with. */
  ghost predicate Drained(p: Pass) {
    p.Posting? && p.next <= |p.snapshot| && forall i :: 0 <= i < p.next && p.snapshot[i].Item? ==> i in p.flushed
  }

  lemma {:induction false} IndicesComplete(lines: seq<Line>, lo: nat, hi: nat, i: nat)
    requires lo <= i < hi <= |lines| && lines[i].Item?
    ensures i in Indices(lines, lo, hi, Postable(lines[i].doc))
    decreases hi
  {
    if i < hi - 1 { IndicesComplete(lines, lo, hi - 1, i); }
  }

  lemma PostDrains(s: Store, outcome: Outcome)
    requires Inv(s) && CanPost(s) && Drained(s.pass) && !outcome.Transient?
    ensures Drained(PostBatch(s, outcome).pass)
  {
    var p := s.pass;
    forall i | p.next <= i < BatchEnd(p) && p.snapshot[i].Item?
      ensures i in SetOf(Indices(p.snapshot, p.next, BatchEnd(p), Postable(p.snapshot[i].doc)))
    {
      IndicesComplete(p.snapshot, p.next, BatchEnd(p), i);
    }
  }

  /** The lines that are no items. */
  function MalformedLines(lines: seq<Line>): seq<Line> {
    if lines == [] then []
    else MalformedLines(lines[..|lines| - 1]) + if lines[|lines| - 1].Malformed? then [lines[|lines| - 1]] else []
  }

  lemma {:induction false} KeepMalformed(lines: seq<Line>, drop: set<nat>)
    requires forall i :: 0 <= i < |lines| ==> (i in drop <==> lines[i].Item?)
    ensures Keep(lines, drop) == MalformedLines(lines)
  {
    if lines == [] {
    } else {
      KeepMalformed(lines[..|lines| - 1], drop);
    }
  }

  // ---------------------------------------------------- a pass with given outcomes

  /** The outcome of the POST of each batch, by the index at which the batch begins. */
  type Outcomes = nat -> Outcome

  lemma {:induction false} ItemsConcat(a: seq<Line>, b: seq<Line>)
    ensures ItemsOf(a + b) == ItemsOf(a) + ItemsOf(b)
  {
    if b == [] {
      assert a + b == a;
    } else {
      assert (a + b)[..|a + b| - 1] == a + b[..|b| - 1];
      ItemsConcat(a, b[..|b| - 1]);
    }
  }

  /** The items among the lines that a pass has been at. */
  ghost function Visited(s: Store): seq<Document>
    requires Inv(s) && s.pass.Posting?
  {
    ItemsOf(s.pass.snapshot[..s.pass.next])
  }

  ghost predicate SamePass(start: Store, s: Store) {
    && Inv(s) && s.pass.Posting? && start.pass.Posting? && s.pass.snapshot == start.pass.snapshot
    && s.spool == start.spool && start.accepted <= s.accepted && start.dead <= s.dead
  }

  ghost predicate AllDelivered(start: Store, s: Store)
    requires Inv(s) && s.pass.Posting?
  {
    && s.accepted == start.accepted + Sift(Visited(s), true)
    && s.dead == start.dead + Sift(Visited(s), false)
  }

  /** What a pass that began at `start` has done where it stands. */
  ghost predicate PassSoFar(start: Store, s: Store, outcomes: Outcomes) {
    && SamePass(start, s)
    && ((forall n :: outcomes(n) != Transient) ==> Drained(s.pass))
    && ((forall n :: outcomes(n) != Accept) ==> s.accepted == start.accepted)
    && ((forall n :: outcomes(n) == Accept) ==> AllDelivered(start, s))
  }

  lemma VisitedGrows(s: Store, postable: bool)
    requires Inv(s) && CanPost(s)
    ensures var end := if s.pass.next + 20 < |s.pass.snapshot| then s.pass.next + 20 else |s.pass.snapshot|;
            Sift(ItemsOf(s.pass.snapshot[..end]), postable) == Sift(Visited(s), postable) + Sift(NextItems(s), postable)
  {
    var p := s.pass;
    var end := if p.next + 20 < |p.snapshot| then p.next + 20 else |p.snapshot|;
    assert p.snapshot[..end] == p.snapshot[..p.next] + p.snapshot[p.next..end];
    ItemsConcat(p.snapshot[..p.next], p.snapshot[p.next..end]);
    SiftConcat(Visited(s), NextItems(s), postable);
  }

  lemma SamePassGoesOn(start: Store, s: Store, outcome: Outcome)
    requires SamePass(start, s) && CanPost(s)
    ensures SamePass(start, PostBatch(s, outcome))
    ensures outcome != Accept ==> PostBatch(s, outcome).accepted == s.accepted
  {
    PostBatchKeepsInv(s, outcome);
    PostBatchDelivers(s, outcome);
  }

  lemma AcceptDelivers(start: Store, s: Store)
    requires SamePass(start, s) && CanPost(s) && AllDelivered(start, s)
    ensures var s' := PostBatch(s, Accept); Inv(s') && s'.pass.Posting? && AllDelivered(start, s')
  {
    PostBatchKeepsInv(s, Accept);
    PostBatchDelivers(s, Accept);
    VisitedGrows(s, true);
    VisitedGrows(s, false);
    AcceptedMore(start, s, PostBatch(s, Accept), Sift(NextItems(s), false), Sift(NextItems(s), true));
  }

  lemma AcceptedMore(start: Store, s: Store, s': Store, bad: seq<Document>, good: seq<Document>)
    requires Inv(s) && s.pass.Posting? && AllDelivered(start, s) && Inv(s') && s'.pass.Posting?
    requires s'.accepted == s.accepted + good && s'.dead == s.dead + bad + []
    requires Sift(Visited(s'), true) == Sift(Visited(s), true) + good
    requires Sift(Visited(s'), false) == Sift(Visited(s), false) + bad
    ensures AllDelivered(start, s')
  {
  }

  lemma PassGoesOn(start: Store, s: Store, outcomes: Outcomes)
    requires PassSoFar(start, s, outcomes) && CanPost(s)
    ensures PassSoFar(start, PostBatch(s, outcomes(s.pass.next)), outcomes)
  {
    var outcome := outcomes(s.pass.next);
    SamePassGoesOn(start, s, outcome);
    if forall n :: outcomes(n) != Transient { PostDrains(s, outcome); }
    if forall n :: outcomes(n) == Accept { AcceptDelivers(start, s); }
  }
}
