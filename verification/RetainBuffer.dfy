/**
 The turn buffer: turns are collected, bundled per session into documents and
 handed to a retain backend that may fail at any call.
 */
module RetainBuffer {

  datatype Entry = Entry(content: string, turn: int, session: int)

  /** A retained document; `turns` is empty for items that do not come from the turn buffer. */
  datatype Document = Document(content: string, turns: seq<Entry>)

  const SEPARATOR := "\n\n---\n\n"

  function JoinContents(es: seq<Entry>): string {
    if es == [] then ""
    else if |es| == 1 then es[0].content
    else JoinContents(es[..|es| - 1]) + SEPARATOR + es[|es| - 1].content
  }

  function DocumentOf(es: seq<Entry>): Document {
    Document(JoinContents(es), es)
  }

  /** Turn k stands in the text at its offset, right after the turn before it and a separator. */
  ghost predicate LaidAt(text: string, es: seq<Entry>, at: seq<nat>, k: nat)
    requires |at| == |es|
  {
    k < |es| ==>
      && at[k] == (if k == 0 then 0 else at[k - 1] + |es[k - 1].content| + 7)
      && at[k] + |es[k].content| <= |text| && text[at[k]..at[k] + |es[k].content|] == es[k].content
      && (k > 0 ==> text[at[k] - 7..at[k]] == ['\n', '\n', '-', '-', '-', '\n', '\n'])
  }

  /** The text holds the contents of the turns, in order with separators between neighbours, and nothing else. */
  ghost predicate LaidOut(text: string, es: seq<Entry>, at: seq<nat>) {
    && |at| == |es| > 0 && (forall k: nat :: LaidAt(text, es, at, k))
    && |text| == at[|es| - 1] + |es[|es| - 1].content|
  }

  lemma LayEarlier(text: string, es: seq<Entry>, at: seq<nat>, k: nat, more: string, e: Entry, n: nat)
    requires |at| == |es| && k < |es| && LaidAt(text, es, at, k)
    ensures LaidAt(text + more, es + [e], at + [n], k)
  {
    assert (text + more)[at[k]..at[k] + |es[k].content|] == text[at[k]..at[k] + |es[k].content|];
    if k > 0 { assert (text + more)[at[k] - 7..at[k]] == text[at[k] - 7..at[k]]; }
  }

  lemma LayOneMore(text: string, es: seq<Entry>, at: seq<nat>, e: Entry)
    requires LaidOut(text, es, at)
    ensures LaidOut(text + (SEPARATOR + e.content), es + [e], at + [|text| + 7])
  {
    var text', es', at' := text + (SEPARATOR + e.content), es + [e], at + [|text| + 7];
    forall k: nat ensures LaidAt(text', es', at', k) {
      if k < |es| {
        assert LaidAt(text, es, at, k);
        LayEarlier(text, es, at, k, SEPARATOR + e.content, e, |text| + 7);
      } else if k == |es| {
        assert text'[|text| + 7..] == e.content && text'[|text|..|text| + 7] == SEPARATOR;
      }
    }
  }

  /** The joined text of a bundle holds the text of every turn. */
  lemma {:induction false} JoinLaidOut(es: seq<Entry>) returns (at: seq<nat>)
    requires es != []
    ensures LaidOut(JoinContents(es), es, at)
  {
    if |es| == 1 {
      at := [0];
      assert LaidAt(es[0].content, es, at, 0);
    } else {
      var front, last := es[..|es| - 1], es[|es| - 1];
      at := JoinLaidOut(front);
      LayOneMore(JoinContents(front), front, at, last);
      at := at + [|JoinContents(front)| + 7];
      assert es == front + [last];
      assert JoinContents(es) == JoinContents(front) + (SEPARATOR + last.content);
    }
  }

  /** All turns of a document belong to one session. */
  predicate SingleSession(d: Document) {
    forall i, j :: 0 <= i < |d.turns| && 0 <= j < |d.turns| ==> d.turns[i].session == d.turns[j].session
  }

  /** The turns of a list of documents, in order. */
  ghost function TurnsOf(docs: seq<Document>): seq<Entry> {
    if docs == [] then [] else TurnsOf(docs[..|docs| - 1]) + docs[|docs| - 1].turns
  }

  function SessionOf(d: Document): int {
    if d.turns == [] then 0 else d.turns[0].session
  }

  /** From position `from` on, neighbouring documents belong to different sessions: runs are not split. */
  ghost predicate OnePerRun(docs: seq<Document>, from: nat) {
    forall k :: from <= k < |docs| - 1 ==> SessionOf(docs[k]) != SessionOf(docs[k + 1])
  }

  /** The first `end` entries are a same-session run that cannot be made longer. */
  ghost predicate IsHeadRun(es: seq<Entry>, end: nat) {
    && 0 < end <= |es|
    && (forall i :: 0 <= i < end ==> es[i].session == es[0].session)
    && (end < |es| ==> es[end].session != es[0].session)
  }

  /** What reading the backing file keeps: entries without content are skipped. */
  function Loaded(lines: seq<Entry>): seq<Entry> {
    if lines == [] then []
    else Loaded(lines[..|lines| - 1]) + if lines[|lines| - 1].content != "" then [lines[|lines| - 1]] else []
  }

  ghost predicate HaveContent(es: seq<Entry>) {
    forall i :: 0 <= i < |es| ==> es[i].content != ""
  }

  lemma {:induction false} LoadedLength(es: seq<Entry>)
    ensures |Loaded(es)| <= |es|
  {
    if es == [] {
    } else {
      LoadedLength(es[..|es| - 1]);
    }
  }

  /** A restart restores the buffer exactly when no buffered turn is empty. */
  lemma {:induction false} LoadRoundTrip(es: seq<Entry>)
    ensures Loaded(es) == es <==> HaveContent(es)
  {
    if es == [] {
    } else {
      var front := es[..|es| - 1];
      LoadRoundTrip(front);
      LoadedLength(front);
      assert es == front + [es[|es| - 1]];
      if Loaded(es) == es {
        assert Loaded(es)[..|es| - 1] == front;
        assert Loaded(front) == front;
      }
      if HaveContent(es) { assert HaveContent(front); }
    }
  }

  /** The text of a document holds all its turns, and they belong to one session. */
  ghost predicate WellFormed(d: Document) {
    SingleSession(d) && d == DocumentOf(d.turns) && exists at :: LaidOut(d.content, d.turns, at)
  }

  /** The turns of the retained documents, then the buffer, are the recorded turns in their order. */
  ghost predicate Delivered(recorded: seq<Entry>, retained: seq<Document>, entries: seq<Entry>) {
    TurnsOf(retained) + entries == recorded && forall k :: 0 <= k < |retained| ==> WellFormed(retained[k])
  }

  lemma DeliveredMore(recorded: seq<Entry>, retained: seq<Document>, entries: seq<Entry>, e: Entry)
    requires Delivered(recorded, retained, entries)
    ensures Delivered(recorded + [e], retained, entries + [e])
  {
    assert TurnsOf(retained) + (entries + [e]) == TurnsOf(retained) + entries + [e];
  }

  lemma TurnsSplit(turns: seq<Entry>, entries: seq<Entry>, end: nat)
    requires end <= |entries|
    ensures turns + entries[..end] + entries[end..] == turns + entries
  {
    assert entries == entries[..end] + entries[end..];
  }

  lemma HeadRunWellFormed(entries: seq<Entry>, end: nat)
    requires IsHeadRun(entries, end)
    ensures WellFormed(DocumentOf(entries[..end])) && SessionOf(DocumentOf(entries[..end])) == entries[0].session
  {
    var at := JoinLaidOut(entries[..end]);
  }

  /** Handing over the head run keeps all that, and the next document is of another session. */
  lemma HandOver(recorded: seq<Entry>, retained: seq<Document>, entries: seq<Entry>, end: nat)
    requires Delivered(recorded, retained, entries) && IsHeadRun(entries, end)
    ensures var d := DocumentOf(entries[..end]);
            && Delivered(recorded, retained + [d], entries[end..])
            && SessionOf(d) == entries[0].session
            && (end < |entries| ==> SessionOf(d) != entries[end].session)
  {
    var d := DocumentOf(entries[..end]);
    HeadRunWellFormed(entries, end);
    assert (retained + [d])[..|retained|] == retained;
    assert TurnsOf(retained + [d]) == TurnsOf(retained) + entries[..end];
    TurnsSplit(TurnsOf(retained), entries, end);
  }

  /** What a flush that began with `from` documents has done so far: one document per run, and the next is another's. */
  ghost predicate FlushedSo(retained: seq<Document>, from: nat, entries: seq<Entry>) {
    && OnePerRun(retained, from)
    && (|retained| > from && entries != [] ==> SessionOf(retained[|retained| - 1]) != entries[0].session)
  }

  lemma FlushGoesOn(retained: seq<Document>, from: nat, entries: seq<Entry>, end: nat)
    requires FlushedSo(retained, from, entries) && IsHeadRun(entries, end)
    ensures FlushedSo(retained + [DocumentOf(entries[..end])], from, entries[end..])
  {
    HeadRunWellFormed(entries, end);
    var docs := retained + [DocumentOf(entries[..end])];
    forall k | from <= k < |docs| - 1 ensures SessionOf(docs[k]) != SessionOf(docs[k + 1]) {
      if k < |retained| - 1 { assert SessionOf(retained[k]) != SessionOf(retained[k + 1]); }
    }
  }

  class TurnRetainBuffer {
    const bundleTurns: int
    var entries: seq<Entry>
    var file: seq<Entry>               // the backing file; [] stands for no file
    ghost var recorded: seq<Entry>     // every turn this buffer was ever given, in order
    ghost var retained: seq<Document>  // every document the backend took, in order
    ghost var failures: nat            // how many retain calls have failed

    /** Nothing is lost, reordered or mixed: the retained turns, then the buffer, are what was recorded. */
    ghost predicate Valid()
      reads this
    {
      Delivered(recorded, retained, entries)
    }

    function BundleSize(): nat {
      if bundleTurns < 1 then 1 else bundleTurns
    }

    /** A new process picks up the turns that an earlier one left in the backing file. */
    constructor (bundleTurns: int, file: seq<Entry>)
      ensures Valid() && entries == Loaded(file) == recorded && retained == [] && failures == 0
      ensures this.bundleTurns == bundleTurns && this.file == file
    {
      this.bundleTurns, this.file := bundleTurns, file;
      entries, recorded, retained, failures := [], [], [], 0;
      new;
      Load();
      recorded := entries;
    }

    method Load()
      modifies this`entries
      ensures entries == old(entries) + Loaded(file)
    {
      for k := 0 to |file|
        invariant entries == old(entries) + Loaded(file[..k])
      {
        assert file[..k + 1][..k] == file[..k];
        if file[k].content != "" {
          entries := entries + [file[k]];
        }
      }
      assert file[..|file|] == file;
    }

    method Write()
      modifies this`file
      ensures file == entries
    {
      if entries != [] {
        file := entries;
      } else if file != [] {
        file := [];
      }
    }

    /** The backend call: it takes the document, or raises and takes nothing. */
    method Retain(d: Document) returns (ok: bool)
      modifies this`retained, this`failures
      ensures ok ==> retained == old(retained) + [d] && failures == old(failures)
      ensures !ok ==> retained == old(retained) && failures == old(failures) + 1
    {
      ok := *;
      if ok {
        retained := retained + [d];
      } else {
        failures := failures + 1;
      }
    }

    /** How many entries at the front share the first entry's session. */
    method HeadRun() returns (end: nat)
      requires entries != []
      ensures IsHeadRun(entries, end)
    {
      var session := entries[0].session;
      end := 0;
      while end < |entries| && entries[end].session == session
        invariant 0 <= end <= |entries|
        invariant forall i :: 0 <= i < end ==> entries[i].session == session
      {
        end := end + 1;
      }
    }

    method Append(e: Entry)
      requires Valid()
      modifies this
      ensures Valid() && recorded == old(recorded) + [e]
      ensures file == entries
      ensures old(retained) <= retained
      ensures failures >= old(failures)
      ensures failures == old(failures) ==> |entries| < if bundleTurns < 1 then 1 else bundleTurns
      ensures (old(entries) == [] || old(entries)[0].session == e.session) && |old(entries)| + 1 < bundleTurns ==>
                entries == old(entries) + [e] && retained == old(retained) && failures == old(failures)
      ensures (old(entries) == [] || old(entries)[0].session == e.session) && |old(entries)| + 1 >= bundleTurns ==>
                failures == old(failures) ==> entries == []
      ensures failures == old(failures) && old(entries) != [] && old(entries)[0].session != e.session ==>
                entries == if 1 < bundleTurns then [e] else []
    {
      if entries != [] && entries[0].session != e.session {
        Flush();
      }
      DeliveredMore(recorded, retained, entries, e);
      entries := entries + [e];
      recorded := recorded + [e];
      if |entries| >= BundleSize() {
        Flush();
      } else {
        Write();
      }
    }

    /** Retains the buffer one same-session run at a time, and stops at the first failure. */
    method Flush()
      requires Valid()
      modifies this
      ensures Valid() && recorded == old(recorded)
      ensures file == entries
      ensures old(retained) <= retained
      ensures failures == old(failures) ==> entries == []
      ensures old(failures) <= failures <= old(failures) + 1
      ensures OnePerRun(retained, |old(retained)|)
    {
      while entries != []
        invariant Valid() && recorded == old(recorded) && failures == old(failures)
        invariant old(retained) <= retained && FlushedSo(retained, |old(retained)|, entries)
        decreases |entries|
      {
        var end := HeadRun();
        HandOver(recorded, retained, entries, end);
        FlushGoesOn(retained, |old(retained)|, entries, end);
        var ok := Retain(DocumentOf(entries[..end]));
        if !ok {
          Write();
          return;
        }
        entries := entries[end..];
      }
      Write();
    }
  }
}
