/**
 The final reply segment: what was said after the last tool call, cut from the
 concatenated reply with the help of a bounded tail of the update stream.
 */
module FinalSegment {
  import opened Wrappers

  datatype Block = Text(text: string) | OtherBlock

  datatype Content = Single(block: Block) | Blocks(blocks: seq<Block>) | NoContent

  datatype Kind = ToolCall | ToolCallUpdate | Message | MessageChunk | OtherKind

  datatype Update = Update(kind: Kind, content: Content)

  const UPDATES_MAX := 256

  predicate IsTool(u: Update) {
    u.kind.ToolCall? || u.kind.ToolCallUpdate?
  }

  predicate IsMessage(u: Update) {
    u.kind.Message? || u.kind.MessageChunk?
  }

  function TextsOf(blocks: seq<Block>): seq<string> {
    if blocks == [] then []
    else TextsOf(blocks[..|blocks| - 1]) + if blocks[|blocks| - 1].Text? then [blocks[|blocks| - 1].text] else []
  }

  /** All text blocks of an update's content. */
  function TextFromContent(c: Content): seq<string> {
    match c
    case Blocks(blocks) => TextsOf(blocks)
    case Single(Text(text)) => [text]
    case _ => []
  }

  function Join(parts: seq<string>): string {
    if parts == [] then "" else Join(parts[..|parts| - 1]) + parts[|parts| - 1]
  }

  function TotalLength(parts: seq<string>): nat {
    if parts == [] then 0 else TotalLength(parts[..|parts| - 1]) + |parts[|parts| - 1]|
  }

  /** The agent text that an update adds to the reply. */
  function Said(u: Update): string {
    if IsMessage(u) then Join(TextFromContent(u.content)) else ""
  }

  /** The text of a stretch of the update stream. */
  function SaidIn(us: seq<Update>): string {
    if us == [] then "" else SaidIn(us[..|us| - 1]) + Said(us[|us| - 1])
  }

  /** The texts of blocks one after the other. */
  function Spoken(blocks: seq<Block>): string {
    if blocks == [] then ""
    else (match blocks[0] case Text(text) => text case OtherBlock => "") + Spoken(blocks[1..])
  }

  lemma {:induction false} JoinConcat(a: seq<string>, b: seq<string>)
    ensures Join(a + b) == Join(a) + Join(b)
  {
    if b == [] {
      assert a + b == a;
    } else {
      assert (a + b)[..|a + b| - 1] == a + b[..|b| - 1];
      JoinConcat(a, b[..|b| - 1]);
    }
  }

  lemma {:induction false} TextsConcat(a: seq<Block>, b: seq<Block>)
    ensures TextsOf(a + b) == TextsOf(a) + TextsOf(b)
  {
    if b == [] {
      assert a + b == a;
    } else {
      assert (a + b)[..|a + b| - 1] == a + b[..|b| - 1];
      TextsConcat(a, b[..|b| - 1]);
    }
  }

  lemma {:induction false} JoinIsSpoken(blocks: seq<Block>)
    ensures Join(TextsOf(blocks)) == Spoken(blocks)
  {
    if blocks == [] {
    } else {
      var first, rest := [blocks[0]], blocks[1..];
      assert blocks == first + rest && first[..0] == [];
      TextsConcat(first, rest);
      JoinConcat(TextsOf(first), TextsOf(rest));
      JoinIsSpoken(rest);
      OneSpoken(blocks[0]);
    }
  }

  lemma OneSpoken(b: Block)
    ensures Join(TextsOf([b])) == match b case Text(text) => text case OtherBlock => ""
  {
    assert [b][..0] == [];
    if b.Text? { OneJoined(b.text); }
  }

  /** The texts of a content one after the other. */
  function ContentText(c: Content): string {
    match c
    case Blocks(blocks) => Spoken(blocks)
    case Single(Text(text)) => text
    case Single(OtherBlock) => ""
    case NoContent => ""
  }

  lemma ContentMeans(c: Content)
    ensures Join(TextFromContent(c)) == ContentText(c)
  {
    match c
    case Blocks(blocks) => JoinIsSpoken(blocks);
    case Single(b) => if b.Text? { OneJoined(b.text); }
    case NoContent =>
  }

  lemma OneJoined(s: string)
    ensures Join([s]) == s
  {
    assert [s][..0] == [];
  }

  /** What an update adds to the reply: the texts of a message in order, and nothing for any other kind. */
  lemma SaidMeans(u: Update)
    ensures Said(u) == if u.kind == Message || u.kind == MessageChunk then ContentText(u.content) else ""
  {
    ContentMeans(u.content);
  }

  lemma {:induction false} SaidConcat(us: seq<Update>, vs: seq<Update>)
    ensures SaidIn(us + vs) == SaidIn(us) + SaidIn(vs)
  {
    if vs == [] {
      assert us + vs == us;
    } else {
      assert (us + vs)[..|us + vs| - 1] == us + vs[..|vs| - 1];
      SaidConcat(us, vs[..|vs| - 1]);
    }
  }

  function LastUpdates(us: seq<Update>): seq<Update> {
    if |us| <= UPDATES_MAX then us else us[|us| - UPDATES_MAX..]
  }

  /** Position n is where the text after the last tool call of the stream begins. */
  ghost predicate AfterLastTool(us: seq<Update>, n: nat) {
    && 0 < n <= |us| && (us[n - 1].kind == ToolCall || us[n - 1].kind == ToolCallUpdate)
    && forall k :: n <= k < |us| ==> us[k].kind != ToolCall && us[k].kind != ToolCallUpdate
  }

  // ------------------------------------------------------ the in-flight prompt

  class Prompt {
    var chunks: seq<string>     // every non-empty text, unbounded
    var updates: seq<Update>    // the newest updates only
    ghost var stream: seq<Update>

    ghost predicate Valid()
      reads this
    {
      Join(chunks) == SaidIn(stream) && updates == LastUpdates(stream)
    }

    constructor ()
      ensures Valid() && stream == []
    {
      chunks, updates, stream := [], [], [];
    }

    method RouteUpdate(u: Update)
      requires Valid()
      modifies this
      ensures Valid() && stream == old(stream) + [u]
      ensures updates == stream[if |stream| <= 256 then 0 else |stream| - 256..]
    {
      assert (stream + [u])[..|stream|] == stream;
      KeepLast(u);
      if IsMessage(u) {
        AppendTexts(TextFromContent(u.content));
      }
    }

    /** The bounded deque: a push beyond the limit drops the oldest update. */
    method KeepLast(u: Update)
      requires updates == LastUpdates(stream)
      modifies this`updates, this`stream
      ensures stream == old(stream) + [u] && updates == LastUpdates(stream)
    {
      stream := stream + [u];
      updates := updates + [u];
      if |updates| > UPDATES_MAX {
        updates := updates[1..];
      }
    }

    method AppendTexts(texts: seq<string>)
      modifies this`chunks
      ensures Join(chunks) == Join(old(chunks)) + Join(texts)
    {
      for k := 0 to |texts|
        invariant Join(chunks) == Join(old(chunks)) + Join(texts[..k])
      {
        assert texts[..k + 1][..k] == texts[..k];
        if texts[k] != "" {
          assert (chunks + [texts[k]])[..|chunks|] == chunks;
          chunks := chunks + [texts[k]];
        }
      }
      assert texts[..|texts|] == texts;
    }
  }

  // ------------------------------------------------------------ cutting the reply

  /** The text after the last tool update; None when there is no tool update. */
  function Segment(us: seq<Update>): Option<string> {
    if us == [] then None
    else if IsTool(us[|us| - 1]) then Some("")
    else
      match Segment(us[..|us| - 1])
      case None => None
      case Some(s) => Some(s + Said(us[|us| - 1]))
  }

  /** The last `chars` characters of the reply, if any are asked for and there are any. */
  function Cut(reply: string, chars: nat): Option<string> {
    if chars == 0 || reply == "" then None
    else if chars < |reply| then Some(reply[|reply| - chars..])
    else Some(reply)
  }

  lemma {:induction false} JoinLength(parts: seq<string>)
    ensures |Join(parts)| == TotalLength(parts)
  {
    if parts == [] {
    } else {
      JoinLength(parts[..|parts| - 1]);
    }
  }

  /** `Segment` is the text from the position after the last tool update on. */
  lemma {:induction false} SegmentMeaning(us: seq<Update>, n: nat)
    requires AfterLastTool(us, n)
    ensures Segment(us) == Some(SaidIn(us[n..]))
    decreases |us|
  {
    if n == |us| {
    } else {
      var front, last := us[..|us| - 1], us[|us| - 1];
      assert !IsTool(us[|us| - 1]);
      SegmentMeaning(front, n);
      assert us[n..] == front[n..] + [last];
      assert us[n..][..|us| - 1 - n] == front[n..];
    }
  }

  lemma {:induction false} NoToolNoSegment(us: seq<Update>)
    requires forall k :: 0 <= k < |us| ==> !IsTool(us[k])
    ensures Segment(us) == None
  {
    if us == [] {
    } else {
      NoToolNoSegment(us[..|us| - 1]);
    }
  }

  /** The index of the last tool update, or -1. */
  method LastTool(updates: seq<Update>) returns (last: int)
    ensures -1 <= last < |updates|
    ensures last >= 0 ==> AfterLastTool(updates, last + 1)
    ensures last < 0 ==> forall k :: 0 <= k < |updates| ==> !IsTool(updates[k])
  {
    last := -1;
    for i := 0 to |updates|
      invariant -1 <= last < i
      invariant last >= 0 ==> IsTool(updates[last])
      invariant forall k :: last < k < i ==> !IsTool(updates[k])
    {
      if IsTool(updates[i]) {
        last := i;
      }
    }
  }

  method CountSaid(segment: seq<Update>) returns (chars: nat)
    ensures chars == |SaidIn(segment)|
  {
    chars := 0;
    for k := 0 to |segment|
      invariant chars == |SaidIn(segment[..k])|
    {
      assert segment[..k + 1][..k] == segment[..k];
      if IsMessage(segment[k]) {
        JoinLength(TextFromContent(segment[k].content));
        chars := chars + TotalLength(TextFromContent(segment[k].content));
      }
    }
    assert segment[..|segment|] == segment;
  }

  /** The reply after the last visible tool update; None when there is no such update or nothing followed it. */
  method FinalSegmentReply(updates: seq<Update>, reply: string) returns (r: Option<string>)
    ensures r == match Segment(updates) case None => None case Some(s) => Cut(reply, |s|)
  {
    var last := LastTool(updates);
    if last < 0 {
      NoToolNoSegment(updates);
      return None;
    }
    SegmentMeaning(updates, last + 1);
    var chars := CountSaid(updates[last + 1..]);
    if chars <= 0 || reply == "" {
      return None;
    }
    r := Some(if chars < |reply| then reply[|reply| - chars..] else reply);
  }

  lemma {:induction false} TailSegment(dropped: seq<Update>, tail: seq<Update>)
    requires Segment(tail).Some?
    ensures Segment(dropped + tail) == Segment(tail)
  {
    assert (dropped + tail)[..|dropped + tail| - 1] == dropped + tail[..|tail| - 1];
    if !IsTool(tail[|tail| - 1]) { TailSegment(dropped, tail[..|tail| - 1]); }
  }

  lemma {:induction false} SegmentEndsReply(us: seq<Update>) returns (before: string)
    requires Segment(us).Some?
    ensures SaidIn(us) == before + Segment(us).value
  {
    var front, last := us[..|us| - 1], us[|us| - 1];
    if IsTool(last) {
      before := SaidIn(us);
    } else {
      before := SegmentEndsReply(front);
      assert before + Segment(front).value + Said(last) == before + (Segment(front).value + Said(last));
    }
  }

  /** One text ends with the other. */
  ghost predicate EndsWith(s: string, t: string) {
    |t| <= |s| && s[|s| - |t|..] == t
  }

  /** Cutting an ending of the text by the length of another ending gives the shorter of the two. */
  lemma CutEnding(said: string, reply: string, s: string)
    requires EndsWith(said, reply) && EndsWith(said, s)
    ensures Cut(reply, |s|) == if s == "" || reply == "" then None else Some(if |s| < |reply| then s else reply)
  {
    if 0 < |s| < |reply| { assert reply[|reply| - |s|..] == said[|said| - |s|..]; }
  }

  /**
   If the bounded tail shows a tool update at all, the cut is exact for the whole
   unbounded stream. The reply may have lost some of its beginning, such as a thought:
   then it is the text said after the last tool update or what is left of it, and None
   if nothing is.
   */
  lemma SegmentIsExact(stream: seq<Update>, reply: string)
    requires Segment(LastUpdates(stream)).Some? && EndsWith(SaidIn(stream), reply)
    ensures Segment(stream).Some?
    ensures var s := Segment(stream).value;
            Cut(reply, |Segment(LastUpdates(stream)).value|)
            == if s == "" || reply == "" then None else Some(if |s| < |reply| then s else reply)
  {
    var tail := LastUpdates(stream);
    assert stream == stream[..|stream| - |tail|] + tail;
    TailSegment(stream[..|stream| - |tail|], tail);
    assert Segment(stream) == Segment(tail);
    var before := SegmentEndsReply(stream);
    assert EndsWith(SaidIn(stream), Segment(stream).value);
    CutEnding(SaidIn(stream), reply, Segment(stream).value);
  }

  /** A tool update is visible in the tail exactly if fewer updates than the bound came after the last one. */
  lemma VisibleIffRecent(stream: seq<Update>, n: nat)
    requires AfterLastTool(stream, n)
    ensures Segment(LastUpdates(stream)).Some? <==> |stream| - n < 256
  {
    var tail := LastUpdates(stream);
    var dropped := |stream| - |tail|;
    if |stream| - n < UPDATES_MAX {
      assert tail[n - dropped - 1] == stream[n - 1];
      forall k | n - dropped <= k < |tail| ensures !IsTool(tail[k]) { assert tail[k] == stream[k + dropped]; }
      SegmentMeaning(tail, n - dropped);
    } else {
      forall k | 0 <= k < |tail| ensures !IsTool(tail[k]) { assert tail[k] == stream[k + dropped]; }
      NoToolNoSegment(tail);
    }
  }
}
