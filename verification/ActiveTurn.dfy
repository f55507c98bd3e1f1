/**
 The running turn: rolling windows over the message and thought streams, and the
 reply text recovered from them.
 */
module ActiveTurn {

  const MAX := 20000

  /** The last MAX characters. */
  function Tail(s: string): string {
    if |s| <= MAX then s else s[|s| - MAX..]
  }

  /** The first MAX characters. */
  function Head(s: string): string {
    if |s| <= MAX then s else s[..MAX]
  }

  function LStripNewlines(s: string): string {
    if s != "" && s[0] == '\n' then LStripNewlines(s[1..]) else s
  }

  /** What the fields stand for: F is the whole message stream, T the whole thought stream. */
  ghost predicate Windows(fullText: string, offset: nat, thoughtText: string, thoughtPrefix: string, thoughtTotal: nat,
                          F: string, T: string)
  {
    && fullText == Tail(F) && offset + |fullText| == |F|
    && thoughtText == Tail(T) && thoughtPrefix == Head(T) && thoughtTotal == |T|
  }

  /** The retained message window verifiably starts inside the thought. */
  predicate HasThoughtPrefix(fullText: string, offset: nat, thoughtText: string, thoughtPrefix: string,
                             thoughtTotal: nat)
  {
    if thoughtTotal == 0 || fullText == "" then false
    else if thoughtTotal <= MAX then thoughtText <= fullText
    else
      var end := if offset + |fullText| < MAX then offset + |fullText| else MAX;
      offset < end && fullText[..end - offset] == Slice(thoughtPrefix, offset, end)
  }

  /** The characters from a position on, none if it lies beyond the end. */
  function From(s: string, lo: nat): string {
    if lo < |s| then s[lo..] else ""
  }

  /** A slice whose bounds are clamped to the string. */
  function Slice(s: string, lo: nat, hi: nat): string
    requires lo <= hi
  {
    s[(if lo < |s| then lo else |s|)..(if hi < |s| then hi else |s|)]
  }

  function Recomputed(fullText: string, offset: nat, thoughtText: string, thoughtPrefix: string,
                      thoughtTotal: nat): string
  {
    AfterThought(fullText, HasThoughtPrefix(fullText, offset, thoughtText, thoughtPrefix, thoughtTotal),
                 if thoughtTotal > offset then thoughtTotal - offset else 0)
  }

  /** The window from where the thought ends, or all of it if the thought is not in it. */
  function AfterThought(fullText: string, thoughtSeen: bool, start: nat): string {
    if thoughtSeen then Tail(From(fullText, start)) else Tail(fullText)
  }

  /** The message text as a function of the two streams alone. */
  ghost function MessageOf(F: string, T: string): string {
    Recomputed(Tail(F), |F| - |Tail(F)|, Tail(T), Head(T), |T|)
  }

  class ActiveTurn {
    var messageText: string
    var thoughtText: string
    var thoughtPrefix: string
    var fullText: string
    var thoughtTotal: nat
    var fullTextOffset: nat
    ghost var F: string
    ghost var T: string

    ghost predicate Valid()
      reads this
    {
      Windows(fullText, fullTextOffset, thoughtText, thoughtPrefix, thoughtTotal, F, T)
    }

    constructor ()
      ensures Valid() && F == "" && T == ""
    {
      messageText, thoughtText, thoughtPrefix, fullText := "", "", "", "";
      thoughtTotal, fullTextOffset, F, T := 0, 0, "", "";
    }

    method AppendFullText(text: string)
      requires Valid()
      modifies this`fullText, this`fullTextOffset, this`F
      ensures Valid() && F == old(F) + text
    {
      TailAppend(F, text);
      F := F + text;
      fullText := fullText + text;
      var excess := |fullText| - MAX;
      if excess > 0 {
        var dropped := fullText[..excess];
        fullTextOffset := fullTextOffset + |dropped|;
        fullText := fullText[excess..];
      }
    }

    method AppendThoughtText(text: string)
      requires Valid()
      modifies this`thoughtText, this`thoughtPrefix, this`thoughtTotal, this`T
      ensures Valid() && T == old(T) + text
    {
      TailAppend(T, text);
      HeadAppend(T, text);
      T := T + text;
      thoughtText := thoughtText + text;
      thoughtPrefix := thoughtPrefix + text;
      thoughtTotal := thoughtTotal + |text|;
      if |thoughtText| > MAX {
        thoughtText := thoughtText[|thoughtText| - MAX..];
      }
      if |thoughtPrefix| > MAX {
        thoughtPrefix := thoughtPrefix[..MAX];
      }
    }

    /** It works on whatever the fields hold; see `RecomputedIsMessage` for a valid turn. */
    method RecomputeMessageText()
      modifies this`messageText
      ensures messageText == Recomputed(fullText, fullTextOffset, thoughtText, thoughtPrefix, thoughtTotal)
    {
      if fullText == "" {
        messageText := "";
        return;
      }
      if thoughtTotal > 0 && HasThoughtPrefix(fullText, fullTextOffset, thoughtText, thoughtPrefix, thoughtTotal) {
        var start := if thoughtTotal - fullTextOffset > 0 then thoughtTotal - fullTextOffset else 0;
        messageText := From(fullText, start);
      } else {
        messageText := fullText;
      }
      if |messageText| > MAX {
        messageText := messageText[|messageText| - MAX..];
      }
    }
  }

  /** In a valid turn the recomputed message is a function of the two streams, however they interleaved. */
  lemma RecomputedIsMessage(turn: ActiveTurn)
    requires turn.Valid()
    ensures Recomputed(turn.fullText, turn.fullTextOffset, turn.thoughtText, turn.thoughtPrefix, turn.thoughtTotal)
            == MessageOf(turn.F, turn.T)
  {
  }

  /** What the fields of a turn hold of the two streams. */
  lemma WindowsMeaning(turn: ActiveTurn)
    requires turn.Valid()
    ensures turn.fullTextOffset == if |turn.F| <= 20000 then 0 else |turn.F| - 20000
    ensures turn.fullText == turn.F[turn.fullTextOffset..]
    ensures turn.thoughtText == turn.T[if |turn.T| <= 20000 then 0 else |turn.T| - 20000..]
    ensures turn.thoughtPrefix == turn.T[..if |turn.T| <= 20000 then |turn.T| else 20000]
    ensures turn.thoughtTotal == |turn.T|
  {
  }

  lemma TailAppend(s: string, text: string)
    ensures Tail(Tail(s) + text) == Tail(s + text)
  {
    if |s| > MAX {
      assert Tail(s) + text == (s + text)[|s| - MAX..];
    }
  }

  lemma HeadAppend(s: string, text: string)
    ensures Head(Head(s) + text) == Head(s + text)
  {
    if |s| > MAX {
      assert (Head(s) + text)[..MAX] == s[..MAX] == (s + text)[..MAX];
    }
  }

  ghost predicate Ends(s: string, m: string) {
    |m| <= |s| && m == s[|s| - |m|..]
  }

  lemma EndsOfEnds(s: string, t: string, m: string)
    requires Ends(s, t) && Ends(t, m)
    ensures Ends(s, m)
  {
  }

  lemma TailEnds(s: string)
    ensures Ends(s, Tail(s)) && |Tail(s)| <= MAX
  {
  }

  lemma WindowEnds(window: string, start: nat)
    ensures Ends(window, Tail(From(window, start))) && |Tail(From(window, start))| <= MAX
  {
    TailEnds(From(window, start));
    EndsOfEnds(window, From(window, start), Tail(From(window, start)));
  }

  lemma AfterThoughtEnds(F: string, thoughtSeen: bool, start: nat)
    ensures var m := AfterThought(Tail(F), thoughtSeen, start); Ends(F, m) && |m| <= MAX
  {
    TailEnds(F);
    if thoughtSeen {
      WindowEnds(Tail(F), start);
      EndsOfEnds(F, Tail(F), Tail(From(Tail(F), start)));
    } else {
      TailEnds(Tail(F));
      EndsOfEnds(F, Tail(F), Tail(Tail(F)));
    }
  }

  lemma MessageForm(F: string, T: string) returns (thoughtSeen: bool, start: nat)
    ensures MessageOf(F, T) == AfterThought(Tail(F), thoughtSeen, start)
  {
    var offset := |F| - |Tail(F)|;
    thoughtSeen := HasThoughtPrefix(Tail(F), offset, Tail(T), Head(T), |T|);
    start := if |T| > offset then |T| - offset else 0;
  }

  /** Whatever the streams are, the message text is a suffix of the message stream, of at most MAX characters. */
  lemma MessageIsSuffix(F: string, T: string)
    ensures Ends(F, MessageOf(F, T)) && |MessageOf(F, T)| <= MAX
  {
    var thoughtSeen, start := MessageForm(F, T);
    AfterThoughtEnds(F, thoughtSeen, start);
  }

  // --------------------------------------------- the message, whatever the streams

  /** The message stream visibly starts with the thought, as far as the fields can tell. */
  ghost predicate Visible(F: string, T: string) {
    var offset := if |F| <= 20000 then 0 else |F| - 20000;
    && T != "" && F != ""
    && if |T| <= 20000 then |T| <= |F| - offset && forall k :: 0 <= k < |T| ==> F[offset + k] == T[k]
       else offset < 20000 && forall k :: offset <= k < |F| && k < 20000 ==> F[k] == T[k]
  }

  lemma ShortThoughtSeen(F: string, T: string)
    requires |T| <= MAX
    ensures HasThoughtPrefix(Tail(F), |F| - |Tail(F)|, Tail(T), Head(T), |T|) <==> Visible(F, T)
  {
    var offset := |F| - |Tail(F)|;
    assert forall k :: 0 <= k < |Tail(F)| ==> Tail(F)[k] == F[offset + k];
  }

  lemma LongThoughtSeen(F: string, T: string)
    requires |T| > MAX
    ensures HasThoughtPrefix(Tail(F), |F| - |Tail(F)|, Tail(T), Head(T), |T|) <==> Visible(F, T)
  {
    var offset := |F| - |Tail(F)|;
    var end := if |F| < MAX then |F| else MAX;
    if F != "" && offset < end {
      var seen, told := Tail(F)[..end - offset], Slice(Head(T), offset, end);
      assert |seen| == |told| == end - offset;
      assert forall k :: 0 <= k < end - offset ==> seen[k] == F[offset + k] && told[k] == T[offset + k];
      assert (forall k :: offset <= k < end ==> F[k] == T[k]) ==> seen == told;
      if seen == told {
        forall k | offset <= k < end ensures F[k] == T[k] { assert seen[k - offset] == told[k - offset]; }
      }
    }
  }

  /** For any two streams: the message is the window from the end of a visible thought on, or else all of it. */
  lemma MessageMeaning(F: string, T: string)
    ensures var offset := if |F| <= 20000 then 0 else |F| - 20000;
            MessageOf(F, T) ==
              if !Visible(F, T) || |T| <= offset then F[offset..]
              else if |T| <= |F| then F[|T|..]
              else ""
  {
    if |T| <= MAX { ShortThoughtSeen(F, T); } else { LongThoughtSeen(F, T); }
    var offset := |F| - |Tail(F)|;
    assert Tail(F) == F[offset..];
    if offset < |T| <= |F| { assert F[offset..][|T| - offset..] == F[|T|..]; }
  }

  /** When the message stream repeats the thought and goes on with M, this is exactly when M is recovered. */
  predicate Recoverable(T: string, M: string) {
    var F := T + M;
    || |F| <= MAX
    || |M| == MAX
    || (|T| > MAX && |F| < 2 * MAX)
    || (0 < |T| <= MAX && |M| < MAX && T <= Tail(F))
  }

  lemma ShortStreams(T: string, M: string)
    requires |T + M| <= MAX
    ensures MessageOf(T + M, T) == M
  {
    var F := T + M;
    assert Tail(F) == F && Tail(T) == T;
    if |T| > 0 { assert T <= F && F[|T|..] == M; } else { assert F == M; }
  }

  lemma LongThought(T: string, M: string)
    requires |T| > MAX && |T + M| < 2 * MAX
    ensures MessageOf(T + M, T) == M
  {
    var F := T + M;
    var offset := |F| - MAX;
    assert Tail(F)[..MAX - offset] == F[offset..MAX] == T[offset..MAX] == Head(T)[offset..MAX];
    assert Tail(F)[|T| - offset..] == F[|T|..] == M;
  }

  /** A long stream whose thought is no longer in sight. */
  lemma WindowTaken(T: string, M: string)
    requires |T + M| > MAX && (|T| > MAX ==> |T + M| >= 2 * MAX)
    requires !(0 < |T| <= MAX && T <= Tail(T + M))
    ensures MessageOf(T + M, T) == Tail(T + M)
  {
  }

  /** A short thought that the window happens to start with again. */
  lemma EchoedThought(T: string, M: string)
    requires |T + M| > MAX && 0 < |T| <= MAX && T <= Tail(T + M)
    ensures MessageOf(T + M, T) == if |M| < MAX then M else Tail(T + M)
  {
    var F := T + M;
    var offset := |F| - MAX;
    if |T| > offset { assert Tail(F)[|T| - offset..] == F[|T|..] == M; }
  }

  /** M is recovered exactly under that condition; in all other cases the whole window is taken for the message. */
  lemma MessageExactly(T: string, M: string)
    ensures MessageOf(T + M, T) == M <==> Recoverable(T, M)
    ensures !Recoverable(T, M) ==> MessageOf(T + M, T) == Tail(T + M)
  {
    var F := T + M;
    if |F| <= MAX {
      ShortStreams(T, M);
    } else if |T| > MAX && |F| < 2 * MAX {
      LongThought(T, M);
    } else if 0 < |T| <= MAX && T <= Tail(F) {
      EchoedThought(T, M);
      if |M| == MAX { assert Tail(F) == F[|T|..] == M; }
    } else {
      WindowTaken(T, M);
      if |M| == MAX { assert Tail(F) == F[|T|..] == M; }
    }
  }

  // ----------------------------------------------------------------- final reply

  /** The reply with a leading thought removed, as the turn reports it. */
  function FinalReply(reply: string, thoughtText: string, thoughtPrefix: string, thoughtTotal: nat): string {
    if thoughtTotal == 0 then reply
    else
      var thought := if thoughtTotal <= MAX then thoughtText else thoughtPrefix;
      if thought != "" && thought <= reply
      then LStripNewlines(From(reply, thoughtTotal))
      else reply
  }

  /** What the method is for: exactly the thought and the newlines after it go, and other replies stay as they are. */
  function Stripped(reply: string, T: string): string {
    if T != "" && T <= reply then LStripNewlines(reply[|T|..]) else reply
  }

  /** Exactly the newlines at the start are stripped. */
  lemma {:induction false} LStripMeans(s: string) returns (n: nat)
    ensures n <= |s| && LStripNewlines(s) == s[n..]
    ensures forall k :: 0 <= k < n ==> s[k] == '\n'
    ensures n < |s| ==> s[n] != '\n'
  {
    if s == "" || s[0] != '\n' {
      n := 0;
    } else {
      n := LStripMeans(s[1..]);
      assert s[1..][n..] == s[n + 1..];
      n := n + 1;
    }
  }

  /** A reply that begins with all of the thought loses it and the newlines after it, and nothing else. */
  lemma LeadingThoughtGoes(T: string, reply: string) returns (n: nat)
    requires T != "" && T <= reply
    ensures |T| + n <= |reply| && FinalReply(reply, Tail(T), Head(T), |T|) == reply[|T| + n..]
    ensures forall k :: |T| <= k < |T| + n ==> reply[k] == '\n'
    ensures |T| + n < |reply| ==> reply[|T| + n] != '\n'
  {
    FinalReplyStripsThought(T, reply);
    n := LStripMeans(reply[|T|..]);
    assert reply[|T|..][n..] == reply[|T| + n..];
  }

  lemma {:induction false} LStripShortens(s: string)
    ensures |LStripNewlines(s)| <= |s|
  {
    if s == "" || s[0] != '\n' {
    } else {
      LStripShortens(s[1..]);
    }
  }

  /** A thought longer than the window is checked by its first MAX characters only, and cut all the same. */
  lemma CutTooMuch(T: string, reply: string)
    requires |T| > MAX && Head(T) <= reply
    ensures var r := FinalReply(reply, Tail(T), Head(T), |T|);
            r == LStripNewlines(From(reply, |T|)) && |r| < |reply|
  {
    LStripShortens(From(reply, |T|));
  }

  /**
   The final reply is that exactly if the thought fits the window, or the reply does
   begin with all of it, or not even with its first MAX characters.
   */
  lemma FinalReplyStripsThought(T: string, reply: string)
    ensures FinalReply(reply, Tail(T), Head(T), |T|) == Stripped(reply, T)
            <==> |T| <= MAX || T <= reply || !(Head(T) <= reply)
  {
    if |T| > MAX {
      if T <= reply {
        assert Head(T) <= reply;
      } else if Head(T) <= reply {
        CutTooMuch(T, reply);
      }
    }
  }

  /** A reply that leaves the thought after MAX characters loses a character of its own ... */
  lemma DivergingReplyIsCut(T: string, c: char, M: string)
    requires |T| == MAX + 1 && c != T[MAX]
    ensures FinalReply(T[..MAX] + [c] + M, Tail(T), Head(T), |T|) == LStripNewlines(M)
    ensures Stripped(T[..MAX] + [c] + M, T) == T[..MAX] + [c] + M
  {
    var reply := T[..MAX] + [c] + M;
    assert reply[|T|..] == M && reply[..MAX] == T[..MAX] && reply[MAX] == c;
  }

  /** ... and a reply that stops inside the thought after MAX characters is lost altogether. */
  lemma PartialReplyIsLost(T: string, n: nat)
    requires MAX <= n < |T|
    ensures FinalReply(T[..n], Tail(T), Head(T), |T|) == "" && Stripped(T[..n], T) == T[..n]
  {
    assert T[..n][..MAX] == T[..MAX];
  }
}
