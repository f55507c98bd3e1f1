/**
 The placeholder formatter: doubled braces are literal braces, `{key}` is replaced
 when the key is known, and everything else is copied.
 */
module Template {
  import opened Wrappers

  datatype Env = Env(chatId: string, sessionsRoot: string, chatDir: string, harnessUrl: string)

  function Lookup(env: Env, key: string): Option<string> {
    if key == "chat_id" then Some(env.chatId)
    else if key == "sessions_root" then Some(env.sessionsRoot)
    else if key == "chat_dir" then Some(env.chatDir)
    else if key == "harness_url" then Some(env.harnessUrl)
    else None
  }

  /** The value of a placeholder, if it is known. */
  type Known = string -> Option<string>

  function Values(env: Env): Known {
    key => Lookup(env, key)
  }

  /** The position of the first closing brace, if there is one. */
  function Closing(text: string): (r: Option<nat>)
    ensures r.Some? ==> r.value < |text|
  {
    if text == "" then None
    else if text[0] == '}' then Some(0)
    else
      match Closing(text[1..])
      case None => None
      case Some(k) => Some(k + 1)
  }

  lemma {:induction false} ClosingIsFirst(text: string)
    ensures match Closing(text)
            case None => '}' !in text
            case Some(k) => text[k] == '}' && '}' !in text[..k]
  {
    if text == "" {
    } else {
      ClosingIsFirst(text[1..]);
      assert text == [text[0]] + text[1..];
      assert forall k :: 0 <= k < |text| ==> text[..k + 1] == [text[0]] + text[1..][..k];
    }
  }

  /** What one turn of the scan puts out, and how much of the text it takes. */
  function Scan(known: Known, text: string): (r: (string, nat))
    requires text != ""
    ensures 0 < r.1 <= |text|
  {
    if text[0] == '{' && |text| > 1 && text[1] == '{' then ("{", 2)
    else if text[0] == '}' && |text| > 1 && text[1] == '}' then ("}", 2)
    else if text[0] == '{' then
      match Closing(text[1..])
      case None => ("{", 1)
      case Some(k) =>
        var key := text[1..k + 1];
        var value := known(key);
        (if value.Some? then value.value else text[..k + 2], k + 2)
    else (text[..1], 1)
  }

  function Formatted(known: Known, text: string): string
    decreases |text|
  {
    if text == "" then "" else var (out, taken) := Scan(known, text); out + Formatted(known, text[taken..])
  }

  /** The scan stands at i: what it has put out and what is still to be formatted make up the result. */
  ghost predicate Scanned(known: Known, text: string, i: nat, out: string) {
    i <= |text| && out + Formatted(known, text[i..]) == Formatted(known, text)
  }

  class PlaceholderFormatter {
    const known: Known

    constructor (env: Env)
      ensures known == Values(env)
    {
      known := Values(env);
    }

    method Find(text: string, from: nat) returns (end: int)
      requires from <= |text|
      ensures end == match Closing(text[from..]) case None => -1 case Some(k) => from + k
    {
      end := from;
      while end < |text| && text[end] != '}'
        invariant from <= end <= |text| && Closing(text[from..]) == ShiftBy(Closing(text[end..]), end - from)
      {
        assert text[end..][1..] == text[end + 1..];
        end := end + 1;
      }
      if end == |text| {
        end := -1;
      }
    }

    method Format(text: string) returns (out: string)
      ensures out == Formatted(known, text)
    {
      out := "";
      var i, n := 0, |text|;
      ScanStarts(known, text);
      while i < n
        invariant i <= n && Scanned(known, text, i, out)
        decreases n - i
      {
        out, i := Turn(text, i, out);
      }
      ScanEnds(known, text, out);
    }

    /** One turn of the scan. */
    method Turn(text: string, i: nat, out: string) returns (out': string, i': nat)
      requires i < |text| && Scanned(known, text, i, out)
      ensures i < i' <= |text| && Scanned(known, text, i', out')
    {
      var piece, taken := Next(text, i);
      out', i' := out + piece, i + taken;
      ScanGoesOn(known, text, i, out, piece, taken, i', out');
    }

    /** The body of the scan: what it appends to the output and how far it moves on. */
    method Next(text: string, i: nat) returns (piece: string, taken: nat)
      requires i < |text|
      ensures (piece, taken) == Scan(known, text[i..])
    {
      ghost var rest := text[i..];
      assert rest[0] == text[i] && |rest| == |text| - i && (|rest| > 1 ==> rest[1] == text[i + 1]);
      if text[i] == '{' && i + 1 < |text| && text[i + 1] == '{' {
        return "{", 2;
      }
      if text[i] == '}' && i + 1 < |text| && text[i + 1] == '}' {
        return "}", 2;
      }
      if text[i] == '{' {
        var end := Find(text, i + 1);
        assert rest[1..] == text[i + 1..];
        if end == -1 {
          return [text[i]], 1;
        }
        var key := text[i + 1..end];
        assert key == rest[1..end - i] && text[i..end + 1] == rest[..end - i + 1];
        var value := known(key);
        return if value.Some? then value.value else text[i..end + 1], end + 1 - i;
      }
      assert rest[..1] == [text[i]];
      return [text[i]], 1;
    }
  }

  lemma Assoc(a: string, b: string, c: string)
    ensures a + (b + c) == a + b + c
  {
  }

  lemma Rest(text: string, i: nat, n: nat)
    requires i <= |text| && n <= |text[i..]|
    ensures text[i..][n..] == text[i + n..]
  {
  }

  lemma Unfold(known: Known, text: string, piece: string, taken: nat, more: string)
    requires text != "" && Scan(known, text) == (piece, taken) && text[taken..] == more
    ensures Formatted(known, text) == piece + Formatted(known, more)
  {
  }

  lemma FormattedFrom(known: Known, text: string, i: nat, piece: string, taken: nat)
    requires i < |text| && (piece, taken) == Scan(known, text[i..])
    ensures 0 < taken <= |text| - i
    ensures Formatted(known, text[i..]) == piece + Formatted(known, text[i + taken..])
  {
    Rest(text, i, taken);
    Unfold(known, text[i..], piece, taken, text[i + taken..]);
  }

  /** One turn of the scan moves what is still to be formatted into the output. */
  lemma ScanGoesOn(known: Known, text: string, i: nat, out: string, piece: string, taken: nat, i': nat, out': string)
    requires i < |text| && Scanned(known, text, i, out) && (piece, taken) == Scan(known, text[i..])
    requires i' == i + taken && out' == out + piece
    ensures i < i' <= |text| && Scanned(known, text, i', out')
  {
    FormattedFrom(known, text, i, piece, taken);
    Assoc(out, piece, Formatted(known, text[i'..]));
  }

  lemma ScanStarts(known: Known, text: string)
    ensures Scanned(known, text, 0, "")
  {
    assert text[0..] == text;
  }

  lemma ScanEnds(known: Known, text: string, out: string)
    requires Scanned(known, text, |text|, out)
    ensures out == Formatted(known, text)
  {
    assert text[|text|..] == "";
  }

  function ShiftBy(r: Option<nat>, n: nat): Option<nat> {
    match r
    case None => None
    case Some(k) => Some(k + n)
  }

  // ---------------------------------------------------------------- round trip

  datatype Piece = Literal(text: string) | Placeholder(key: string)

  /** A placeholder that can be written at all: no closing brace in it, no opening one at its start. */
  predicate Writable(p: Piece) {
    p.Placeholder? ==> '}' !in p.key && (p.key == "" || p.key[0] != '{')
  }

  /** Literal text with every brace doubled. */
  function Escaped(text: string): string {
    if text == "" then ""
    else Quoted(text[0]) + Escaped(text[1..])
  }

  function Printed(ps: seq<Piece>): string {
    if ps == [] then ""
    else (match ps[0] case Literal(text) => Escaped(text) case Placeholder(key) => "{" + key + "}") + Printed(ps[1..])
  }

  /** What the pieces stand for: values as they are, unknown placeholders verbatim. */
  function Meaning(known: Known, ps: seq<Piece>): string {
    if ps == [] then ""
    else
      (match ps[0]
       case Literal(text) => text
       case Placeholder(key) => var v := known(key); if v.Some? then v.value else "{" + key + "}")
      + Meaning(known, ps[1..])
  }

  /** One literal character as it is written. */
  function Quoted(c: char): string {
    if c == '{' || c == '}' then [c, c] else [c]
  }

  lemma ScansQuoted(known: Known, c: char, rest: string)
    ensures Formatted(known, Quoted(c) + rest) == [c] + Formatted(known, rest)
  {
    var whole := Quoted(c) + rest;
    assert whole[0] == c && whole[|Quoted(c)|..] == rest;
    assert c == '{' || c == '}' ==> whole[1] == c;
    Unfold(known, whole, [c], |Quoted(c)|, rest);
  }

  lemma {:induction false} FormatsLiteral(known: Known, text: string, rest: string)
    ensures Formatted(known, Escaped(text) + rest) == text + Formatted(known, rest)
  {
    if text == "" {
      assert Escaped(text) + rest == rest;
    } else {
      var c, t := text[0], text[1..];
      Assoc(Quoted(c), Escaped(t), rest);
      ScansQuoted(known, c, Escaped(t) + rest);
      FormatsLiteral(known, t, rest);
      Assoc([c], t, Formatted(known, rest));
      assert text == [c] + t;
    }
  }

  lemma {:induction false} ClosingOf(key: string, rest: string)
    requires '}' !in key
    ensures Closing(key + "}" + rest) == Some(|key|)
  {
    if key == "" {
    } else {
      ClosingOf(key[1..], rest);
      assert (key + "}" + rest)[1..] == key[1..] + "}" + rest;
    }
  }

  lemma FormatsPlaceholder(known: Known, key: string, rest: string)
    requires Writable(Placeholder(key))
    ensures Formatted(known, "{" + key + "}" + rest)
            == (var v := known(key); if v.Some? then v.value else "{" + key + "}") + Formatted(known, rest)
  {
    var whole := "{" + key + "}" + rest;
    assert whole[1..] == key + "}" + rest;
    ClosingOf(key, rest);
    assert whole[1..|key| + 1] == key;
    assert whole[..|key| + 2] == "{" + key + "}";
    assert whole[|key| + 2..] == rest;
    var piece := match known(key) case Some(value) => value case None => "{" + key + "}";
    assert Scan(known, whole) == (piece, |key| + 2);
    Unfold(known, whole, piece, |key| + 2, rest);
  }

  /** Formatting what was printed gives the meaning: values are not scanned again, unknown keys survive. */
  lemma {:induction false} RoundTrip(known: Known, ps: seq<Piece>)
    requires forall p :: p in ps ==> Writable(p)
    ensures Formatted(known, Printed(ps)) == Meaning(known, ps)
  {
    if ps == [] {
    } else {
      RoundTrip(known, ps[1..]);
      match ps[0]
      case Literal(text) => FormatsLiteral(known, text, Printed(ps[1..]));
      case Placeholder(key) => FormatsPlaceholder(known, key, Printed(ps[1..]));
    }
  }

  /** Any text at all can be written so that formatting gives it back. */
  lemma {:induction false} EscapeIsInverse(known: Known, text: string)
    ensures Formatted(known, Escaped(text)) == text
  {
    FormatsLiteral(known, text, "");
    assert Escaped(text) + "" == Escaped(text);
  }

  /** The four keys that are known, and no other. */
  lemma KnownKeys(env: Env, key: string)
    ensures Values(env)("chat_id") == Some(env.chatId) && Values(env)("sessions_root") == Some(env.sessionsRoot)
    ensures Values(env)("chat_dir") == Some(env.chatDir) && Values(env)("harness_url") == Some(env.harnessUrl)
    ensures key !in {"chat_id", "sessions_root", "chat_dir", "harness_url"} ==> Values(env)(key) == None
  {
    assert "chat_dir"[5] != "chat_id"[5] && |"sessions_root"| == 13 && |"harness_url"| == 11;
  }

  /** Single braces that open or close nothing, and all other characters, are copied. */
  lemma LoneCharacters(known: Known, c: char, rest: string)
    requires c == '}' ==> rest == "" || rest[0] != '}'
    requires c == '{' ==> '}' !in rest && (rest == "" || rest[0] != '{')
    ensures Formatted(known, [c] + rest) == [c] + Formatted(known, rest)
  {
    var whole := [c] + rest;
    assert whole[0] == c && whole[1..] == rest;
    ClosingIsFirst(rest);
    assert Scan(known, whole) == ([c], 1);
    Unfold(known, whole, [c], 1, rest);
  }
}
