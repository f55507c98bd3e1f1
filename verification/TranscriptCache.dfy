/**
 The transcript reader: the file only grows, by whole lines, and repeat calls
 parse only what has been added. A reader takes the size without the lock and reads
 under it, so the file may grow, and other readers may use the cache, in between.
 */
module TranscriptCache {
  import opened Wrappers

  datatype Entry = Entry(role: string, content: string)

  /** The text of one line, decoded; None for a blank or malformed line. */
  type Decoder = string -> Option<Entry>

  /** The entries of a text, one candidate per line; the last line need not be terminated. */
  function Parse(text: string, decode: Decoder, line: string): seq<Entry>
    decreases |text|
  {
    if text == "" then Decoded(line, decode)
    else if text[0] == '\n' then Decoded(line, decode) + Parse(text[1..], decode, "")
    else Parse(text[1..], decode, line + [text[0]])
  }

  function Decoded(line: string, decode: Decoder): seq<Entry> {
    match decode(line)
    case None => []
    case Some(e) => [e]
  }

  /** A blank line holds no entry. */
  ghost predicate SkipsBlank(decode: Decoder) {
    decode("") == None
  }

  function Entries(text: string, decode: Decoder): seq<Entry> {
    Parse(text, decode, "")
  }

  /** Nothing is written yet, or the last line is complete. */
  predicate WholeLines(text: string) {
    text == "" || text[|text| - 1] == '\n'
  }

  lemma {:induction false} ParseConcat(a: string, b: string, decode: Decoder, line: string)
    requires SkipsBlank(decode) && a != "" && WholeLines(a)
    ensures Parse(a + b, decode, line) == Parse(a, decode, line) + Entries(b, decode)
    decreases |a|
  {
    assert (a + b)[0] == a[0] && (a + b)[1..] == a[1..] + b;
    if |a| == 1 {
      assert a[1..] + b == b;
      assert Parse("", decode, "") == [];
    } else if a[0] == '\n' {
      ParseConcat(a[1..], b, decode, "");
    } else {
      ParseConcat(a[1..], b, decode, line + [a[0]]);
    }
  }

  /** At a line boundary, parsing in two pieces is parsing the whole. */
  lemma EntriesConcat(a: string, b: string, decode: Decoder)
    requires SkipsBlank(decode) && WholeLines(a)
    ensures Entries(a + b, decode) == Entries(a, decode) + Entries(b, decode)
  {
    if a == "" {
      assert a + b == b;
    } else {
      ParseConcat(a, b, decode, "");
    }
  }

  datatype Cache = Cache(size: nat, mtime: real, entries: seq<Entry>)

  /** The cache is what parsing some earlier state of the file gave. */
  ghost predicate Caches(cache: Option<Cache>, file: string, decode: Decoder) {
    cache.Some? ==>
      && cache.value.size <= |file| && WholeLines(file[..cache.value.size])
      && cache.value.entries == Entries(file[..cache.value.size], decode)
  }

  datatype Stat = Stat(size: nat, mtime: real)

  /** The locked part of a call: the cache it leaves and the entries it returns, given what it saw before. */
  function Served(cache: Option<Cache>, st: Stat, file: string, decode: Decoder): (Option<Cache>, seq<Entry>) {
    if cache.Some? && cache.value.size == st.size && cache.value.mtime == st.mtime then (cache, cache.value.entries)
    else
      var (known, offset) := if cache.Some? && st.size > cache.value.size
                             then (cache.value.entries, cache.value.size) else ([], 0);
      var raw := if offset <= |file| then file[offset..] else "";
      var entries := known + Entries(raw, decode);
      (Some(Cache(offset + |raw|, st.mtime, entries)), entries)
  }

  /** With a right cache, what is served is the parse of the file at the size or at the read; the cache stays right. */
  lemma ServedIsFullParse(cache: Option<Cache>, atStat: string, mtime: real, file: string, decode: Decoder)
    requires SkipsBlank(decode) && Caches(cache, file, decode)
    requires atStat <= file && WholeLines(file)
    ensures var (cache', r) := Served(cache, Stat(|atStat|, mtime), file, decode);
            Caches(cache', file, decode) && (r == Entries(atStat, decode) || r == Entries(file, decode))
  {
    var st := Stat(|atStat|, mtime);
    assert file[..|atStat|] == atStat && file[..|file|] == file && file[0..] == file;
    if cache.Some? && st.size > cache.value.size {
      var offset := cache.value.size;
      EntriesConcat(file[..offset], file[offset..], decode);
      assert file[..offset] + file[offset..] == file;
    }
  }

  class TranscriptReader {
    const decode: Decoder
    var cache: Option<Cache>

    constructor (decode: Decoder)
      ensures cache == None && this.decode == decode
    {
      this.decode, cache := decode, None;
    }

    /**
     One call. `atStat` is the file when its size and time were taken, or None if
     there was none; `atRead` is the file when the locked part reads it.
     */
    method LoadTranscript(atStat: Option<string>, mtime: real, atRead: string) returns (r: seq<Entry>)
      modifies this
      ensures atStat.None? ==> r == [] && cache == old(cache)
      ensures atStat.Some? ==> (cache, r) == Served(old(cache), Stat(|atStat.value|, mtime), atRead, decode)
      ensures SkipsBlank(decode) && old(Caches(cache, atRead, decode)) && WholeLines(atRead)
              && atStat.Some? && atStat.value <= atRead ==>
                && Caches(cache, atRead, decode)
                && (r == Entries(atStat.value, decode) || r == Entries(atRead, decode))
    {
      if atStat.None? {
        return [];
      }
      if SkipsBlank(decode) && Caches(cache, atRead, decode) && WholeLines(atRead) && atStat.value <= atRead {
        ServedIsFullParse(cache, atStat.value, mtime, atRead, decode);
      }
      var size := |atStat.value|;
      if cache.Some? && cache.value.size == size && cache.value.mtime == mtime {
        return cache.value.entries;
      }
      var entries, offset := [], 0;
      if cache.Some? && size > cache.value.size {
        entries, offset := cache.value.entries, cache.value.size;
      }
      var raw := if offset <= |atRead| then atRead[offset..] else "";
      entries := entries + Entries(raw, decode);
      cache := Some(Cache(offset + |raw|, mtime, entries));
      r := entries;
    }
  }

  /** Growth of the file does not invalidate the cache of a reader. */
  lemma AppendKeepsCache(cache: Option<Cache>, file: string, more: string, decode: Decoder)
    requires Caches(cache, file, decode)
    ensures Caches(cache, file + more, decode)
  {
    if cache.Some? { assert (file + more)[..cache.value.size] == file[..cache.value.size]; }
  }

  // ------------------------------------------------------------------------ runs

  type Reader = nat

  datatype Event =
    | Append(text: string, mtime: real)  // whole lines are written
    | TakeStat(reader: Reader)
    | Read(reader: Reader)

  /** The file, the shared cache, and what each reader that is under way has seen of the file. */
  datatype World = World(file: Option<string>, mtime: real, cache: Option<Cache>, seen: map<Reader, Stat>)

  function Text(w: World): string {
    if w.file.Some? then w.file.value else ""
  }

  predicate Enabled(w: World, ev: Event) {
    match ev
    case Append(text, _) => WholeLines(text)
    case TakeStat(reader) => reader !in w.seen
    case Read(reader) => reader in w.seen
  }

  /** A call that finds no file is over at once; any other reads later. */
  function Next(w: World, ev: Event, decode: Decoder): World
    requires Enabled(w, ev)
  {
    match ev
    case Append(text, mtime) => w.(file := Some(Text(w) + text), mtime := mtime)
    case TakeStat(reader) => if w.file.None? then w else w.(seen := w.seen[reader := Stat(|w.file.value|, w.mtime)])
    case Read(reader) =>
      w.(cache := Served(w.cache, w.seen[reader], Text(w), decode).0, seen := w.seen - {reader})
  }

  /** What a call returns when it ends with this event. */
  function Returned(w: World, ev: Event, decode: Decoder): Option<seq<Entry>>
    requires Enabled(w, ev)
  {
    match ev
    case Append(_, _) => None
    case TakeStat(_) => if w.file.None? then Some([]) else None
    case Read(reader) => Some(Served(w.cache, w.seen[reader], Text(w), decode).1)
  }

  ghost predicate StepAt(ws: seq<World>, evs: seq<Event>, decode: Decoder, k: nat) {
    k < |evs| && k + 1 < |ws| && Enabled(ws[k], evs[k]) && ws[k + 1] == Next(ws[k], evs[k], decode)
  }

  ghost predicate Run(ws: seq<World>, evs: seq<Event>, decode: Decoder) {
    && |ws| == |evs| + 1 && WholeLines(Text(ws[0])) && ws[0].cache == None && ws[0].seen == map[]
    && forall k: nat :: k < |evs| ==> StepAt(ws, evs, decode, k)
  }

  lemma {:induction false} FileGrows(ws: seq<World>, evs: seq<Event>, decode: Decoder, i: nat, k: nat)
    requires Run(ws, evs, decode) && i <= k < |ws|
    ensures Text(ws[i]) <= Text(ws[k])
    decreases k
  {
    if i == k {
    } else {
      FileGrows(ws, evs, decode, i, k - 1);
      assert StepAt(ws, evs, decode, k - 1);
    }
  }

  /** The reader saw the file as it stood before event i, and has done nothing since. */
  ghost predicate SeenAt(ws: seq<World>, evs: seq<Event>, i: nat, k: nat, reader: Reader) {
    && i < k < |ws| && k <= |evs| && evs[i] == TakeStat(reader) && reader in ws[k].seen
    && ws[k].seen[reader] == Stat(|Text(ws[i])|, ws[i].mtime)
    && forall m :: i < m < k ==> evs[m] != TakeStat(reader) && evs[m] != Read(reader)
  }

  lemma {:induction false} FindStat(ws: seq<World>, evs: seq<Event>, decode: Decoder, k: nat, reader: Reader)
      returns (i: nat)
    requires Run(ws, evs, decode) && k < |ws| && reader in ws[k].seen
    ensures SeenAt(ws, evs, i, k, reader)
    decreases k
  {
    assert StepAt(ws, evs, decode, k - 1);
    if evs[k - 1] == TakeStat(reader) {
      i := k - 1;
    } else {
      i := FindStat(ws, evs, decode, k - 1, reader);
    }
  }

  ghost predicate Sound(w: World, decode: Decoder) {
    WholeLines(Text(w)) && Caches(w.cache, Text(w), decode)
  }

  lemma {:induction false} RunSound(ws: seq<World>, evs: seq<Event>, decode: Decoder, k: nat)
    requires SkipsBlank(decode) && Run(ws, evs, decode) && k < |ws|
    ensures Sound(ws[k], decode)
    decreases k
  {
    if k == 0 {
    } else {
      RunSound(ws, evs, decode, k - 1);
      assert StepAt(ws, evs, decode, k - 1);
      match evs[k - 1]
      case Append(text, _) => AppendKeepsCache(ws[k - 1].cache, Text(ws[k - 1]), text, decode);
      case TakeStat(_) =>
      case Read(reader) =>
        var i := FindStat(ws, evs, decode, k - 1, reader);
        FileGrows(ws, evs, decode, i, k - 1);
        ServedIsFullParse(ws[k - 1].cache, Text(ws[i]), ws[i].mtime, Text(ws[k - 1]), decode);
    }
  }

  /**
   In every interleaving of appends and readers, a call returns the parse of the whole
   file as it stood when the call took the size, at event i, or when it read.
   */
  lemma CallIsFullParse(ws: seq<World>, evs: seq<Event>, decode: Decoder, k: nat)
      returns (i: nat)
    requires SkipsBlank(decode)
    requires Run(ws, evs, decode) && k < |evs| && !evs[k].Append?
    requires StepAt(ws, evs, decode, k) && Returned(ws[k], evs[k], decode).Some?
    ensures i <= k && evs[i] == TakeStat(evs[k].reader) && Text(ws[i]) <= Text(ws[k])
    ensures forall m :: i < m < k ==> evs[m] != TakeStat(evs[k].reader) && evs[m] != Read(evs[k].reader)
    ensures var r := Returned(ws[k], evs[k], decode).value;
            r == Entries(Text(ws[i]), decode) || r == Entries(Text(ws[k]), decode)
  {
    if evs[k].TakeStat? {
      i := k;
    } else {
      i := FindStat(ws, evs, decode, k, evs[k].reader);
      FileGrows(ws, evs, decode, i, k);
      RunSound(ws, evs, decode, k);
      ServedIsFullParse(ws[k].cache, Text(ws[i]), ws[i].mtime, Text(ws[k]), decode);
    }
  }

  lemma {:induction false} ParseLine(s: string, rest: string, decode: Decoder, line: string)
    requires '\n' !in s
    ensures Parse(s + rest, decode, line) == Parse(rest, decode, line + s)
  {
    if s == "" {
      assert s + rest == rest && line + s == line;
    } else {
      assert (s + rest)[0] == s[0] && (s + rest)[1..] == s[1..] + rest;
      ParseLine(s[1..], rest, decode, line + [s[0]]);
      assert line + [s[0]] + s[1..] == line + s;
    }
  }

  lemma LineEntries(s: string, decode: Decoder)
    requires '\n' !in s
    ensures Entries(s, decode) == Decoded(s, decode)
    ensures SkipsBlank(decode) ==> Entries(s + "\n", decode) == Decoded(s, decode)
  {
    assert s + "" == s && "" + s == s;
    ParseLine(s, "", decode, "");
    ParseLine(s, "\n", decode, "");
  }

  lemma Cancel(a: seq<Entry>, x: seq<Entry>, y: seq<Entry>, b: seq<Entry>)
    ensures a + x + b == a + y + b <==> x == y
  {
    if a + x + b == a + y + b {
      assert |x| == |y|;
      assert x == (a + x + b)[|a|..|a| + |x|] && y == (a + y + b)[|a|..|a| + |y|];
    }
  }

  /** White space as a line may be padded with it. */
  predicate IsBlankChar(c: char) {
    c == ' ' || c == '\t' || c == '\r'
  }

  predicate Blank(s: string) {
    forall c :: c in s ==> IsBlankChar(c)
  }

  /** Blanks around a text do not matter, and no part of a record is a record. */
  predicate CutAt(decode: Decoder, s: string, t: string) {
    && (Blank(s) ==> decode(s) == None && decode(s + t) == decode(t))
    && (Blank(t) ==> decode(t) == None && decode(s + t) == decode(s))
    && (!Blank(s) && !Blank(t) && decode(s + t).Some? ==> decode(s) == None && decode(t) == None)
  }

  /** A decoder of records that are told by both their ends, as JSON objects are. */
  ghost predicate DecodesRecords(decode: Decoder) {
    forall s, t :: CutAt(decode, s, t)
  }

  /** Where reading on from inside a line does no harm. */
  predicate HarmlessCut(head: string, rest: string, decode: Decoder) {
    if decode(head + rest).Some? then Blank(head) || Blank(rest)  // the cut is at an end of a record
    else decode(head) == None && decode(rest) == None             // no part of a malformed line is a record
  }

  lemma CutLine(head: string, rest: string, decode: Decoder)
    requires CutAt(decode, head, rest)
    ensures Decoded(head, decode) + Decoded(rest, decode) == Decoded(head + rest, decode)
            <==> HarmlessCut(head, rest, decode)
    ensures decode(head + rest).Some? && !Blank(head) && !Blank(rest) ==>
              && Decoded(head, decode) + Decoded(rest, decode) == []
              && Decoded(head + rest, decode) == [decode(head + rest).value]
  {
  }

  lemma TornParse(a: string, head: string, rest: string, b: string, decode: Decoder)
    requires SkipsBlank(decode) && WholeLines(a) && '\n' !in head && '\n' !in rest
    ensures Entries(a + head, decode) + Entries(rest + "\n" + b, decode)
            == Entries(a, decode) + (Decoded(head, decode) + Decoded(rest, decode)) + Entries(b, decode)
    ensures Entries(a + (head + rest + "\n" + b), decode)
            == Entries(a, decode) + Decoded(head + rest, decode) + Entries(b, decode)
  {
    LineEntries(head, decode);
    LineEntries(rest, decode);
    LineEntries(head + rest, decode);
    EntriesConcat(a, head, decode);
    EntriesConcat(rest + "\n", b, decode);
    EntriesConcat(head + rest + "\n", b, decode);
    EntriesConcat(a, head + rest + "\n" + b, decode);
    var ea, eb := Entries(a, decode), Entries(b, decode);
    var h, r, both := Decoded(head, decode), Decoded(rest, decode), Decoded(head + rest, decode);
    assert (ea + h) + (r + eb) == ea + (h + r) + eb;
    assert ea + (both + eb) == ea + both + eb;
  }

  /**
   A read that ends inside a line, after `head`, agrees with the full parse exactly if
   the cut is harmless; if the line is a record and the cut is inside it, the two reads
   together have every entry but that one.
   */
  lemma TornLineExactly(a: string, head: string, rest: string, b: string, decode: Decoder)
    requires DecodesRecords(decode) && WholeLines(a) && '\n' !in head && '\n' !in rest
    ensures Entries(a + head, decode) + Entries(rest + "\n" + b, decode)
            == Entries(a + (head + rest + "\n" + b), decode)
            <==> HarmlessCut(head, rest, decode)
    ensures decode(head + rest).Some? && !Blank(head) && !Blank(rest) ==>
              && Entries(a + head, decode) + Entries(rest + "\n" + b, decode) == Entries(a, decode) + Entries(b, decode)
              && Entries(a + (head + rest + "\n" + b), decode)
                 == Entries(a, decode) + [decode(head + rest).value] + Entries(b, decode)
  {
    assert CutAt(decode, "", "") && CutAt(decode, head, rest);
    CutLine(head, rest, decode);
    TornParse(a, head, rest, b, decode);
    var apart, both := Decoded(head, decode) + Decoded(rest, decode), Decoded(head + rest, decode);
    Cancel(Entries(a, decode), apart, both, Entries(b, decode));
    assert Entries(a, decode) + [] == Entries(a, decode);
  }

  // ------------------------------------------------------------- a torn record

  /** A line without its white space. */
  function Solid(s: string): string {
    if s == "" then "" else (if IsBlankChar(s[0]) then "" else [s[0]]) + Solid(s[1..])
  }

  lemma {:induction false} SolidConcat(s: string, t: string)
    ensures Solid(s + t) == Solid(s) + Solid(t)
  {
    if s == "" {
      assert s + t == t;
    } else {
      assert (s + t)[0] == s[0] && (s + t)[1..] == s[1..] + t;
      SolidConcat(s[1..], t);
    }
  }

  lemma {:induction false} SolidBlank(s: string)
    ensures Solid(s) == "" <==> Blank(s)
  {
    if s == "" {
    } else {
      SolidBlank(s[1..]);
      assert s == [s[0]] + s[1..];
    }
  }

  /** The decoder that knows one record, the empty object. */
  function EmptyObject(line: string): Option<Entry> {
    if Solid(line) == "{}" then Some(Entry("", "")) else None
  }

  lemma EmptyObjectDecodes()
    ensures DecodesRecords(EmptyObject)
  {
    forall s, t ensures CutAt(EmptyObject, s, t) { EmptyObjectCut(s, t); }
  }

  lemma EmptyObjectCut(s: string, t: string)
    ensures CutAt(EmptyObject, s, t)
  {
    SolidConcat(s, t);
    SolidBlank(s);
    SolidBlank(t);
  }

  /** Read in two parts, the record "{}" is lost. */
  lemma TornRecordIsLost()
    ensures Entries("{", EmptyObject) + Entries("}\n", EmptyObject) == []
    ensures Entries("{}\n", EmptyObject) == [Entry("", "")]
  {
    var head, rest := "{", "}";
    EmptyObjectDecodes();
    EmptyObjectCut(head, rest);
    assert CutAt(EmptyObject, "", "");
    assert head[0] == '{' && rest[0] == '}' && head + rest == "{}";
    CutLine(head, rest, EmptyObject);
    LineEntries(head, EmptyObject);
    LineEntries(rest, EmptyObject);
    LineEntries(head + rest, EmptyObject);
    SolidConcat(head, rest);
  }
}
