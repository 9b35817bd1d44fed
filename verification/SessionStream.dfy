/** The incremental event-stream reader of frontend/session-stream.js: text arrives in chunks,
    line endings are normalized, blocks are cut at blank lines, and each block becomes at most
    one dispatched event. */
module SessionStream {
  import opened Text

  // ---------------------------------------------------------------- line endings

  /** `replaceAll("\r\n", "\n")` */
  function ReplaceCrLf(s: string): string {
    if |s| == 0 then ""
    else if |s| >= 2 && s[0] == '\r' && s[1] == '\n' then "\n" + ReplaceCrLf(s[2..])
    else [s[0]] + ReplaceCrLf(s[1..])
  }

  /** `replaceAll("\r", "\n")` */
  function ReplaceCr(s: string): string {
    if |s| == 0 then ""
    else [if s[0] == '\r' then '\n' else s[0]] + ReplaceCr(s[1..])
  }

  function Normalize(s: string): string { ReplaceCr(ReplaceCrLf(s)) }

  predicate LineBreakFree(s: string) { Free(s, '\n') && Free(s, '\r') }

  /** The boundary between `a` and `b` falls inside a CR LF pair. */
  predicate SplitsPair(a: string, b: string) {
    |a| > 0 && |b| > 0 && a[|a| - 1] == '\r' && b[0] == '\n'
  }

  lemma {:induction false} ReplaceCrFree(s: string)
    ensures Free(ReplaceCr(s), '\r')
    ensures Free(s, '\r') ==> ReplaceCr(s) == s
  {
    if |s| > 0 { ReplaceCrFree(s[1..]); }
  }

  lemma {:induction false} ReplaceCrLfFree(s: string)
    requires Free(s, '\r')
    ensures ReplaceCrLf(s) == s
  {
    if |s| > 0 { ReplaceCrLfFree(s[1..]); }
  }

  lemma {:induction false} ReplaceCrAppend(a: string, b: string)
    ensures ReplaceCr(a + b) == ReplaceCr(a) + ReplaceCr(b)
  {
    if |a| == 0 {
      assert a + b == b;
    } else {
      assert (a + b)[1..] == a[1..] + b;
      ReplaceCrAppend(a[1..], b);
    }
  }

  lemma Assoc<T>(a: seq<T>, b: seq<T>, c: seq<T>)
    ensures a + (b + c) == (a + b) + c
  {
  }

  lemma {:induction false} ReplaceCrLfAppend(a: string, b: string)
    requires !SplitsPair(a, b)
    ensures ReplaceCrLf(a + b) == ReplaceCrLf(a) + ReplaceCrLf(b)
  {
    if |a| == 0 {
      assert a + b == b;
    } else if |a| >= 2 && a[0] == '\r' && a[1] == '\n' {
      var ab := a + b;
      assert ab[0] == '\r' && ab[1] == '\n' && ab[2..] == a[2..] + b;
      ReplaceCrLfAppend(a[2..], b);
      assert ReplaceCrLf(ab) == "\n" + ReplaceCrLf(ab[2..]);
      Assoc("\n", ReplaceCrLf(a[2..]), ReplaceCrLf(b));
    } else {
      var ab := a + b;
      assert ab[0] == a[0] && ab[1..] == a[1..] + b;
      ReplaceCrLfAppend(a[1..], b);
      assert ReplaceCrLf(ab) == [a[0]] + ReplaceCrLf(ab[1..]);
      Assoc([a[0]], ReplaceCrLf(a[1..]), ReplaceCrLf(b));
    }
  }

  /** Normalizing is compatible with any cut that does not fall inside a CR LF pair. */
  lemma NormalizeAppend(a: string, b: string)
    requires !SplitsPair(a, b)
    ensures Normalize(a + b) == Normalize(a) + Normalize(b)
  {
    ReplaceCrLfAppend(a, b);
    ReplaceCrAppend(ReplaceCrLf(a), ReplaceCrLf(b));
  }

  lemma NormalizeClean(s: string)
    ensures Free(Normalize(s), '\r')
    ensures Free(s, '\r') ==> Normalize(s) == s
  {
    ReplaceCrFree(ReplaceCrLf(s));
    if Free(s, '\r') { ReplaceCrLfFree(s); }
  }

  // ---------------------------------------------------------------- blocks

  predicate SeparatorAt(s: string, i: int) {
    0 <= i && i + 1 < |s| && s[i] == '\n' && s[i + 1] == '\n'
  }

  ghost predicate NoSeparator(s: string) {
    forall i :: !SeparatorAt(s, i)
  }

  /** `s.indexOf("\n\n", from)`, with `|s|` standing for "not found". */
  function NextSeparator(s: string, from: nat): (i: nat)
    requires from <= |s|
    ensures from <= i <= |s|
    ensures i < |s| ==> SeparatorAt(s, i)
    ensures forall j :: from <= j < i ==> !SeparatorAt(s, j)
    ensures i == |s| ==> forall j :: from <= j ==> !SeparatorAt(s, j)
    decreases |s| - from
  {
    if from == |s| then from
    else if SeparatorAt(s, from) then from
    else NextSeparator(s, from + 1)
  }

  /** The complete blocks of a normalized text, in order. */
  function Blocks(s: string): seq<string>
    decreases |s|
  {
    var i := NextSeparator(s, 0);
    if i == |s| then [] else [s[..i]] + Blocks(s[i + 2..])
  }

  /** What remains after the last complete block. */
  function Rest(s: string): string
    decreases |s|
  {
    var i := NextSeparator(s, 0);
    if i == |s| then s else Rest(s[i + 2..])
  }

  lemma FirstSeparatorIs(s: string, i: nat)
    requires SeparatorAt(s, i)
    requires forall j :: 0 <= j < i ==> !SeparatorAt(s, j)
    ensures NextSeparator(s, 0) == i
    ensures Blocks(s) == [s[..i]] + Blocks(s[i + 2..])
    ensures Rest(s) == Rest(s[i + 2..])
  {
    var k := NextSeparator(s, 0);
    assert k == i;
  }

  /** Cutting a normalized text anywhere and carrying the remainder over loses no block
      and invents none. */
  lemma {:induction false} BlocksAppend(a: string, b: string)
    ensures Blocks(a + b) == Blocks(a) + Blocks(Rest(a) + b)
    ensures Rest(a + b) == Rest(Rest(a) + b)
    decreases |a|
  {
    var i := NextSeparator(a, 0);
    if i < |a| {
      assert SeparatorAt(a + b, i);
      assert forall j :: 0 <= j < i && SeparatorAt(a + b, j) ==> SeparatorAt(a, j);
      FirstSeparatorIs(a + b, i);
      FirstSeparatorIs(a, i);
      assert (a + b)[i + 2..] == a[i + 2..] + b;
      assert (a + b)[..i] == a[..i];
      BlocksAppend(a[i + 2..], b);
      Assoc([a[..i]], Blocks(a[i + 2..]), Blocks(Rest(a) + b));
    } else {
      assert [] + Blocks(a + b) == Blocks(a + b);
    }
  }

  // ---------------------------------------------------------------- one block

  /** JavaScript white space and line terminators, as `trim` removes them. */
  predicate IsSpace(c: char) {
    var n := c as int;
    (9 <= n <= 13) || n == 32 || n == 160 || n == 0x1680 || (0x2000 <= n <= 0x200A)
    || n == 0x2028 || n == 0x2029 || n == 0x202F || n == 0x205F || n == 0x3000 || n == 0xFEFF
  }

  function TrimStart(s: string): string {
    if |s| > 0 && IsSpace(s[0]) then TrimStart(s[1..]) else s
  }

  function TrimEnd(s: string): string {
    if |s| > 0 && IsSpace(s[|s| - 1]) then TrimEnd(s[..|s| - 1]) else s
  }

  function Trim(s: string): string { TrimEnd(TrimStart(s)) }

  predicate StartsWith(s: string, prefix: string) { prefix <= s }

  /** What reaches a callback: `onSession(data)` or `onEvent({ type, data })`. */
  datatype Dispatch = Session(data: string) | Event(kind: string, data: string)

  datatype Fields = Fields(kind: string, data: seq<string>)

  const EVENT_FIELD := "event:"
  const DATA_FIELD := "data:"

  /** The effect of one line of a block on the fields collected so far. */
  function TakeLine(f: Fields, line: string): Fields {
    if |line| == 0 || StartsWith(line, ":") then f
    else if StartsWith(line, EVENT_FIELD) then
      var kind := Trim(line[|EVENT_FIELD|..]);
      f.(kind := if |kind| == 0 then "message" else kind)
    else if StartsWith(line, DATA_FIELD) then
      f.(data := f.data + [TrimStart(line[|DATA_FIELD|..])])
    else f
  }

  function TakeLines(f: Fields, lines: seq<string>): Fields
    decreases |lines|
  {
    if |lines| == 0 then f else TakeLines(TakeLine(f, lines[0]), lines[1..])
  }

  function Emit(f: Fields): seq<Dispatch> {
    if |f.data| == 0 then []
    else
      var data := Join(f.data, '\n');
      if f.kind == "session" then [Session(data)] else [Event(f.kind, data)]
  }

  /** Zero or one event, as the source's early returns decide. */
  function BlockEvents(raw: string): seq<Dispatch> {
    if |Trim(raw)| == 0 then []
    else Emit(TakeLines(Fields("message", []), Split(raw, '\n')))
  }

  function EventsOf(blocks: seq<string>): seq<Dispatch> {
    if |blocks| == 0 then [] else BlockEvents(blocks[0]) + EventsOf(blocks[1..])
  }

  lemma {:induction false} EventsOfAppend(a: seq<string>, b: seq<string>)
    ensures EventsOf(a + b) == EventsOf(a) + EventsOf(b)
  {
    if |a| == 0 {
      assert a + b == b;
    } else {
      assert (a + b)[1..] == a[1..] + b;
      EventsOfAppend(a[1..], b);
    }
  }

  lemma {:induction false} TakeLinesAppend(f: Fields, a: seq<string>, line: string)
    ensures TakeLines(f, a + [line]) == TakeLine(TakeLines(f, a), line)
    decreases |a|
  {
    if |a| == 0 {
      assert a + [line] == [line];
    } else {
      assert (a + [line])[1..] == a[1..] + [line];
      TakeLinesAppend(TakeLine(f, a[0]), a[1..], line);
    }
  }

  /** `dispatchEvent`: the loop over the lines of one block. */
  method DispatchEvent(raw: string) returns (events: seq<Dispatch>)
    ensures events == BlockEvents(raw)
  {
    if |Trim(raw)| == 0 {
      return [];
    }
    var eventType := "message";
    var dataLines: seq<string> := [];
    var lines := Split(raw, '\n');
    var start := Fields("message", []);
    var i := 0;
    while i < |lines|
      invariant 0 <= i <= |lines|
      invariant Fields(eventType, dataLines) == TakeLines(start, lines[..i])
    {
      var line := lines[i];
      assert lines[..i + 1] == lines[..i] + [line];
      TakeLinesAppend(start, lines[..i], line);
      i := i + 1;
      if |line| == 0 || StartsWith(line, ":") {
        continue;
      }
      if StartsWith(line, EVENT_FIELD) {
        eventType := Trim(line[|EVENT_FIELD|..]);
        if |eventType| == 0 { eventType := "message"; }
        continue;
      }
      if StartsWith(line, DATA_FIELD) {
        dataLines := dataLines + [TrimStart(line[|DATA_FIELD|..])];
      }
    }
    assert lines[..i] == lines;
    if |dataLines| == 0 {
      return [];
    }
    var data := Join(dataLines, '\n');
    if eventType == "session" {
      return [Session(data)];
    }
    return [Event(eventType, data)];
  }

  /** `dispatchBufferedEvents`: the cursor loop over one buffer. */
  method DispatchBufferedEvents(buffer: string) returns (rest: string, events: seq<Dispatch>)
    ensures rest == Rest(Normalize(buffer))
    ensures events == EventsOf(Blocks(Normalize(buffer)))
  {
    var normalized := Normalize(buffer);
    var cursor := 0;
    events := [];
    while true
      invariant 0 <= cursor <= |normalized|
      invariant events + EventsOf(Blocks(normalized[cursor..])) == EventsOf(Blocks(normalized))
      invariant Rest(normalized[cursor..]) == Rest(normalized)
      decreases |normalized| - cursor
    {
      var separatorIndex := NextSeparator(normalized, cursor);
      if separatorIndex == |normalized| {
        NoFurtherBlock(normalized, cursor);
        return normalized[cursor..], events;
      }
      NextBlock(normalized, cursor, separatorIndex);
      var rawEvent := normalized[cursor..separatorIndex];
      cursor := separatorIndex + 2;
      var dispatched := DispatchEvent(rawEvent);
      Assoc(events, dispatched, EventsOf(Blocks(normalized[cursor..])));
      events := events + dispatched;
    }
  }

  lemma NextBlock(s: string, cursor: nat, i: nat)
    requires cursor <= |s| && i == NextSeparator(s, cursor) < |s|
    ensures EventsOf(Blocks(s[cursor..])) == BlockEvents(s[cursor..i]) + EventsOf(Blocks(s[i + 2..]))
    ensures Rest(s[cursor..]) == Rest(s[i + 2..])
  {
    var tail, block, after := s[cursor..], s[cursor..i], s[i + 2..];
    assert block == tail[..i - cursor] && after == tail[i - cursor + 2..];
    SeparatorShifts(s, cursor);
    FirstBlock(tail, i - cursor, block, after);
  }

  /** A text starts with the events of its first block. */
  lemma FirstBlock(s: string, i: nat, block: string, after: string)
    requires SeparatorAt(s, i) && (forall j :: 0 <= j < i ==> !SeparatorAt(s, j))
    requires block == s[..i] && after == s[i + 2..]
    ensures EventsOf(Blocks(s)) == BlockEvents(block) + EventsOf(Blocks(after))
    ensures Rest(s) == Rest(after)
  {
    FirstSeparatorIs(s, i);
    FirstEvents(block, Blocks(after));
  }

  lemma SeparatorShifts(s: string, cursor: nat)
    requires cursor <= |s| && NextSeparator(s, cursor) < |s|
    ensures var i := NextSeparator(s, cursor) - cursor;
      SeparatorAt(s[cursor..], i) && forall j :: 0 <= j < i ==> !SeparatorAt(s[cursor..], j)
  {
    forall j | 0 <= j < NextSeparator(s, cursor) - cursor ensures !SeparatorAt(s[cursor..], j) {
      assert !SeparatorAt(s, cursor + j);
    }
  }

  lemma FirstEvents(block: string, blocks: seq<string>)
    ensures EventsOf([block] + blocks) == BlockEvents(block) + EventsOf(blocks)
  {
    assert ([block] + blocks)[1..] == blocks;
  }

  lemma NoFurtherBlock(s: string, cursor: nat)
    requires cursor <= |s| && NextSeparator(s, cursor) == |s|
    ensures Blocks(s[cursor..]) == [] && Rest(s[cursor..]) == s[cursor..]
  {
    var tail := s[cursor..];
    forall j | 0 <= j ensures !SeparatorAt(tail, j) {
      assert !SeparatorAt(s, cursor + j);
    }
    assert NextSeparator(tail, 0) == |tail|;
  }

  // ---------------------------------------------------------------- the whole stream

  function ConcatNormalized(chunks: seq<string>): string {
    if |chunks| == 0 then "" else Normalize(chunks[0]) + ConcatNormalized(chunks[1..])
  }

  /** No CR LF pair of the text falls across a chunk boundary, empty chunks included. */
  predicate KeepsPairs(chunks: seq<string>) {
    |chunks| == 0 || (!SplitsPair(chunks[0], Concat(chunks[1..])) && KeepsPairs(chunks[1..]))
  }

  /** Every event of a text that arrives in one piece and then ends: the unterminated final
      block is flushed too. */
  function TextEvents(text: string): seq<Dispatch> {
    EventsOf(Blocks(Normalize(text) + "\n\n"))
  }

  lemma {:induction false} ConcatNormalizedSnoc(chunks: seq<string>, c: string)
    ensures ConcatNormalized(chunks + [c]) == ConcatNormalized(chunks) + Normalize(c)
  {
    if |chunks| == 0 {
      assert chunks + [c] == [c];
    } else {
      assert (chunks + [c])[1..] == chunks[1..] + [c];
      ConcatNormalizedSnoc(chunks[1..], c);
    }
  }

  lemma {:induction false} NormalizedChunks(chunks: seq<string>)
    requires KeepsPairs(chunks)
    ensures ConcatNormalized(chunks) == Normalize(Concat(chunks))
  {
    if |chunks| > 0 {
      NormalizeAppend(chunks[0], Concat(chunks[1..]));
      NormalizedChunks(chunks[1..]);
    }
  }

  lemma {:induction false} RestClean(s: string)
    requires Free(s, '\r')
    ensures Free(Rest(s), '\r')
    decreases |s|
  {
    var i := NextSeparator(s, 0);
    if i < |s| { RestClean(s[i + 2..]); }
  }

  /** One more chunk against a carried-over buffer. */
  lemma FeedStep(seen: string, buffer: string, chunk: string)
    requires Free(seen, '\r') && buffer == Rest(seen)
    ensures Normalize(buffer + chunk) == buffer + Normalize(chunk)
    ensures EventsOf(Blocks(seen + Normalize(chunk)))
         == EventsOf(Blocks(seen)) + EventsOf(Blocks(Normalize(buffer + chunk)))
    ensures Rest(seen + Normalize(chunk)) == Rest(Normalize(buffer + chunk))
  {
    RestClean(seen);
    NormalizeAppend(buffer, chunk);
    NormalizeClean(buffer);
    BlocksAppend(seen, Normalize(chunk));
    EventsOfAppend(Blocks(seen), Blocks(buffer + Normalize(chunk)));
  }

  /** The read loop of `openSessionStream` together with the flush after the last read.
      `flushed` is what the decoder still held; it yields replacement characters only. */
  method ReadStream(chunks: seq<string>, flushed: string) returns (events: seq<Dispatch>)
    requires LineBreakFree(flushed)
    ensures events == EventsOf(Blocks(ConcatNormalized(chunks) + flushed + "\n\n"))
    ensures KeepsPairs(chunks) ==> events == TextEvents(Concat(chunks) + flushed)
  {
    var buffer := "";
    events := [];
    ghost var seen := "";
    var i := 0;
    while i < |chunks|
      invariant 0 <= i <= |chunks|
      invariant seen == ConcatNormalized(chunks[..i]) && Free(seen, '\r')
      invariant buffer == Rest(seen)
      invariant events == EventsOf(Blocks(seen))
    {
      FeedStep(seen, buffer, chunks[i]);
      NormalizeClean(chunks[i]);
      assert chunks[..i + 1] == chunks[..i] + [chunks[i]];
      ConcatNormalizedSnoc(chunks[..i], chunks[i]);
      buffer := buffer + chunks[i];
      var dispatched;
      buffer, dispatched := DispatchBufferedEvents(buffer);
      events := events + dispatched;
      seen := seen + Normalize(chunks[i]);
      i := i + 1;
    }
    assert chunks[..i] == chunks;
    Flushes(seen, flushed);
    var _, dispatched := DispatchBufferedEvents(buffer + flushed + "\n\n");
    events := events + dispatched;
    if KeepsPairs(chunks) { InOnePiece(chunks, flushed); }
  }

  /** The end of the stream: what is left over is dispatched as if a blank line followed. */
  lemma Flushes(seen: string, flushed: string)
    requires Free(seen, '\r') && LineBreakFree(flushed)
    ensures EventsOf(Blocks(seen + flushed + "\n\n"))
         == EventsOf(Blocks(seen)) + EventsOf(Blocks(Normalize(Rest(seen) + flushed + "\n\n")))
  {
    var tail := flushed + "\n\n";
    FeedStep(seen, Rest(seen), tail);
    NormalizeClean(tail);
    assert seen + flushed + "\n\n" == seen + tail && Rest(seen) + flushed + "\n\n" == Rest(seen) + tail;
  }

  lemma InOnePiece(chunks: seq<string>, flushed: string)
    requires KeepsPairs(chunks) && LineBreakFree(flushed)
    ensures EventsOf(Blocks(ConcatNormalized(chunks) + flushed + "\n\n")) == TextEvents(Concat(chunks) + flushed)
  {
    NormalizedChunks(chunks);
    NormalizeAppend(Concat(chunks), flushed);
    NormalizeClean(flushed);
  }

  /** The events of any chunking, as a function (what `ReadStream` computes). */
  function ChunkedEvents(chunks: seq<string>): seq<Dispatch> {
    EventsOf(Blocks(ConcatNormalized(chunks) + "\n\n"))
  }

  /** Chunking independence: two chunkings of one text that keep its CR LF pairs whole
      dispatch the same events, those of the text in one piece. */
  lemma ChunkingIndependence(a: seq<string>, b: seq<string>)
    requires Concat(a) == Concat(b) && KeepsPairs(a) && KeepsPairs(b)
    ensures ChunkedEvents(a) == ChunkedEvents(b) == TextEvents(Concat(a))
  {
    NormalizedChunks(a);
    NormalizedChunks(b);
  }

  // ---------------------------------------------------------------- where the reader deviates

  lemma {:induction false} ReplaceCrLength(s: string)
    ensures |ReplaceCr(s)| == |s|
  {
    if |s| > 0 { ReplaceCrLength(s[1..]); }
  }

  /** A cut pair reads as two line breaks. */
  lemma CutAddsOne(a: string, b: string)
    requires SplitsPair(a, b)
    ensures |ReplaceCrLf(a)| + |ReplaceCrLf(b)| == |ReplaceCrLf(a + b)| + 1
  {
    var a', b' := a[..|a| - 1], b[1..];
    assert a == a' + "\r" && a + b == a' + ("\r\n" + b') && b == "\n" + b';
    ReplaceCrLfAppend(a', "\r");
    ReplaceCrLfAppend(a', "\r\n" + b');
    assert ReplaceCrLf("\r") == "\r" + ReplaceCrLf("") by { assert "\r"[1..] == ""; }
    assert ("\r\n" + b')[2..] == b';
  }

  lemma NormalizeLength(a: string, b: string)
    ensures |Normalize(a)| + |Normalize(b)| == |Normalize(a + b)| + (if SplitsPair(a, b) then 1 else 0)
  {
    ReplaceCrLength(ReplaceCrLf(a));
    ReplaceCrLength(ReplaceCrLf(b));
    ReplaceCrLength(ReplaceCrLf(a + b));
    if SplitsPair(a, b) { CutAddsOne(a, b); } else { ReplaceCrLfAppend(a, b); }
  }

  function CutPairs(chunks: seq<string>): nat {
    if |chunks| == 0 then 0
    else (if SplitsPair(chunks[0], Concat(chunks[1..])) then 1 else 0) + CutPairs(chunks[1..])
  }

  /** Every pair a chunk boundary cuts adds one line break to what the reader sees, and nothing else
      does. */
  lemma {:induction false} CutPairsCounted(chunks: seq<string>)
    ensures |ConcatNormalized(chunks)| == |Normalize(Concat(chunks))| + CutPairs(chunks)
    ensures CutPairs(chunks) == 0 <==> KeepsPairs(chunks)
  {
    if |chunks| > 0 {
      NormalizeLength(chunks[0], Concat(chunks[1..]));
      CutPairsCounted(chunks[1..]);
    }
  }

  /** The reader sees the text's own lines exactly when no chunk boundary cuts a CR LF pair. */
  lemma ChunkingExactly(chunks: seq<string>)
    ensures ConcatNormalized(chunks) == Normalize(Concat(chunks)) <==> KeepsPairs(chunks)
  {
    CutPairsCounted(chunks);
    if KeepsPairs(chunks) { NormalizedChunks(chunks); }
  }

  predicate DataLine(line: string) { StartsWith(line, DATA_FIELD) }

  /** Some line of the text is a data line. */
  predicate HasData(raw: string) {
    exists i :: 0 <= i < |Split(raw, '\n')| && DataLine(Split(raw, '\n')[i])
  }

  lemma TakeLineData(f: Fields, line: string)
    ensures |TakeLine(f, line).data| == |f.data| + (if DataLine(line) then 1 else 0)
  {
    if DataLine(line) { assert line[0] == 'd'; }
  }

  lemma {:induction false} TakeLinesData(f: Fields, lines: seq<string>)
    ensures |TakeLines(f, lines).data| >= |f.data|
    ensures |TakeLines(f, lines).data| > |f.data| <==> exists i :: 0 <= i < |lines| && DataLine(lines[i])
    decreases |lines|
  {
    if |lines| > 0 {
      TakeLineData(f, lines[0]);
      TakeLinesData(TakeLine(f, lines[0]), lines[1..]);
      if i :| 0 <= i < |lines[1..]| && DataLine(lines[1..][i]) { assert DataLine(lines[i + 1]); }
      if i :| 0 < i < |lines| && DataLine(lines[i]) { assert DataLine(lines[1..][i - 1]); }
    }
  }

  lemma {:induction false} BlankStart(s: string)
    ensures |TrimStart(s)| == 0 <==> forall i :: 0 <= i < |s| ==> IsSpace(s[i])
    ensures |TrimStart(s)| > 0 ==> !IsSpace(TrimStart(s)[0])
  {
    if |s| > 0 && IsSpace(s[0]) {
      BlankStart(s[1..]);
      assert forall i :: 1 <= i < |s| ==> s[i] == s[1..][i - 1];
    }
  }

  lemma DataIsNotBlank(raw: string)
    requires HasData(raw)
    ensures |Trim(raw)| > 0
  {
    var i :| 0 <= i < |Split(raw, '\n')| && DataLine(Split(raw, '\n')[i]);
    var line := Split(raw, '\n')[i];
    SplitChars(raw, '\n');
    assert line[0] == 'd' && line[0] in line && !IsSpace('d');
    BlankStart(raw);
    TrimEndKeepsHead(TrimStart(raw));
  }

  /** A block yields an event exactly when it has a data line. */
  lemma BlockHasEvent(raw: string)
    ensures BlockEvents(raw) != [] <==> HasData(raw)
  {
    TakeLinesData(Fields("message", []), Split(raw, '\n'));
    if HasData(raw) { DataIsNotBlank(raw); }
  }

  /** The kind of a block's event: what its last event line says, "message" if that is blank or if there
      is none. */
  predicate EventLine(line: string) { StartsWith(line, EVENT_FIELD) }

  lemma {:induction false} KindIsLast(f: Fields, lines: seq<string>, i: nat)
    requires i < |lines| && EventLine(lines[i]) && forall j :: i < j < |lines| ==> !EventLine(lines[j])
    ensures var said := Trim(lines[i][|EVENT_FIELD|..]);
      TakeLines(f, lines).kind == if said == "" then "message" else said
    decreases |lines|
  {
    var g := TakeLine(f, lines[0]);
    if i > 0 {
      forall j | i - 1 < j < |lines[1..]| ensures !EventLine(lines[1..][j]) {
        assert !EventLine(lines[j + 1]);
      }
      KindIsLast(g, lines[1..], i - 1);
    } else {
      assert lines[0][0] == 'e';
      forall j | 0 <= j < |lines[1..]| ensures !EventLine(lines[1..][j]) {
        assert !EventLine(lines[j + 1]);
      }
      KindStays(g, lines[1..]);
    }
  }

  lemma {:induction false} KindStays(f: Fields, lines: seq<string>)
    requires forall j :: 0 <= j < |lines| ==> !EventLine(lines[j])
    ensures TakeLines(f, lines).kind == f.kind
    decreases |lines|
  {
    if |lines| > 0 {
      assert !EventLine(lines[0]);
      forall j | 0 <= j < |lines[1..]| ensures !EventLine(lines[1..][j]) {
        assert !EventLine(lines[j + 1]);
      }
      KindStays(TakeLine(f, lines[0]), lines[1..]);
    }
  }

  lemma {:induction false} RestHasNoSeparator(s: string)
    ensures NoSeparator(Rest(s))
    decreases |s|
  {
    var i := NextSeparator(s, 0);
    if i < |s| { RestHasNoSeparator(s[i + 2..]); }
  }

  /** The one block the flush cuts from what was left over. */
  function FlushedBlock(rest: string): string {
    if |rest| > 0 && rest[|rest| - 1] == '\n' then rest[..|rest| - 1] else rest
  }

  lemma FlushCutsOne(rest: string)
    requires NoSeparator(rest)
    ensures Blocks(rest + "\n\n") == [FlushedBlock(rest)]
  {
    var s, k := rest + "\n\n", |FlushedBlock(rest)|;
    assert SeparatorAt(s, k);
    forall j | 0 <= j < k ensures !SeparatorAt(s, j) {
      assert !SeparatorAt(rest, j);
    }
    FirstSeparatorIs(s, k);
    assert |s[k + 2..]| <= 1 && Blocks(s[k + 2..]) == [];
    assert s[..k] == FlushedBlock(rest);
  }

  lemma FlushedData(rest: string)
    ensures HasData(FlushedBlock(rest)) <==> HasData(rest)
  {
    var b := FlushedBlock(rest);
    if b != rest {
      assert rest == b + "\n";
      SplitSnoc(b, '\n');
      var lines := Split(b, '\n');
      assert Split(rest, '\n') == lines + [""] && !DataLine("");
      if i :| 0 <= i < |lines| && DataLine(lines[i]) { assert DataLine((lines + [""])[i]); }
      if i :| 0 <= i < |lines + [""]| && DataLine((lines + [""])[i]) { assert DataLine(lines[i]); }
    }
  }

  /** Exactly when the end of the stream dispatches one more event than its terminated blocks: what
      is left over has a data line. The standard drops it. */
  lemma FlushAddsExactly(text: string)
    ensures var rest := Rest(Normalize(text));
      && TextEvents(text) == EventsOf(Blocks(Normalize(text))) + BlockEvents(FlushedBlock(rest))
      && (TextEvents(text) == EventsOf(Blocks(Normalize(text))) <==> !HasData(rest))
  {
    var n := Normalize(text);
    var rest := Rest(n);
    BlocksAppend(n, "\n\n");
    RestHasNoSeparator(n);
    FlushCutsOne(rest);
    EventsOfAppend(Blocks(n), [FlushedBlock(rest)]);
    EventsOfOne(FlushedBlock(rest));
    BlockHasEvent(FlushedBlock(rest));
    FlushedData(rest);
  }

  predicate PlainData(data: string) {
    LineBreakFree(data) && |data| > 0 && !IsSpace(data[0]) && !IsSpace(data[|data| - 1])
  }

  /** The condition is needed: one two-line event, cut inside its CR LF pair, becomes two events. */
  lemma SplitPairChangesEvents(a: string, b: string)
    requires PlainData(a) && PlainData(b)
    ensures var cut := [DATA_FIELD + a + "\r", "\n" + (DATA_FIELD + b + "\n\n")];
      && !KeepsPairs(cut)
      && ChunkedEvents(cut) == [Event("message", a), Event("message", b)]
      && TextEvents(Concat(cut)) == [Event("message", a + "\n" + b)]
  {
    var x, y := DATA_FIELD + a, DATA_FIELD + b;
    var cut := [x + "\r", "\n" + (y + "\n\n")];
    assert cut[1..][1..] == [];
    assert Concat(cut[1..]) == cut[1];
    assert SplitsPair(cut[0], Concat(cut[1..]));
    PairCutEvents(a, b);
    PairWholeEvents(a, b);
    assert Concat(cut) == x + "\r\n" + y + "\n\n";
  }

  lemma DataBlock(data: string, rest: string)
    requires PlainData(data)
    ensures EventsOf(Blocks(DATA_FIELD + data + "\n\n" + rest))
         == [Event("message", data)] + EventsOf(Blocks(rest))
  {
    var raw := DATA_FIELD + data;
    assert NoSeparator(raw);
    PlainBlock(raw, rest);
    DataLineEvent(data);
    EventsOfAppend([raw], Blocks(rest));
    EventsOfOne(raw);
  }

  lemma EventsOfOne(raw: string)
    ensures EventsOf([raw]) == BlockEvents(raw)
  {
    assert [raw][1..] == [];
    assert EventsOf([]) == [];
  }

  lemma FlushOnly()
    ensures EventsOf(Blocks("\n\n")) == []
  {
    FirstSeparatorIs("\n\n", 0);
    EventsOfOne("");
    assert "\n\n"[..0] == "" && "\n\n"[2..] == "" && Blocks("") == [];
  }

  lemma PairCutEvents(a: string, b: string)
    requires PlainData(a) && PlainData(b)
    ensures ChunkedEvents([DATA_FIELD + a + "\r", "\n" + (DATA_FIELD + b + "\n\n")])
         == [Event("message", a), Event("message", b)]
  {
    var x, y := DATA_FIELD + a, DATA_FIELD + b;
    var first, second := x + "\r", "\n" + (y + "\n\n");
    var cut := [first, second];
    assert cut[1..] == [second] && cut[1..][1..] == [];
    assert ConcatNormalized([]) == "";
    assert ConcatNormalized(cut) == Normalize(first) + (Normalize(second) + "");
    NormalizeCrTail(x);
    NormalizeClean(second);
    var tail := y + "\n\n" + "\n\n";
    assert ConcatNormalized(cut) + "\n\n" == x + "\n\n" + tail;
    DataBlock(a, tail);
    DataBlock(b, "\n\n");
    FlushOnly();
  }

  lemma PairWholeEvents(a: string, b: string)
    requires PlainData(a) && PlainData(b)
    ensures TextEvents(DATA_FIELD + a + "\r\n" + (DATA_FIELD + b) + "\n\n")
         == [Event("message", a + "\n" + b)]
  {
    var x, y := DATA_FIELD + a, DATA_FIELD + b;
    var text := x + "\r\n" + y + "\n\n";
    assert text == (x + "\r\n") + (y + "\n\n");
    NormalizeAppend(x + "\r\n", y + "\n\n");
    NormalizeCrLfTail(x);
    NormalizeClean(y + "\n\n");
    var body := Join([x, y], '\n');
    JoinTwo(x, y);
    assert Normalize(text) + "\n\n" == body + "\n\n" + "\n\n";
    JoinedLines([x, y]);
    PlainBlock(body, "\n\n");
    EventsOfAppend([body], Blocks("\n\n"));
    EventsOfOne(body);
    FlushOnly();
    TwoDataLines(a, b);
  }

  lemma JoinTwo(x: string, y: string)
    ensures Join([x, y], '\n') == x + "\n" + y
  {
    assert [x, y][1..] == [y];
    assert Join([y], '\n') == y;
  }

  lemma TwoDataLines(a: string, b: string)
    requires PlainData(a) && PlainData(b)
    ensures BlockEvents(Join([DATA_FIELD + a, DATA_FIELD + b], '\n')) == [Event("message", a + "\n" + b)]
  {
    var x, y := DATA_FIELD + a, DATA_FIELD + b;
    JoinedLines([x, y]);
    TrimNonBlank(Join([x, y], '\n'));
    SplitJoin([x, y], '\n');
    var f := Fields("message", []);
    TakeData(f, a);
    TakeData(TakeLine(f, x), b);
    assert [x, y][1..] == [y] && [y][1..] == [];
    var g := TakeLine(f, x);
    assert TakeLines(f, [x, y]) == TakeLines(g, [y]) == TakeLines(TakeLine(g, y), []) == TakeLine(g, y);
    TrimStartFree(a);
    TrimStartFree(b);
    assert [] + [a] + [b] == [a, b];
    JoinTwo(a, b);
  }

  lemma NormalizeCrTail(s: string)
    requires Free(s, '\r')
    ensures Normalize(s + "\r") == s + "\n"
  {
    NormalizeAppend(s, "\r");
    NormalizeClean(s);
    assert ReplaceCrLf("\r") == "\r" + ReplaceCrLf("");
    assert ReplaceCr("\r") == "\n" + ReplaceCr("");
  }

  lemma NormalizeCrLfTail(s: string)
    requires Free(s, '\r')
    ensures Normalize(s + "\r\n") == s + "\n"
  {
    NormalizeAppend(s, "\r\n");
    NormalizeClean(s);
    assert "\r\n"[2..] == "";
    assert ReplaceCrLf("\r\n") == "\n" + ReplaceCrLf("");
    NormalizeClean("\n");
  }

  /** A block that holds no separator and does not end in a line break is cut off whole. */
  lemma PlainBlock(block: string, rest: string)
    requires NoSeparator(block) && |block| > 0 && block[|block| - 1] != '\n'
    ensures Blocks(block + "\n\n" + rest) == [block] + Blocks(rest)
    ensures Rest(block + "\n\n" + rest) == Rest(rest)
  {
    var s := block + "\n\n" + rest;
    assert SeparatorAt(s, |block|);
    forall j | 0 <= j < |block| ensures !SeparatorAt(s, j) {
      assert !SeparatorAt(block, j);
    }
    FirstSeparatorIs(s, |block|);
    assert s[..|block|] == block && s[|block| + 2..] == rest;
  }

  lemma TakeData(f: Fields, line: string)
    ensures TakeLine(f, DATA_FIELD + line) == f.(data := f.data + [TrimStart(line)])
  {
    var whole := DATA_FIELD + line;
    assert whole[|DATA_FIELD|..] == line;
    assert whole[0] == 'd' && !StartsWith(whole, EVENT_FIELD) && !StartsWith(whole, ":");
  }

  lemma DataLineEvent(data: string)
    requires Free(data, '\n') && |data| > 0 && !IsSpace(data[0]) && !IsSpace(data[|data| - 1])
    ensures BlockEvents(DATA_FIELD + data) == [Event("message", data)]
  {
    var raw := DATA_FIELD + data;
    assert raw[0] == 'd' && !IsSpace('d');
    SplitFree(raw, '\n');
    TakeData(Fields("message", []), data);
    assert TakeLines(Fields("message", []), [raw]) == TakeLine(Fields("message", []), raw);
  }

  // ---------------------------------------------------------------- round trip

  /** An event as a relay writes it: a type and its data lines. */
  datatype Message = Message(kind: string, lines: seq<string>)

  /** A type that survives `trim`, and data lines that hold no line break. */
  predicate Printable(m: Message) {
    && LineBreakFree(m.kind) && |m.kind| > 0 && Trim(m.kind) == m.kind && TrimStart(m.kind) == m.kind
    && |m.lines| > 0
    && forall i :: 0 <= i < |m.lines| ==> LineBreakFree(m.lines[i])
  }

  predicate NoLeadingSpace(m: Message) {
    forall i :: 0 <= i < |m.lines| ==> |m.lines[i]| == 0 || !IsSpace(m.lines[i][0])
  }

  function DataLines(lines: seq<string>): seq<string> {
    if |lines| == 0 then [] else ["data: " + lines[0]] + DataLines(lines[1..])
  }

  function BlockLines(m: Message): seq<string> { ["event: " + m.kind] + DataLines(m.lines) }

  function PrintOne(m: Message): string { Join(BlockLines(m), '\n') + "\n\n" }

  function Print(ms: seq<Message>): string {
    if |ms| == 0 then "" else PrintOne(ms[0]) + Print(ms[1..])
  }

  /** What a subscriber should receive for a message. */
  function Meaning(m: Message): Dispatch {
    var data := Join(m.lines, '\n');
    if m.kind == "session" then Session(data) else Event(m.kind, data)
  }

  function Meanings(ms: seq<Message>): seq<Dispatch> {
    if |ms| == 0 then [] else [Meaning(ms[0])] + Meanings(ms[1..])
  }

  function TrimLines(lines: seq<string>): seq<string> {
    if |lines| == 0 then [] else [TrimStart(lines[0])] + TrimLines(lines[1..])
  }

  /** What the reader makes of a message: leading white space of every data line is lost. */
  function Received(m: Message): Dispatch { Meaning(m.(lines := TrimLines(m.lines))) }

  function AllReceived(ms: seq<Message>): seq<Dispatch> {
    if |ms| == 0 then [] else [Received(ms[0])] + AllReceived(ms[1..])
  }

  lemma {:induction false} DataLinesShape(lines: seq<string>)
    requires forall i :: 0 <= i < |lines| ==> LineBreakFree(lines[i])
    ensures |DataLines(lines)| == |lines|
    ensures forall i :: 0 <= i < |lines| ==>
      LineBreakFree(DataLines(lines)[i]) && |DataLines(lines)[i]| > 0
  {
    if |lines| > 0 {
      DataLinesShape(lines[1..]);
    }
  }

  lemma {:induction false} TakeDataLines(f: Fields, lines: seq<string>)
    ensures TakeLines(f, DataLines(lines)) == f.(data := f.data + TrimLines(lines))
    decreases |lines|
  {
    if |lines| > 0 {
      var line := "data: " + lines[0];
      assert line == DATA_FIELD + (" " + lines[0]);
      TakeData(f, " " + lines[0]);
      assert (" " + lines[0])[1..] == lines[0];
      assert TrimStart(" " + lines[0]) == TrimStart(lines[0]);
      var g := TakeLine(f, line);
      TakeDataLines(g, lines[1..]);
      assert f.data + [TrimStart(lines[0])] + TrimLines(lines[1..]) == f.data + TrimLines(lines);
      assert DataLines(lines)[1..] == DataLines(lines[1..]);
    }
  }

  /** Non-empty lines that hold no line break never form a blank line when joined. */
  lemma {:induction false} JoinedLines(lines: seq<string>)
    requires |lines| > 0
    requires forall i :: 0 <= i < |lines| ==> LineBreakFree(lines[i]) && |lines[i]| > 0
    ensures var s := Join(lines, '\n');
      NoSeparator(s) && |s| > 0 && s[0] == lines[0][0] && s[|s| - 1] != '\n' && Free(s, '\r')
  {
    if |lines| > 1 {
      JoinedLines(lines[1..]);
      var s := Join(lines, '\n');
      var t := Join(lines[1..], '\n');
      assert s == lines[0] + ['\n'] + t;
      forall i ensures !SeparatorAt(s, i) {
        if |lines[0]| < i {
          assert !SeparatorAt(t, i - |lines[0]| - 1);
        }
      }
    }
  }

  lemma {:induction false} TrimNonBlank(s: string)
    requires |s| > 0 && !IsSpace(s[0])
    ensures |Trim(s)| > 0
  {
    TrimEndKeepsHead(s);
  }

  lemma {:induction false} TrimEndKeepsHead(s: string)
    requires |s| > 0 && !IsSpace(s[0])
    ensures |TrimEnd(s)| > 0
  {
    if |s| > 1 && IsSpace(s[|s| - 1]) { TrimEndKeepsHead(s[..|s| - 1]); }
  }

  /** One printed message, read back. */
  lemma ReadOne(m: Message)
    requires Printable(m)
    ensures BlockEvents(Join(BlockLines(m), '\n')) == [Received(m)]
    ensures var s := Join(BlockLines(m), '\n');
      NoSeparator(s) && |s| > 0 && s[|s| - 1] != '\n' && Free(s, '\r')
  {
    var lines := BlockLines(m);
    DataLinesShape(m.lines);
    JoinedLines(lines);
    var raw := Join(lines, '\n');
    assert lines[0][0] == 'e' && !IsSpace('e');
    TrimNonBlank(raw);
    SplitJoin(lines, '\n');
    var f := Fields("message", []);
    var first := lines[0];
    assert first == EVENT_FIELD + (" " + m.kind);
    assert first[|EVENT_FIELD|..] == " " + m.kind && !StartsWith(first, ":");
    assert (" " + m.kind)[1..] == m.kind;
    assert TrimStart(" " + m.kind) == TrimStart(m.kind) == m.kind;
    assert TakeLine(f, first) == f.(kind := m.kind);
    assert lines[1..] == DataLines(m.lines);
    TakeDataLines(f.(kind := m.kind), m.lines);
    assert [] + TrimLines(m.lines) == TrimLines(m.lines);
    TrimLinesShape(m.lines);
  }

  lemma {:induction false} TrimLinesShape(lines: seq<string>)
    requires forall i :: 0 <= i < |lines| ==> LineBreakFree(lines[i])
    ensures |TrimLines(lines)| == |lines|
    ensures forall i :: 0 <= i < |lines| ==>
      TrimLines(lines)[i] == TrimStart(lines[i]) && LineBreakFree(TrimLines(lines)[i])
  {
    if |lines| > 0 {
      TrimStartFree(lines[0]);
      TrimLinesShape(lines[1..]);
    }
  }

  lemma {:induction false} TrimStartFree(s: string)
    ensures LineBreakFree(s) ==> LineBreakFree(TrimStart(s))
    ensures TrimStart(s) == s <==> (|s| == 0 || !IsSpace(s[0]))
    ensures |TrimStart(s)| <= |s|
  {
    if |s| > 0 && IsSpace(s[0]) { TrimStartFree(s[1..]); }
  }

  lemma {:induction false} PrintEvents(ms: seq<Message>)
    requires forall i :: 0 <= i < |ms| ==> Printable(ms[i])
    ensures EventsOf(Blocks(Print(ms))) == AllReceived(ms)
    ensures Rest(Print(ms)) == "" && Free(Print(ms), '\r')
  {
    if |ms| > 0 {
      ReadOne(ms[0]);
      PrintEvents(ms[1..]);
      var raw := Join(BlockLines(ms[0]), '\n');
      PlainBlock(raw, Print(ms[1..]));
      assert Print(ms) == raw + "\n\n" + Print(ms[1..]);
      EventsOfAppend([raw], Blocks(Print(ms[1..])));
      assert EventsOf([raw]) == BlockEvents(raw) + EventsOf([raw][1..]);
    }
  }

  /** Printed messages, read back through any chunking, arrive in order, once each, with the
      leading white space of their data lines removed. */
  lemma ReadBack(ms: seq<Message>, chunks: seq<string>)
    requires forall i :: 0 <= i < |ms| ==> Printable(ms[i])
    requires Concat(chunks) == Print(ms)
    ensures ChunkedEvents(chunks) == AllReceived(ms)
  {
    PrintEvents(ms);
    CrFreeKeepsPairs(chunks);
    NormalizedChunks(chunks);
    NormalizeClean(Print(ms));
    BlocksAppend(Print(ms), "\n\n");
    EventsOfAppend(Blocks(Print(ms)), Blocks("" + "\n\n"));
    FirstSeparatorIs("\n\n", 0);
    assert "" + "\n\n" == "\n\n" && Blocks("\n\n") == [""] + Blocks("");
    assert EventsOf([""]) == BlockEvents("") + EventsOf([""][1..]);
  }

  lemma {:induction false} CrFreeKeepsPairs(chunks: seq<string>)
    requires Free(Concat(chunks), '\r')
    ensures KeepsPairs(chunks)
  {
    if |chunks| > 0 {
      var s, t := chunks[0], Concat(chunks[1..]);
      assert Concat(chunks) == s + t;
      assert forall i :: 0 <= i < |t| ==> t[i] == (s + t)[|s| + i];
      assert forall i :: 0 <= i < |s| ==> s[i] == (s + t)[i];
      CrFreeKeepsPairs(chunks[1..]);
    }
  }

  /** The round trip holds for exactly the messages none of whose data lines starts with
      white space. */
  lemma RoundTripExactly(m: Message)
    requires Printable(m)
    ensures Received(m) == Meaning(m) <==> NoLeadingSpace(m)
  {
    TrimLinesShape(m.lines);
    forall i | 0 <= i < |m.lines|
      ensures TrimLines(m.lines)[i] == m.lines[i] <==> (|m.lines[i]| == 0 || !IsSpace(m.lines[i][0]))
    {
      TrimStartFree(m.lines[i]);
    }
    if NoLeadingSpace(m) {
      assert TrimLines(m.lines) == m.lines;
    }
    if Received(m) == Meaning(m) {
      JoinInjective(TrimLines(m.lines), m.lines, '\n');
    }
  }

  /** Chunked round trip for a whole stream. */
  lemma RoundTrip(ms: seq<Message>, chunks: seq<string>)
    requires forall i :: 0 <= i < |ms| ==> Printable(ms[i]) && NoLeadingSpace(ms[i])
    requires Concat(chunks) == Print(ms)
    ensures ChunkedEvents(chunks) == Meanings(ms)
  {
    ReadBack(ms, chunks);
    ReceivedIsMeant(ms);
  }

  lemma {:induction false} ReceivedIsMeant(ms: seq<Message>)
    requires forall i :: 0 <= i < |ms| ==> Printable(ms[i]) && NoLeadingSpace(ms[i])
    ensures AllReceived(ms) == Meanings(ms)
  {
    if |ms| > 0 {
      RoundTripExactly(ms[0]);
      ReceivedIsMeant(ms[1..]);
    }
  }
}
