/**
 * The `/api/temperature/stream` relay: it forwards a streamed chat
 * completion from the upstream API as server-sent events. Each upstream
 * `data: ` line carrying delta content becomes one
 * `data: {"content":"…"}` event, `[DONE]` is forwarded and ends the
 * stream, and failures become one `data: {"error":"…"}` event.
 *
 * The HTTP exchange is an input (`Upstream`); decoding a chunk with
 * kotlinx.serialization is an oracle (`ChunkDecoder`). The relay is split
 * into what it emits (`Emit`) and how each emission is written as text
 * (`Render`), so that the text can be read back (`ReadEvent`).
 */
module TemperatureRoutes {
  import opened Wrappers
  import opened Text
  import opened JsonEscape

  /** Ktor's `HttpStatusCode`: equal by value, printed as value and
      description. */
  datatype Status = Status(value: int, description: String)

  predicate IsOk(s: Status) {
    s.value == 200
  }

  function StatusText(s: Status): String {
    IntToString(s.value) + " " + s.description
  }

  /** `chunk.choices.firstOrNull()?.delta?.content` for a decoded payload,
      or the decode failure the loop swallows. */
  datatype Chunk = Unparseable | Parsed(content: Option<String>)

  type ChunkDecoder = String -> Chunk

  /** How the upstream exchange went: it raised (connecting, reading the
      error body, …) with an optional message, or it answered with a status,
      the body text (read only when the status is not OK) and the lines
      read before the channel closed or a read failed. */
  datatype Upstream =
    | Threw(message: Option<String>)
    | Responded(status: Status, body: String, lines: seq<String>)

  /** What the route emits, before it is written as text. */
  datatype Emit =
    | ContentEmit(content: String)
    | DoneEmit
    | StatusError(status: Status, body: String)
    | FailureEmit(message: String)

  const DATA_PREFIX := "data: "
  const DONE_MARK := "[DONE]"

  // ---------------------------------------------------------------------------
  // The line loop

  /** The trimmed payload of a `data: ` line; no payload for other lines. */
  function Payload(line: String): Option<String> {
    if StartsWith(line, DATA_PREFIX) then Some(Trim(RemovePrefix(line, DATA_PREFIX))) else None
  }

  /** The `while (!channel.isClosedForRead)` loop over the lines read. */
  function RelayLines(decode: ChunkDecoder, lines: seq<String>): seq<Emit>
    decreases |lines|
  {
    if lines == [] then []
    else
      match Payload(lines[0])
      case None => RelayLines(decode, lines[1..])
      case Some(data) =>
        if data == DONE_MARK then [DoneEmit]
        else
          match decode(data)
          case Parsed(Some(c)) => [ContentEmit(c)] + RelayLines(decode, lines[1..])
          case _ => RelayLines(decode, lines[1..])
  }

  /** The whole route body: a failure of the upstream exchange becomes one
      error event (`"Unknown error"` when it has no message); a status other
      than OK becomes one error event naming the status and body; otherwise
      the line loop runs. Writes to the client are taken to succeed. */
  function Relay(decode: ChunkDecoder, up: Upstream): seq<Emit> {
    match up
    case Threw(m) => [FailureEmit(m.GetOr("Unknown error"))]
    case Responded(st, body, lines) =>
      if !IsOk(st) then [StatusError(st, body)] else RelayLines(decode, lines)
  }

  // ---------------------------------------------------------------------------
  // A reference reading of the lines

  predicate IsDoneLine(line: String) {
    Payload(line) == Some(DONE_MARK)
  }

  /** The content one line carries, `[DONE]` aside. */
  function LineContent(decode: ChunkDecoder, line: String): seq<String> {
    match Payload(line)
    case None => []
    case Some(data) =>
      if data == DONE_MARK then []
      else
        match decode(data)
        case Parsed(Some(c)) => [c]
        case _ => []
  }

  /** Every content the lines carry, in order. */
  function Contents(decode: ChunkDecoder, lines: seq<String>): seq<String> {
    if lines == [] then [] else Contents(decode, lines[..|lines| - 1]) + LineContent(decode, lines[|lines| - 1])
  }

  /** The position of the first `[DONE]` line, or the number of lines. */
  function DoneIndex(lines: seq<String>): (k: nat)
    ensures k <= |lines|
    ensures forall j :: 0 <= j < k ==> !IsDoneLine(lines[j])
    ensures k < |lines| ==> IsDoneLine(lines[k])
  {
    if lines == [] || IsDoneLine(lines[0]) then 0 else 1 + DoneIndex(lines[1..])
  }

  function ContentEmits(cs: seq<String>): (es: seq<Emit>)
    ensures |es| == |cs|
    ensures forall i :: 0 <= i < |cs| ==> es[i] == ContentEmit(cs[i])
  {
    seq(|cs|, i requires 0 <= i < |cs| => ContentEmit(cs[i]))
  }

  /** What the loop should emit: the content of every line before the first
      `[DONE]`, in order, then `[DONE]` if there is one. */
  function ExpectedEmits(decode: ChunkDecoder, lines: seq<String>): seq<Emit> {
    var k := DoneIndex(lines);
    ContentEmits(Contents(decode, lines[..k])) + (if k < |lines| then [DoneEmit] else [])
  }

  lemma {:induction false} ContentsAppend(decode: ChunkDecoder, a: seq<String>, b: seq<String>)
    ensures Contents(decode, a + b) == Contents(decode, a) + Contents(decode, b)
    decreases |b|
  {
    if b == [] {
      assert a + b == a;
    } else {
      var b' := b[..|b| - 1];
      assert (a + b)[..|a + b| - 1] == a + b';
      assert (a + b)[|a + b| - 1] == b[|b| - 1];
      ContentsAppend(decode, a, b');
    }
  }

  lemma ContentEmitsAppend(a: seq<String>, b: seq<String>)
    ensures ContentEmits(a + b) == ContentEmits(a) + ContentEmits(b)
  {
  }

  /** The loop emits exactly the reference reading: non-`data:` lines,
      unparseable chunks and chunks without content emit nothing, content
      keeps its order, and nothing after the first `[DONE]` is read. */
  lemma {:induction false} RelayLinesMeans(decode: ChunkDecoder, lines: seq<String>)
    ensures RelayLines(decode, lines) == ExpectedEmits(decode, lines)
    decreases |lines|
  {
    if lines != [] {
      RelayStep(decode, lines[0], lines[1..]);
      assert lines == [lines[0]] + lines[1..];
      if !IsDoneLine(lines[0]) {
        RelayLinesMeans(decode, lines[1..]);
        ExpectedStep(decode, lines[0], lines[1..]);
      }
    }
  }

  /** One turn of the loop. */
  lemma RelayStep(decode: ChunkDecoder, l: String, rest: seq<String>)
    ensures RelayLines(decode, [l] + rest)
         == if IsDoneLine(l) then [DoneEmit] else ContentEmits(LineContent(decode, l)) + RelayLines(decode, rest)
  {
    assert ([l] + rest)[0] == l;
    assert ([l] + rest)[1..] == rest;
  }

  /** The reference reading of a line that is not `[DONE]` followed by more. */
  lemma ExpectedStep(decode: ChunkDecoder, l: String, rest: seq<String>)
    requires !IsDoneLine(l)
    ensures ExpectedEmits(decode, [l] + rest) == ContentEmits(LineContent(decode, l)) + ExpectedEmits(decode, rest)
  {
    var lines := [l] + rest;
    var k0 := DoneIndex(rest);
    DoneIndexCons(l, rest);
    var c1, cr := LineContent(decode, l), Contents(decode, rest[..k0]);
    var tail: seq<Emit> := if k0 < |rest| then [DoneEmit] else [];
    ContentsCons(decode, l, rest, k0);
    ContentEmitsAppend(c1, cr);
    Regroup(ContentEmits(c1), ContentEmits(cr), tail);
  }

  lemma ContentsCons(decode: ChunkDecoder, l: String, rest: seq<String>, k0: nat)
    requires k0 <= |rest|
    ensures Contents(decode, ([l] + rest)[..k0 + 1]) == LineContent(decode, l) + Contents(decode, rest[..k0])
  {
    assert ([l] + rest)[..k0 + 1] == [l] + rest[..k0];
    ContentsAppend(decode, [l], rest[..k0]);
    ContentsOne(decode, l);
  }

  lemma Regroup<T>(a: seq<T>, b: seq<T>, c: seq<T>)
    ensures (a + b) + c == a + (b + c)
  {
  }

  lemma DoneIndexCons(l: String, rest: seq<String>)
    requires !IsDoneLine(l)
    ensures DoneIndex([l] + rest) == 1 + DoneIndex(rest)
  {
    var lines := [l] + rest;
    assert lines[0] == l && lines[1..] == rest;
  }

  lemma ContentsOne(decode: ChunkDecoder, l: String)
    ensures Contents(decode, [l]) == LineContent(decode, l)
  {
    assert [l][..0] == [];
  }

  /** Once a `[DONE]` line has been read, later lines change nothing. */
  lemma {:induction false} DoneStops(decode: ChunkDecoder, a: seq<String>, b: seq<String>)
    requires DoneIndex(a) < |a|
    ensures RelayLines(decode, a + b) == RelayLines(decode, a)
    decreases |a|
  {
    assert (a + b)[0] == a[0];
    if !IsDoneLine(a[0]) {
      assert (a + b)[1..] == a[1..] + b;
      DoneStops(decode, a[1..], b);
    }
  }

  /** Before any `[DONE]`, the loop streams: what it emits for `a + b` is
      what it emits for `a` followed by what it emits for `b`. */
  lemma {:induction false} RelayLinesAppend(decode: ChunkDecoder, a: seq<String>, b: seq<String>)
    requires DoneIndex(a) == |a|
    ensures RelayLines(decode, a + b) == RelayLines(decode, a) + RelayLines(decode, b)
    decreases |a|
  {
    if a == [] {
      assert a + b == b;
    } else {
      assert (a + b)[0] == a[0];
      assert (a + b)[1..] == a[1..] + b;
      RelayLinesAppend(decode, a[1..], b);
    }
  }

  /** A stream that ends (or fails to read) before any `[DONE]` emits only
      content, one event per content-bearing chunk, and no end marker. */
  lemma EndsWithoutMarker(decode: ChunkDecoder, lines: seq<String>)
    requires DoneIndex(lines) == |lines|
    ensures RelayLines(decode, lines) == ContentEmits(Contents(decode, lines))
    ensures DoneEmit !in RelayLines(decode, lines)
  {
    RelayLinesMeans(decode, lines);
    assert lines[..|lines|] == lines;
  }

  // ---------------------------------------------------------------------------
  // Writing and reading the events

  const CONTENT_OPEN := "data: {\"content\":\""
  const ERROR_OPEN := "data: {\"error\":\""
  const DONE_LINE := "data: [DONE]\n\n"

  /** A content event with the content escape as written. */
  function ContentLineAsWritten(c: String): String {
    CONTENT_OPEN + EscapeContentAsWritten(c) + CLOSE
  }

  /** A content event with the corrected content escape. */
  function ContentLine(c: String): String {
    CONTENT_OPEN + EscapeContent(c) + CLOSE
  }

  function ErrorLine(escaped: String): String {
    ERROR_OPEN + escaped + CLOSE
  }

  /** The message of an error status. */
  function StatusMessage(st: Status, body: String): String {
    "DeepSeek API error: " + StatusText(st) + " - " + body
  }

  /** The route's text for each event, as written: content gets the escape
      that leaves carriage returns raw, the status message is spliced in
      raw, and the exception message gets the quote-and-newline escape that
      leaves backslashes and carriage returns alone. */
  function RenderAsWritten(e: Emit): String {
    match e
    case ContentEmit(c) => ContentLineAsWritten(c)
    case DoneEmit => DONE_LINE
    case StatusError(st, body) => ErrorLine(StatusMessage(st, body))
    case FailureEmit(m) => ErrorLine(EscapeErrorAsWritten(m))
  }

  /** The route's text for each event, corrected: content also writes a
      carriage return as `\r`, and both error messages are escaped like JSON
      string content (newlines still become spaces). */
  function Render(e: Emit): String {
    match e
    case ContentEmit(c) => ContentLine(c)
    case DoneEmit => DONE_LINE
    case StatusError(st, body) => ErrorLine(EscapeError(StatusMessage(st, body)))
    case FailureEmit(m) => ErrorLine(EscapeError(m))
  }

  /** What a client reads from one event. */
  datatype Event = Content(text: String) | Done | Error(message: String)

  /** A reader for the three event shapes the route writes. */
  function ReadEvent(line: String): Option<Event> {
    if line == DONE_LINE then Some(Done)
    else if StartsWith(line, CONTENT_OPEN) then
      match Field(line, CONTENT_OPEN)
      case Some(t) => Some(Content(t))
      case None => None
    else
      match Field(line, ERROR_OPEN)
      case Some(t) => Some(Error(t))
      case None => None
  }

  /** What each event means to a client. */
  function Meaning(e: Emit): Event {
    match e
    case ContentEmit(c) => Content(c)
    case DoneEmit => Done
    case StatusError(st, body) => Error(NewlinesToSpaces(StatusMessage(st, body)))
    case FailureEmit(m) => Error(NewlinesToSpaces(m))
  }

  /** Every written event reads back as what it means: content exactly,
      error messages with newlines turned into spaces. */
  lemma RenderReadsBack(e: Emit)
    ensures ReadEvent(Render(e)) == Some(Meaning(e))
  {
    match e
    case ContentEmit(c) =>
      var x := EscapeContent(c);
      FieldOf(CONTENT_OPEN, x);
      assert ContentLine(c)[..|CONTENT_OPEN|] == CONTENT_OPEN;
      assert |ContentLine(c)| != |DONE_LINE|;
    case DoneEmit =>
    case StatusError(st, body) =>
      ErrorLineReads(EscapeError(StatusMessage(st, body)));
    case FailureEmit(m) =>
      ErrorLineReads(EscapeError(m));
  }

  lemma ErrorLineReads(x: String)
    ensures ReadEvent(ErrorLine(x)) == match ReadStringBody(x) case Some(t) => Some(Error(t)) case None => None
  {
    var line := ErrorLine(x);
    FieldOf(ERROR_OPEN, x);
    assert |line| != |DONE_LINE|;
    assert line[8] == 'e' && CONTENT_OPEN[8] == 'c';
    assert !StartsWith(line, CONTENT_OPEN) by {
      if |CONTENT_OPEN| <= |line| {
        assert line[..|CONTENT_OPEN|][8] != CONTENT_OPEN[8];
      }
    }
  }

  /** The lines written for a sequence of emissions, one each, in order. */
  function RenderAll(es: seq<Emit>): seq<String> {
    seq(|es|, i requires 0 <= i < |es| => Render(es[i]))
  }

  /** What a client should read from the whole stream. */
  function ExpectedEvents(decode: ChunkDecoder, up: Upstream): seq<Event> {
    match up
    case Threw(m) => [Error(NewlinesToSpaces(m.GetOr("Unknown error")))]
    case Responded(st, body, lines) =>
      if !IsOk(st) then [Error(NewlinesToSpaces(StatusMessage(st, body)))]
      else
        var k := DoneIndex(lines);
        var cs := Contents(decode, lines[..k]);
        seq(|cs|, i requires 0 <= i < |cs| => Content(cs[i])) + (if k < |lines| then [Done] else [])
  }

  /** The route end to end: a client reading the written stream gets one
      error for a failure or an error status, and otherwise the content of
      every chunk before the first `[DONE]`, in order, then `[DONE]` if the
      upstream sent one. */
  lemma RelayReadsBack(decode: ChunkDecoder, up: Upstream)
    ensures var out := RenderAll(Relay(decode, up));
      var ev := ExpectedEvents(decode, up);
      && |out| == |ev|
      && forall i :: 0 <= i < |out| ==> ReadEvent(out[i]) == Some(ev[i])
  {
    var es := Relay(decode, up);
    forall i | 0 <= i < |es| ensures ReadEvent(Render(es[i])) == Some(Meaning(es[i])) {
      RenderReadsBack(es[i]);
    }
    if up.Responded? && IsOk(up.status) {
      RelayLinesMeans(decode, up.lines);
    }
  }

  // ---------------------------------------------------------------------------
  // The escaping defects of the route as written

  /** As written, a content event reads back exactly when the content has
      no carriage return: a raw carriage return inside the event ends the
      line for an SSE reader. */
  lemma ContentAsWrittenReadsBack(c: String)
    ensures ReadEvent(RenderAsWritten(ContentEmit(c)))
         == if '\r' in c then None else Some(Content(c))
  {
    var x := EscapeContentAsWritten(c);
    FieldOf(CONTENT_OPEN, x);
    assert ContentLineAsWritten(c)[..|CONTENT_OPEN|] == CONTENT_OPEN;
    assert |ContentLineAsWritten(c)| != |DONE_LINE|;
  }

  /** The content `"a\r\nb"` (a Windows line ending) does not read back as
      written, and does with the corrected escape. */
  lemma CrLfContentBreaksEvent()
    ensures ReadEvent(RenderAsWritten(ContentEmit("a\r\nb"))) == None
    ensures ReadEvent(Render(ContentEmit("a\r\nb"))) == Some(Content("a\r\nb"))
  {
    var c := "a\r\nb";
    assert c[1] == '\r';
    ContentAsWrittenReadsBack(c);
    RenderReadsBack(ContentEmit(c));
  }

  /** A JSON string body whose first quote has no backslash anywhere before
      it does not read. */
  lemma {:induction false} RawQuoteUnreadable(a: String, b: String)
    requires '\\' !in a
    ensures ReadStringBody(a + "\"" + b) == None
    decreases |a|
  {
    var s := a + "\"" + b;
    if a != [] {
      assert s[0] == a[0];
      assert s[1..] == a[1..] + "\"" + b;
      RawQuoteUnreadable(a[1..], b);
    }
  }

  /** As written, an error status whose body holds a quote with no backslash
      before it (the upstream's JSON error bodies do) yields an event that
      does not read back as the error message: the quote ends the string
      early. */
  lemma StatusBodyBreaksEvent(st: Status, a: String, b: String)
    requires '\\' !in st.description && '\\' !in a
    ensures ReadEvent(RenderAsWritten(StatusError(st, a + "\"" + b))) == None
  {
    var m := StatusMessage(st, a + "\"" + b);
    var pre := "DeepSeek API error: " + StatusText(st) + " - " + a;
    assert m == pre + "\"" + b;
    IntToStringChars(st.value);
    assert '\\' !in pre;
    RawQuoteUnreadable(pre, b);
    ErrorLineReads(m);
  }

  lemma IntToStringChars(n: int)
    ensures forall i :: 0 <= i < |IntToString(n)| ==> IsDigit(IntToString(n)[i]) || IntToString(n)[i] == '-'
  {
    if n < 0 {
      var t := NatToString(-n);
      assert forall i :: 1 <= i < |IntToString(n)| ==> IntToString(n)[i] == t[i - 1];
    }
  }

  /** As written, an exception message that is a single backslash yields an
      error event that does not read back: the backslash escapes the closing
      quote. */
  lemma FailureBackslashBreaksEvent()
    ensures ReadEvent(RenderAsWritten(FailureEmit("\\"))) == None
  {
    ErrorEscapeLosesTrailingBackslash();
    ErrorLineReads(EscapeErrorAsWritten("\\"));
  }
}
