/**
 * The client side of the temperature stream: `streamTemperatureResult`
 * reads the relay's server-sent events line by line, hands each content
 * chunk to `onToken` and returns the concatenated text, stops at `[DONE]`,
 * skips what it cannot decode, and raises on an error chunk.
 *
 * The lines read from the response body are an input, followed by how the
 * body ended (`HttpBody.BodyEnd`); decoding a payload with
 * kotlinx.serialization is an oracle (`ChunkDecoder`, `None` when decoding
 * raises). The tokens passed to `onToken` are returned as a sequence.
 */
module TemperatureApi {
  import opened Wrappers
  import opened Text
  import opened HttpBody

  const DATA_PREFIX := "data: "
  const DONE_MARK := "[DONE]"

  /** `StreamChunk(content, error)`, both optional. */
  datatype StreamChunk = StreamChunk(content: Option<String>, error: Option<String>)

  type ChunkDecoder = String -> Option<StreamChunk>

  /** What the loop does with one line. */
  datatype Action = Skip | Stop | Raise(message: String) | Token(content: String)

  /** How the call ends: the accumulated text, the `RuntimeException`
      raised for an error chunk, or the exception of a failed request or
      read (including the 120 s request timeout). */
  datatype ClientResult = Returned(text: String) | Threw(message: String) | RequestFailed

  /** One turn of the loop: lines without the `data: ` prefix and payloads
      that do not decode are skipped, `[DONE]` stops, an error is checked
      before content, and a chunk with neither is skipped. */
  function ActionOf(decode: ChunkDecoder, line: String): Action {
    if !StartsWith(line, DATA_PREFIX) then Skip
    else
      var data := Trim(RemovePrefix(line, DATA_PREFIX));
      if data == DONE_MARK then Stop
      else
        match decode(data)
        case None => Skip
        case Some(chunk) =>
          if chunk.error.Some? then Raise(chunk.error.value)
          else if chunk.content.Some? then Token(chunk.content.value)
          else Skip
  }

  predicate Ends(decode: ChunkDecoder, line: String) {
    ActionOf(decode, line).Stop? || ActionOf(decode, line).Raise?
  }

  // ---------------------------------------------------------------------------
  // Reference reading

  /** Where reading ends: the first `[DONE]` or error line, or the end. */
  function EndIndex(decode: ChunkDecoder, lines: seq<String>): (k: nat)
    ensures k <= |lines|
  {
    if lines == [] then 0
    else if Ends(decode, lines[0]) then 0
    else 1 + EndIndex(decode, lines[1..])
  }

  /** No line before the end index ends reading, and the line at it does. */
  lemma {:induction false} EndIndexShape(decode: ChunkDecoder, lines: seq<String>)
    ensures var k := EndIndex(decode, lines);
      && (forall i :: 0 <= i < k ==> !Ends(decode, lines[i]))
      && (k < |lines| ==> Ends(decode, lines[k]))
    decreases |lines|
  {
    if lines != [] && !Ends(decode, lines[0]) {
      EndIndexShape(decode, lines[1..]);
      var k := EndIndex(decode, lines);
      forall i | 1 <= i < k ensures !Ends(decode, lines[i]) {
        assert lines[i] == lines[1..][i - 1];
      }
      if k < |lines| {
        assert lines[k] == lines[1..][k - 1];
      }
    }
  }

  /** The content of every content line, in order. */
  function Tokens(decode: ChunkDecoder, lines: seq<String>): seq<String> {
    if lines == [] then []
    else
      var last := ActionOf(decode, lines[|lines| - 1]);
      Tokens(decode, lines[..|lines| - 1]) + (if last.Token? then [last.content] else [])
  }

  lemma {:induction false} TokensAppend(decode: ChunkDecoder, a: seq<String>, b: seq<String>)
    ensures Tokens(decode, a + b) == Tokens(decode, a) + Tokens(decode, b)
    decreases |b|
  {
    if b == [] {
      assert a + b == a;
    } else {
      var n := |b| - 1;
      assert (a + b)[..|a + b| - 1] == a + b[..n];
      assert (a + b)[|a + b| - 1] == b[n];
      TokensAppend(decode, a, b[..n]);
    }
  }

  /** The message of the error line at `k`, if there is one. */
  function ErrorAt(decode: ChunkDecoder, lines: seq<String>, k: nat): Option<String> {
    if k < |lines| && ActionOf(decode, lines[k]).Raise? then Some(ActionOf(decode, lines[k]).message) else None
  }

  lemma ErrorAtShift(decode: ChunkDecoder, x: seq<String>, y: seq<String>, k: nat)
    requires k <= |y|
    ensures ErrorAt(decode, x + y, |x| + k) == ErrorAt(decode, y, k)
  {
    if k < |y| {
      assert (x + y)[|x| + k] == y[k];
    }
  }

  // ---------------------------------------------------------------------------
  // The client loop

  /** `streamTemperatureResult`: the tokens delivered are the contents of
      the content lines before the first `[DONE]` or error line; the call
      raises with the error chunk's message if that line is an error, fails
      with the request if the body fails before either such line, and
      otherwise returns exactly the delivered tokens concatenated. */
  method StreamTemperatureResult(decode: ChunkDecoder, lines: seq<String>, end: BodyEnd)
    returns (r: ClientResult, tokens: seq<String>)
    ensures var k := EndIndex(decode, lines);
      && tokens == Tokens(decode, lines[..k])
      && (r.Threw? <==> k < |lines| && ActionOf(decode, lines[k]).Raise?)
      && (r.Threw? ==> r.message == ActionOf(decode, lines[k]).message)
      && (r.RequestFailed? <==> k == |lines| && end == Fails)
      && (r.Returned? ==> r.text == Concat(tokens))
  {
    EndIndexShape(decode, lines);
    var full: String := [];
    tokens := [];
    var i := 0;
    while i < |lines|
      invariant i <= EndIndex(decode, lines)
      invariant tokens == Tokens(decode, lines[..i])
      invariant full == Concat(tokens)
    {
      var action := ActionOf(decode, lines[i]);
      assert lines[..i + 1][..i] == lines[..i];
      match action {
        case Skip =>
        case Stop =>
          r := Returned(full);
          return;
        case Raise(m) =>
          r := Threw(m);
          return;
        case Token(c) =>
          ConcatAppend(tokens, c);
          full := full + c;
          tokens := tokens + [c];
      }
      i := i + 1;
    }
    assert lines[..i] == lines;
    if end == Fails {
      r := RequestFailed;
    } else {
      r := Returned(full);
    }
  }

  // ---------------------------------------------------------------------------
  // The loop as a fold, and what it means

  /** What a reading of the whole stream comes to: the tokens delivered
      and, if it raised, the error message. */
  datatype Reading = Reading(tokens: seq<String>, error: Option<String>)

  /** The loop read as a fold over the lines, front to back. */
  function Read(decode: ChunkDecoder, lines: seq<String>): Reading {
    if lines == [] then Reading([], None)
    else
      match ActionOf(decode, lines[0])
      case Skip => Read(decode, lines[1..])
      case Stop => Reading([], None)
      case Raise(m) => Reading([], Some(m))
      case Token(c) =>
        var rest := Read(decode, lines[1..]);
        Reading([c] + rest.tokens, rest.error)
  }

  /** The fold delivers the content lines before the first `[DONE]` or
      error line, and raises exactly when that line is an error. */
  lemma {:induction false} ReadMeans(decode: ChunkDecoder, lines: seq<String>)
    ensures var k := EndIndex(decode, lines);
      Read(decode, lines) == Reading(Tokens(decode, lines[..k]), ErrorAt(decode, lines, k))
    decreases |lines|
  {
    if lines != [] && !Ends(decode, lines[0]) {
      var rest := lines[1..];
      ReadMeans(decode, rest);
      var k := EndIndex(decode, rest);
      assert lines == [lines[0]] + rest;
      PrefixOfAppend([lines[0]], rest, k);
      TokensAppend(decode, [lines[0]], rest[..k]);
      assert [lines[0]][..0] == [];
      ErrorAtShift(decode, [lines[0]], rest, k);
    }
  }

  lemma PrefixOfAppend<T>(x: seq<T>, y: seq<T>, j: nat)
    requires j <= |y|
    ensures (x + y)[..|x| + j] == x + y[..j]
  {
  }

  // ---------------------------------------------------------------------------
  // Properties of the reading

  /** Nothing after the first `[DONE]` or error line is read. */
  lemma {:induction false} EndIgnoresRest(decode: ChunkDecoder, a: seq<String>, b: seq<String>)
    requires EndIndex(decode, a) < |a|
    ensures Read(decode, a + b) == Read(decode, a)
    decreases |a|
  {
    assert (a + b)[0] == a[0];
    if !Ends(decode, a[0]) {
      assert (a + b)[1..] == a[1..] + b;
      EndIgnoresRest(decode, a[1..], b);
    }
  }

  /** Reading is incremental: if the first lines end nothing, their tokens
      come first and reading carries on into the rest. */
  lemma {:induction false} ReadAppend(decode: ChunkDecoder, a: seq<String>, b: seq<String>)
    requires EndIndex(decode, a) == |a|
    ensures Read(decode, a + b) == Reading(Read(decode, a).tokens + Read(decode, b).tokens, Read(decode, b).error)
    decreases |a|
  {
    if a == [] {
      assert a + b == b;
    } else {
      assert (a + b)[0] == a[0];
      assert (a + b)[1..] == a[1..] + b;
      ReadAppend(decode, a[1..], b);
      if ActionOf(decode, a[0]).Token? {
        assert [ActionOf(decode, a[0]).content] + (Read(decode, a[1..]).tokens + Read(decode, b).tokens)
          == ([ActionOf(decode, a[0]).content] + Read(decode, a[1..]).tokens) + Read(decode, b).tokens;
      }
    }
  }

  /** A skipped line (no `data: ` prefix, an undecodable payload, or a
      chunk with neither content nor error) changes nothing. */
  lemma {:induction false} SkipChangesNothing(decode: ChunkDecoder, a: seq<String>, line: String, b: seq<String>)
    requires ActionOf(decode, line) == Skip
    ensures Read(decode, a + [line] + b) == Read(decode, a + b)
    decreases |a|
  {
    if a == [] {
      assert a + [line] + b == [line] + b;
      assert ([line] + b)[1..] == b;
      assert a + b == b;
    } else {
      assert (a + [line] + b)[0] == a[0] == (a + b)[0];
      assert (a + [line] + b)[1..] == a[1..] + [line] + b;
      assert (a + b)[1..] == a[1..] + b;
      SkipChangesNothing(decode, a[1..], line, b);
    }
  }

  /** A chunk carrying an error raises with its message, even if it also
      carries content, and nothing after it is delivered. */
  lemma ErrorChunkRaises(decode: ChunkDecoder, a: seq<String>, line: String, b: seq<String>, m: String)
    requires EndIndex(decode, a) == |a|
    requires StartsWith(line, DATA_PREFIX) && Trim(RemovePrefix(line, DATA_PREFIX)) != DONE_MARK
    requires var c := decode(Trim(RemovePrefix(line, DATA_PREFIX))); c.Some? && c.value.error == Some(m)
    ensures Read(decode, a + [line] + b) == Reading(Read(decode, a).tokens, Some(m))
  {
    assert ActionOf(decode, line) == Raise(m);
    assert a + [line] + b == a + ([line] + b);
    assert ([line] + b)[0] == line;
    ReadAppend(decode, a, [line] + b);
  }

  /** A `[DONE]` line stops reading whatever the decoder would make of it. */
  lemma DoneStops(decode: ChunkDecoder, pad: String)
    requires AllWhitespace(pad)
    ensures ActionOf(decode, DATA_PREFIX + DONE_MARK + pad) == Stop
  {
    var line := DATA_PREFIX + DONE_MARK + pad;
    assert line[..|DATA_PREFIX|] == DATA_PREFIX;
    assert RemovePrefix(line, DATA_PREFIX) == DONE_MARK + pad;
    TrimPadded(DONE_MARK, pad);
  }
}
