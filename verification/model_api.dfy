/**
 * The client side of the model-comparison stream: `streamModelComparison`
 * reads the route's server-sent events line by line and hands one typed
 * `ModelStreamEvent` per recognised `data:` line to `onEvent`. Unknown
 * event types, payloads that do not decode and metrics without data give
 * nothing; `done` is delivered but does not stop the reading.
 *
 * The lines read from the response body are an input, followed by how the
 * body ended (`HttpBody.BodyEnd`); the four kotlinx.serialization decodings
 * (`SseGeneric`, `SseModelStart`, `SseModelResult`, `SseMetrics`) are
 * oracles, `None` when decoding raises. The events passed to `onEvent` are
 * returned as a sequence.
 */
module ModelApi {
  import opened Wrappers
  import opened Text
  import opened HttpBody

  const DATA_PREFIX := "data: "

  /** `ModelMetrics` without `estimatedCost`, a floating-point value this
      model does not carry. */
  datatype ModelMetrics = ModelMetrics(
    modelId: String,
    modelLabel: String,
    responseTimeMs: int,
    promptTokens: int,
    completionTokens: int,
    totalTokens: int)

  /** `ModelStreamEvent`. */
  datatype Event =
    | ModelStart(model: String, startLabel: String)
    | ModelResult(index: int, resultLabel: String, content: String)
    | Metrics(index: int, data: ModelMetrics)
    | Done
    | Error(message: String)

  datatype SseGeneric = SseGeneric(kind: String, message: Option<String>)
  datatype SseModelStart = SseModelStart(model: String, startLabel: String)
  datatype SseModelResult = SseModelResult(index: int, resultLabel: String, content: String)
  datatype SseMetrics = SseMetrics(index: int, data: Option<ModelMetrics>)

  /** The decoders the client applies to a payload. */
  datatype Decoders = Decoders(
    generic: String -> Option<SseGeneric>,
    start: String -> Option<SseModelStart>,
    result: String -> Option<SseModelResult>,
    metrics: String -> Option<SseMetrics>)

  /** The payload of a `data: ` line, trimmed; none for other lines and for
      an empty payload. */
  function Payload(line: String): Option<String> {
    if !StartsWith(line, DATA_PREFIX) then None
    else
      var data := Trim(RemovePrefix(line, DATA_PREFIX));
      if data == [] then None else Some(data)
  }

  /** The event one payload yields, selected by its `type`. */
  function EventOfPayload(dec: Decoders, data: String): Option<Event> {
    match dec.generic(data)
    case None => None
    case Some(g) =>
      if g.kind == "model_start" then
        match dec.start(data)
        case Some(e) => Some(ModelStart(e.model, e.startLabel))
        case None => None
      else if g.kind == "model_result" then
        match dec.result(data)
        case Some(e) => Some(ModelResult(e.index, e.resultLabel, e.content))
        case None => None
      else if g.kind == "metrics" then
        match dec.metrics(data)
        case Some(e) => if e.data.Some? then Some(Metrics(e.index, e.data.value)) else None
        case None => None
      else if g.kind == "done" then Some(Done)
      else if g.kind == "error" then Some(Error(g.message.GetOr("Unknown error")))
      else None
  }

  /** The event one line yields, if any. */
  function EventOf(dec: Decoders, line: String): Option<Event> {
    match Payload(line)
    case None => None
    case Some(data) => EventOfPayload(dec, data)
  }

  /** Reference reading: the events of the lines, one per line at most, in
      line order. */
  function Events(dec: Decoders, lines: seq<String>): seq<Event> {
    if lines == [] then []
    else
      var e := EventOf(dec, lines[|lines| - 1]);
      Events(dec, lines[..|lines| - 1]) + (if e.Some? then [e.value] else [])
  }

  // ---------------------------------------------------------------------------
  // The client loop

  /** `streamModelComparison`: it delivers the events of all the lines, in
      order, and then raises exactly when the body failed (a dropped
      connection, a failed read or the 300 s request timeout) rather than
      closing. `onEvent` is assumed not to raise (the loop would swallow
      it). */
  method StreamModelComparison(dec: Decoders, lines: seq<String>, end: BodyEnd)
    returns (events: seq<Event>, raised: bool)
    ensures events == Events(dec, lines)
    ensures |events| <= |lines|
    ensures raised <==> end == Fails
  {
    events := [];
    var i := 0;
    while i < |lines|
      invariant i <= |lines|
      invariant events == Events(dec, lines[..i])
      invariant |events| <= i
    {
      assert lines[..i + 1][..i] == lines[..i];
      var line := lines[i];
      if StartsWith(line, DATA_PREFIX) {
        var data := Trim(RemovePrefix(line, DATA_PREFIX));
        if data != [] {
          var g := dec.generic(data);
          if g.Some? {
            var kind := g.value.kind;
            if kind == "model_start" {
              var e := dec.start(data);
              if e.Some? {
                events := events + [ModelStart(e.value.model, e.value.startLabel)];
              }
            } else if kind == "model_result" {
              var e := dec.result(data);
              if e.Some? {
                events := events + [ModelResult(e.value.index, e.value.resultLabel, e.value.content)];
              }
            } else if kind == "metrics" {
              var e := dec.metrics(data);
              if e.Some? && e.value.data.Some? {
                events := events + [Metrics(e.value.index, e.value.data.value)];
              }
            } else if kind == "done" {
              events := events + [Done];
            } else if kind == "error" {
              events := events + [Error(g.value.message.GetOr("Unknown error"))];
            }
          }
        }
      }
      i := i + 1;
    }
    assert lines[..i] == lines;
    raised := end == Fails;
  }

  // ---------------------------------------------------------------------------
  // Properties of the reading

  /** Reading is a homomorphism: the events of two runs of lines are the
      events of each, one after the other. */
  lemma {:induction false} EventsAppend(dec: Decoders, a: seq<String>, b: seq<String>)
    ensures Events(dec, a + b) == Events(dec, a) + Events(dec, b)
    decreases |b|
  {
    if b == [] {
      assert a + b == a;
    } else {
      var n := |b| - 1;
      assert (a + b)[..|a + b| - 1] == a + b[..n];
      assert (a + b)[|a + b| - 1] == b[n];
      EventsAppend(dec, a, b[..n]);
    }
  }

  /** Every delivered event comes from a line, and every line with an event
      delivers it: the events are exactly the lines' events, in order. */
  lemma {:induction false} EventsFromLines(dec: Decoders, lines: seq<String>)
    ensures forall e :: e in Events(dec, lines) ==> exists i :: 0 <= i < |lines| && EventOf(dec, lines[i]) == Some(e)
    ensures forall i :: 0 <= i < |lines| && EventOf(dec, lines[i]).Some? ==> EventOf(dec, lines[i]).value in Events(dec, lines)
    decreases |lines|
  {
    if lines != [] {
      var n := |lines| - 1;
      var init := lines[..n];
      EventsFromLines(dec, init);
      forall e | e in Events(dec, lines)
        ensures exists i :: 0 <= i < |lines| && EventOf(dec, lines[i]) == Some(e)
      {
        if e in Events(dec, init) {
          var i :| 0 <= i < |init| && EventOf(dec, init[i]) == Some(e);
          assert lines[i] == init[i];
        } else {
          assert EventOf(dec, lines[n]) == Some(e);
        }
      }
      forall i | 0 <= i < |lines| && EventOf(dec, lines[i]).Some?
        ensures EventOf(dec, lines[i]).value in Events(dec, lines)
      {
        if i < n {
          assert lines[i] == init[i];
        }
      }
    }
  }

  /** A `done` event does not end the reading: the lines after it are read
      as well. */
  lemma DoneDoesNotStop(dec: Decoders, a: seq<String>, doneLine: String, b: seq<String>)
    requires EventOf(dec, doneLine) == Some(Done)
    ensures Events(dec, a + [doneLine] + b) == Events(dec, a) + [Done] + Events(dec, b)
  {
    EventsAppend(dec, a + [doneLine], b);
    EventsAppend(dec, a, [doneLine]);
    assert [doneLine][..0] == [];
  }

  /** Lines that are not `data: ` lines, or carry an empty payload, yield
      nothing, whatever the decoders would say. */
  lemma NonDataLinesIgnored(dec: Decoders, line: String)
    requires !StartsWith(line, DATA_PREFIX) || AllWhitespace(RemovePrefix(line, DATA_PREFIX))
    ensures EventOf(dec, line) == None
  {
    if StartsWith(line, DATA_PREFIX) {
      TrimShape(RemovePrefix(line, DATA_PREFIX));
    }
  }

  /** The events of one line land between those of the lines around it. */
  lemma LineBetween(dec: Decoders, a: seq<String>, line: String, b: seq<String>)
    ensures Events(dec, a + [line] + b)
         == Events(dec, a) + (if EventOf(dec, line).Some? then [EventOf(dec, line).value] else []) + Events(dec, b)
  {
    EventsAppend(dec, a + [line], b);
    EventsAppend(dec, a, [line]);
    assert [line][..0] == [];
  }

  /** The `type` of a decodable payload selects the event delivered in its
      place; an `error` without a message is reported as "Unknown error". */
  lemma KindSelectsVariant(dec: Decoders, a: seq<String>, line: String, b: seq<String>, data: String, g: SseGeneric)
    requires Payload(line) == Some(data) && dec.generic(data) == Some(g)
    ensures var around := (e: Event) => Events(dec, a) + [e] + Events(dec, b);
      && (g.kind == "model_start" && dec.start(data).Some? ==>
            Events(dec, a + [line] + b) == around(ModelStart(dec.start(data).value.model, dec.start(data).value.startLabel)))
      && (g.kind == "model_result" && dec.result(data).Some? ==>
            Events(dec, a + [line] + b)
            == around(ModelResult(dec.result(data).value.index, dec.result(data).value.resultLabel, dec.result(data).value.content)))
      && (g.kind == "metrics" && dec.metrics(data).Some? && dec.metrics(data).value.data.Some? ==>
            Events(dec, a + [line] + b) == around(Metrics(dec.metrics(data).value.index, dec.metrics(data).value.data.value)))
      && (g.kind == "done" ==> Events(dec, a + [line] + b) == around(Done))
      && (g.kind == "error" && g.message.Some? ==> Events(dec, a + [line] + b) == around(Error(g.message.value)))
      && (g.kind == "error" && g.message.None? ==> Events(dec, a + [line] + b) == around(Error("Unknown error")))
  {
    LineBetween(dec, a, line, b);
  }

  /** A payload whose `type` is unknown, that one of the decoders rejects,
      or that is a `metrics` event without data is skipped and reading
      carries on. */
  lemma RejectedPayloadSkipped(dec: Decoders, a: seq<String>, line: String, b: seq<String>, data: String)
    requires Payload(line) == Some(data)
    requires || dec.generic(data).None?
             || (var k := dec.generic(data).value.kind;
                 || (k != "model_start" && k != "model_result" && k != "metrics" && k != "done" && k != "error")
                 || (k == "model_start" && dec.start(data).None?)
                 || (k == "model_result" && dec.result(data).None?)
                 || (k == "metrics" && (dec.metrics(data).None? || dec.metrics(data).value.data.None?)))
    ensures Events(dec, a + [line] + b) == Events(dec, a) + Events(dec, b)
  {
    LineBetween(dec, a, line, b);
    assert EventOf(dec, line) == None;
  }
}
