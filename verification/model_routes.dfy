/**
 * The `/api/models/stream` route: the same prompt goes to three model
 * tiers in parallel, and the route writes one `model_start` event per tier
 * up front, then, as each call completes, either a `model_result` event
 * followed by its `metrics` event or one `error` event, and finally
 * `done`. An exception escaping the whole block replaces the rest of the
 * stream with one `error` event.
 *
 * The three upstream calls are inputs: what each returned or raised
 * (`Outcomes`) and the order in which they completed (a permutation of the
 * tier indices). Response times, cost estimation and the metrics JSON
 * encoder are not modelled beyond an encoder oracle (`MetricsEncoder`).
 */
module ModelRoutes {
  import opened Wrappers
  import opened Text
  import opened JsonEscape

  datatype ModelConfig = ModelConfig(id: String, tierLabel: String, maxTokens: Option<int>)

  /** The three tiers, in the order their start events are written. */
  const MODEL_TIERS: seq<ModelConfig> := [
    ModelConfig("deepseek-chat", "Weak (chat, 100 tokens)", Some(100)),
    ModelConfig("deepseek-chat", "Medium (chat, full)", None),
    ModelConfig("deepseek-reasoner", "Strong (reasoner)", None)
  ]

  datatype Usage = Usage(promptTokens: int, completionTokens: int, totalTokens: int)

  /** How one tier's call ended: it answered with the first choice's
      content (`""` when there is none) and the reported usage, or it
      raised, with the exception's message if it had one. */
  datatype Outcome =
    | Answered(content: String, usage: Option<Usage>)
    | Raised(message: Option<String>)

  /** The outcome of the call made for each tier index. */
  type Outcomes = nat -> Outcome

  /** The record each tier's coroutine sends into the results channel. */
  datatype TierResult = TierResult(
    index: nat,
    config: ModelConfig,
    content: String,
    usage: Option<Usage>,
    error: Option<String>)

  /** The token counts of a metrics event, before JSON encoding. */
  datatype Metrics = Metrics(
    modelId: String,
    modelLabel: String,
    promptTokens: int,
    completionTokens: int,
    totalTokens: int)

  /** One event of the stream, before it is written as text. */
  datatype Line =
    | StartLine(model: String, tierLabel: String)
    | ResultLine(index: nat, tierLabel: String, content: String)
    | MetricsLine(index: nat, data: Metrics)
    | TierErrorLine(index: nat, tierLabel: String, message: String)
    | FailureLine(message: String)
    | DoneLine

  /** The exception, if any, that escapes the route's outer block: the
      write of the line at position `written` raised. */
  datatype Fault = NoFault | FaultAt(written: nat, message: Option<String>)

  // ---------------------------------------------------------------------------
  // The route

  /** What a tier's coroutine sends: on success the content and usage, on
      an exception empty content, no usage and the exception's message. */
  function ResultOf(index: nat, o: Outcome): (r: TierResult)
    requires index < |MODEL_TIERS|
    ensures r.index == index && r.config == MODEL_TIERS[index]
  {
    match o
    case Answered(c, u) => TierResult(index, MODEL_TIERS[index], c, u, None)
    case Raised(m) => TierResult(index, MODEL_TIERS[index], "", None, m)
  }

  /** The metrics of a result: the usage counts, or zero when the upstream
      reported no usage. */
  function MetricsOf(r: TierResult): (m: Metrics)
    ensures m.modelId == r.config.id && m.modelLabel == r.config.tierLabel
    ensures r.usage.None? ==> m.promptTokens == 0 && m.completionTokens == 0 && m.totalTokens == 0
    ensures r.usage.Some? ==>
      (&& m.promptTokens == r.usage.value.promptTokens
       && m.completionTokens == r.usage.value.completionTokens
       && m.totalTokens == r.usage.value.totalTokens)
  {
    match r.usage
    case Some(u) => Metrics(r.config.id, r.config.tierLabel, u.promptTokens, u.completionTokens, u.totalTokens)
    case None => Metrics(r.config.id, r.config.tierLabel, 0, 0, 0)
  }

  /** The lines written for one result taken from the channel. */
  function LinesOf(r: TierResult): seq<Line> {
    match r.error
    case Some(m) => [TierErrorLine(r.index, r.config.tierLabel, m)]
    case None => [ResultLine(r.index, r.config.tierLabel, r.content), MetricsLine(r.index, MetricsOf(r))]
  }

  /** Draining the channel: each result's lines, in arrival order. Only
      result, metrics and tier-error lines are written here. */
  function Drain(rs: seq<TierResult>): (lines: seq<Line>)
    ensures forall i :: 0 <= i < |lines| ==> !lines[i].StartLine? && !lines[i].DoneLine? && !lines[i].FailureLine?
  {
    if rs == [] then [] else LinesOf(rs[0]) + Drain(rs[1..])
  }

  function StartLines(): (lines: seq<Line>)
    ensures |lines| == |MODEL_TIERS|
    ensures forall t :: 0 <= t < |MODEL_TIERS| ==> lines[t] == StartLine(MODEL_TIERS[t].id, MODEL_TIERS[t].tierLabel)
  {
    seq(|MODEL_TIERS|, t requires 0 <= t < |MODEL_TIERS| => StartLine(MODEL_TIERS[t].id, MODEL_TIERS[t].tierLabel))
  }

  /** An order in which the three calls can complete: each tier index once. */
  predicate IsCompletionOrder(order: seq<nat>) {
    && |order| == |MODEL_TIERS|
    && (forall j :: 0 <= j < |order| ==> order[j] < |MODEL_TIERS|)
    && (forall j, k :: 0 <= j < k < |order| ==> order[j] != order[k])
  }

  /** The channel's contents, in completion order. */
  function Arrivals(order: seq<nat>, o: Outcomes): (rs: seq<TierResult>)
    requires IsCompletionOrder(order)
    ensures |rs| == |order|
    ensures forall j :: 0 <= j < |order| ==> rs[j] == ResultOf(order[j], o(order[j]))
  {
    seq(|order|, j requires 0 <= j < |order| => ResultOf(order[j], o(order[j])))
  }

  /** The stream when nothing escapes the outer block. */
  function Normal(order: seq<nat>, o: Outcomes): seq<Line>
    requires IsCompletionOrder(order)
  {
    StartLines() + Drain(Arrivals(order, o)) + [DoneLine]
  }

  /** The whole stream: if a write raises, the lines before it stand and
      one error line with the exception's message (or "Unknown error")
      ends the stream. */
  function Stream(order: seq<nat>, o: Outcomes, fault: Fault): seq<Line>
    requires IsCompletionOrder(order)
  {
    var normal := Normal(order, o);
    match fault
    case FaultAt(n, m) =>
      if n < |normal| then normal[..n] + [FailureLine(m.GetOr("Unknown error"))] else normal
    case NoFault => normal
  }

  // ---------------------------------------------------------------------------
  // Reference: the lines each tier owns

  /** The lines a tier's outcome should produce. */
  function TierLines(t: nat, o: Outcome): (lines: seq<Line>)
    requires t < |MODEL_TIERS|
    ensures o.Raised? && o.message.Some? ==> lines == [TierErrorLine(t, MODEL_TIERS[t].tierLabel, o.message.value)]
    ensures o.Answered? ==> lines == [
      ResultLine(t, MODEL_TIERS[t].tierLabel, o.content),
      MetricsLine(t, MetricsOf(TierResult(t, MODEL_TIERS[t], o.content, o.usage, None)))]
    ensures o.Raised? && o.message.None? ==> lines == [
      ResultLine(t, MODEL_TIERS[t].tierLabel, ""),
      MetricsLine(t, Metrics(MODEL_TIERS[t].id, MODEL_TIERS[t].tierLabel, 0, 0, 0))]
  {
    LinesOf(ResultOf(t, o))
  }

  predicate OwnedBy(l: Line, t: nat) {
    (l.ResultLine? || l.MetricsLine? || l.TierErrorLine?) && l.index == t
  }

  /** The lines of a stream that belong to tier `t`, in order. */
  function Owned(lines: seq<Line>, t: nat): (r: seq<Line>)
    ensures forall i :: 0 <= i < |r| ==> OwnedBy(r[i], t)
  {
    if lines == [] then []
    else (if OwnedBy(lines[0], t) then [lines[0]] else []) + Owned(lines[1..], t)
  }

  lemma {:induction false} OwnedAppend(a: seq<Line>, b: seq<Line>, t: nat)
    ensures Owned(a + b, t) == Owned(a, t) + Owned(b, t)
    decreases |a|
  {
    if a == [] {
      assert a + b == b;
    } else {
      assert (a + b)[0] == a[0];
      assert (a + b)[1..] == a[1..] + b;
      OwnedAppend(a[1..], b, t);
    }
  }

  lemma OwnedLinesOf(r: TierResult, t: nat)
    ensures Owned(LinesOf(r), t) == if r.index == t then LinesOf(r) else []
  {
    var ls := LinesOf(r);
    if r.error.Some? {
      assert ls[1..] == [];
    } else {
      var rest := ls[1..];
      assert rest == [ls[1]];
      assert rest[1..] == [];
      assert rest[0] == ls[1];
      assert Owned(rest, t) == (if OwnedBy(ls[1], t) then [ls[1]] else []);
    }
  }

  lemma {:induction false} OwnedDrain(rs: seq<TierResult>, t: nat, j: nat)
    requires j < |rs| && rs[j].index == t
    requires forall k :: 0 <= k < |rs| && k != j ==> rs[k].index != t
    ensures Owned(Drain(rs), t) == LinesOf(rs[j])
    decreases |rs|
  {
    OwnedAppend(LinesOf(rs[0]), Drain(rs[1..]), t);
    OwnedLinesOf(rs[0], t);
    if j == 0 {
      OwnedDrainNone(rs[1..], t);
    } else {
      OwnedDrain(rs[1..], t, j - 1);
    }
  }

  lemma {:induction false} OwnedDrainNone(rs: seq<TierResult>, t: nat)
    requires forall k :: 0 <= k < |rs| ==> rs[k].index != t
    ensures Owned(Drain(rs), t) == []
    decreases |rs|
  {
    if rs != [] {
      OwnedAppend(LinesOf(rs[0]), Drain(rs[1..]), t);
      OwnedLinesOf(rs[0], t);
      OwnedDrainNone(rs[1..], t);
    }
  }

  lemma {:induction false} OwnedNothing(lines: seq<Line>, t: nat)
    requires forall i :: 0 <= i < |lines| ==> !OwnedBy(lines[i], t)
    ensures Owned(lines, t) == []
    decreases |lines|
  {
    if lines != [] {
      OwnedNothing(lines[1..], t);
    }
  }

  /** Every tier index occurs in a completion order. */
  lemma Completes(order: seq<nat>, t: nat) returns (j: nat)
    requires IsCompletionOrder(order) && t < |MODEL_TIERS|
    ensures j < |order| && order[j] == t
    ensures forall k :: 0 <= k < |order| && k != j ==> order[k] != t
  {
    assert order[0] < 3 && order[1] < 3 && order[2] < 3;
    assert order[0] != order[1] && order[0] != order[2] && order[1] != order[2];
    j := if order[0] == t then 0 else if order[1] == t then 1 else 2;
  }

  // ---------------------------------------------------------------------------
  // Properties of the stream

  /** Whatever order the calls complete in, the lines belonging to a tier
      are exactly that tier's own lines: one error line if its call raised
      with a message, otherwise its result line and then its metrics. */
  lemma EachTierOwnsItsLines(order: seq<nat>, o: Outcomes, t: nat)
    requires IsCompletionOrder(order) && t < |MODEL_TIERS|
    ensures Owned(Normal(order, o), t) == TierLines(t, o(t))
  {
    var rs := Arrivals(order, o);
    var j := Completes(order, t);
    forall k | 0 <= k < |rs| && k != j ensures rs[k].index != t {
    }
    OwnedDrain(rs, t, j);
    OwnedOnlyInDrain(Drain(rs), t);
  }

  /** The start lines and `done` belong to no tier. */
  lemma OwnedOnlyInDrain(d: seq<Line>, t: nat)
    ensures Owned(StartLines() + d + [DoneLine], t) == Owned(d, t)
  {
    var a := StartLines();
    OwnedNothing(a, t);
    OwnedNothing([DoneLine], t);
    OwnedBetween(a, d, [DoneLine], t);
  }

  lemma OwnedBetween(a: seq<Line>, d: seq<Line>, b: seq<Line>, t: nat)
    requires Owned(a, t) == [] && Owned(b, t) == []
    ensures Owned(a + d + b, t) == Owned(d, t)
  {
    OwnedAppend(a + d, b, t);
    OwnedAppend(a, d, t);
    assert [] + Owned(d, t) + [] == Owned(d, t);
  }

  /** A tier whose call raised with a message writes only its error line:
      no result and no metrics. */
  lemma FailedTierWritesOnlyError(order: seq<nat>, o: Outcomes, t: nat, m: String)
    requires IsCompletionOrder(order) && t < |MODEL_TIERS|
    requires o(t) == Raised(Some(m))
    ensures Owned(Normal(order, o), t) == [TierErrorLine(t, MODEL_TIERS[t].tierLabel, m)]
  {
    EachTierOwnsItsLines(order, o, t);
  }

  /** A tier that answered without usage reports zero tokens. */
  lemma MissingUsageCountsZero(order: seq<nat>, o: Outcomes, t: nat)
    requires IsCompletionOrder(order) && t < |MODEL_TIERS|
    requires o(t).Answered? && o(t).usage.None?
    ensures MetricsLine(t, Metrics(MODEL_TIERS[t].id, MODEL_TIERS[t].tierLabel, 0, 0, 0)) in Normal(order, o)
  {
    EachTierOwnsItsLines(order, o, t);
    OwnedSubset(Normal(order, o), t);
  }

  lemma {:induction false} OwnedSubset(lines: seq<Line>, t: nat)
    ensures forall l :: l in Owned(lines, t) ==> l in lines
    decreases |lines|
  {
    if lines != [] {
      OwnedSubset(lines[1..], t);
      assert forall l :: l in lines[1..] ==> l in lines;
    }
  }

  /** Every result line is immediately followed by the metrics of the same
      tier. */
  predicate Paired(lines: seq<Line>) {
    forall i :: 0 <= i < |lines| && lines[i].ResultLine? ==>
      i + 1 < |lines| && lines[i + 1].MetricsLine?
      && lines[i + 1].index == lines[i].index && lines[i + 1].data.modelLabel == lines[i].tierLabel
  }

  lemma PairedAppend(a: seq<Line>, b: seq<Line>)
    requires Paired(a) && Paired(b)
    ensures Paired(a + b)
  {
    forall i | 0 <= i < |a + b| && (a + b)[i].ResultLine?
      ensures i + 1 < |a + b| && (a + b)[i + 1].MetricsLine?
        && (a + b)[i + 1].index == (a + b)[i].index && (a + b)[i + 1].data.modelLabel == (a + b)[i].tierLabel
    {
      if i >= |a| {
        assert (a + b)[i] == b[i - |a|];
        assert (a + b)[i + 1] == b[i + 1 - |a|];
      } else {
        assert (a + b)[i + 1] == a[i + 1];
      }
    }
  }

  lemma {:induction false} DrainPaired(rs: seq<TierResult>)
    ensures Paired(Drain(rs))
    decreases |rs|
  {
    if rs != [] {
      DrainPaired(rs[1..]);
      PairedAppend(LinesOf(rs[0]), Drain(rs[1..]));
    }
  }

  /** In the stream, with or without a fault, a result line is followed by
      its tier's metrics unless the write of those metrics raised, in which
      case the error line follows. */
  lemma ResultThenMetrics(order: seq<nat>, o: Outcomes, fault: Fault)
    requires IsCompletionOrder(order)
    ensures var out := Stream(order, o, fault);
      forall i :: 0 <= i < |out| && out[i].ResultLine? ==>
        i + 1 < |out|
        && ((out[i + 1].MetricsLine? && out[i + 1].index == out[i].index
             && out[i + 1].data.modelLabel == out[i].tierLabel)
            || (fault.FaultAt? && out[i + 1] == FailureLine(fault.message.GetOr("Unknown error"))))
  {
    var rs := Arrivals(order, o);
    var normal := Normal(order, o);
    DrainPaired(rs);
    PairedAppend(StartLines(), Drain(rs));
    PairedAppend(StartLines() + Drain(rs), [DoneLine]);
    assert Paired(normal);
  }

  /** The three start events come first, in tier order, and nowhere else. */
  lemma StartsFirst(order: seq<nat>, o: Outcomes, fault: Fault)
    requires IsCompletionOrder(order)
    ensures var out := Stream(order, o, fault);
      && (forall i :: 0 <= i < |out| && out[i].StartLine? ==>
            i < |MODEL_TIERS| && out[i] == StartLine(MODEL_TIERS[i].id, MODEL_TIERS[i].tierLabel))
      && (fault.NoFault? || fault.written >= |MODEL_TIERS| ==> out[..|MODEL_TIERS|] == StartLines())
  {
    var d := Drain(Arrivals(order, o));
    var normal := Normal(order, o);
    assert normal[..|MODEL_TIERS|] == StartLines();
    forall i | |MODEL_TIERS| <= i < |normal| ensures !normal[i].StartLine? {
      if i < |normal| - 1 {
        assert normal[i] == d[i - |MODEL_TIERS|];
      }
    }
  }

  /** Without a fault the stream ends with the only `done` line and has no
      route-level error line. */
  lemma DoneOnce(order: seq<nat>, o: Outcomes)
    requires IsCompletionOrder(order)
    ensures var out := Stream(order, o, NoFault);
      && |out| > 0 && out[|out| - 1] == DoneLine
      && forall i :: 0 <= i < |out| - 1 ==> !out[i].DoneLine? && !out[i].FailureLine?
  {
    var d := Drain(Arrivals(order, o));
    var out := Normal(order, o);
    forall i | 0 <= i < |out| - 1 ensures !out[i].DoneLine? && !out[i].FailureLine? {
      if i >= |MODEL_TIERS| {
        assert out[i] == d[i - |MODEL_TIERS|];
      }
    }
  }

  /** With a fault, the lines written before it are those of the fault-free
      stream, one error line follows, and no `done` is written. */
  lemma FaultEndsWithError(order: seq<nat>, o: Outcomes, n: nat, m: Option<String>)
    requires IsCompletionOrder(order)
    requires n < |Stream(order, o, NoFault)|
    ensures var out := Stream(order, o, FaultAt(n, m));
      var normal := Stream(order, o, NoFault);
      && |out| == n + 1
      && out[..n] == normal[..n]
      && out[n] == FailureLine(m.GetOr("Unknown error"))
      && DoneLine !in out
      && forall i :: 0 <= i < n ==> !out[i].FailureLine?
  {
    DoneOnce(order, o);
    var out := Stream(order, o, FaultAt(n, m));
    assert out[..n] == Normal(order, o)[..n];
  }

  // ---------------------------------------------------------------------------
  // Writing the events

  /** The JSON text kotlinx.serialization writes for a metrics record. */
  type MetricsEncoder = Metrics -> String

  const ERROR_OPEN := "data: {\"type\":\"error\",\"message\":\""
  const DONE_TEXT := "data: {\"type\":\"done\"}\n\n"

  function ResultOpen(index: nat, tierLabel: String): String {
    "data: {\"type\":\"model_result\",\"index\":" + NatToString(index) + ",\"label\":\"" + tierLabel + "\",\"content\":\""
  }

  /** One event as text, with the error and content escapes given as
      parameters: the route as written passes `EscapeErrorAsWritten` and
      `EscapeContentAsWritten`, the corrected route `EscapeError` and
      `EscapeContent`. Labels and model ids are spliced in raw. */
  function RenderWith(escape: String -> String, escapeContent: String -> String, encode: MetricsEncoder, l: Line): String {
    match l
    case StartLine(m, tierLabel) =>
      "data: {\"type\":\"model_start\",\"model\":\"" + m + "\",\"label\":\"" + tierLabel + CLOSE
    case ResultLine(i, tierLabel, c) => ResultOpen(i, tierLabel) + escapeContent(c) + CLOSE
    case MetricsLine(i, data) =>
      "data: {\"type\":\"metrics\",\"index\":" + NatToString(i) + ",\"data\":" + encode(data) + "}\n\n"
    case TierErrorLine(_, tierLabel, m) => ERROR_OPEN + tierLabel + ": " + escape(m) + CLOSE
    case FailureLine(m) => ERROR_OPEN + escape(m) + CLOSE
    case DoneLine => DONE_TEXT
  }

  function RenderAsWritten(encode: MetricsEncoder, l: Line): String {
    RenderWith(EscapeErrorAsWritten, EscapeContentAsWritten, encode, l)
  }

  function Render(encode: MetricsEncoder, l: Line): String {
    RenderWith(EscapeError, EscapeContent, encode, l)
  }

  lemma TierLabelsPlain(t: nat)
    requires t < |MODEL_TIERS|
    ensures Plain(MODEL_TIERS[t].tierLabel)
  {
    var s := MODEL_TIERS[t].tierLabel;
    forall i | 0 <= i < |s| ensures s[i] != '\\' && s[i] != '"' && !LineBreak(s[i]) {
      if t == 0 {
        assert s == "Weak (chat, 100 tokens)";
      } else if t == 1 {
        assert s == "Medium (chat, full)";
      } else {
        assert s == "Strong (reasoner)";
      }
    }
  }

  lemma ColonPlain(sep: String)
    requires sep == ": "
    ensures Plain(sep)
  {
  }

  /** A client reading a tier's result event gets the content back. */
  lemma ResultReadsBack(encode: MetricsEncoder, t: nat, c: String)
    requires t < |MODEL_TIERS|
    ensures var open := ResultOpen(t, MODEL_TIERS[t].tierLabel);
      Field(Render(encode, ResultLine(t, MODEL_TIERS[t].tierLabel, c)), open) == Some(c)
  {
    FieldOf(ResultOpen(t, MODEL_TIERS[t].tierLabel), EscapeContent(c));
  }

  /** A client reading a tier's error event gets the tier's label, a colon
      and the message with newlines as spaces. */
  lemma TierErrorReadsBack(encode: MetricsEncoder, t: nat, m: String)
    requires t < |MODEL_TIERS|
    ensures var tierLabel := MODEL_TIERS[t].tierLabel;
      Field(Render(encode, TierErrorLine(t, tierLabel, m)), ERROR_OPEN) == Some(tierLabel + ": " + NewlinesToSpaces(m))
  {
    var tierLabel := MODEL_TIERS[t].tierLabel;
    var p := tierLabel + ": ";
    TierLabelsPlain(t);
    ColonPlain(": ");
    PlainConcat(tierLabel, ": ");
    PlainPrefixReads(p, EscapeError(m));
    assert ERROR_OPEN + tierLabel + ": " + EscapeError(m) + CLOSE == ERROR_OPEN + (p + EscapeError(m)) + CLOSE;
    FieldOf(ERROR_OPEN, p + EscapeError(m));
  }

  /** The route-level error event reads back as the message with newlines
      as spaces. */
  lemma FailureReadsBack(encode: MetricsEncoder, m: String)
    ensures Field(Render(encode, FailureLine(m)), ERROR_OPEN) == Some(NewlinesToSpaces(m))
  {
    FieldOf(ERROR_OPEN, EscapeError(m));
  }

  /** As written, a tier's result event reads back exactly when the
      content has no carriage return. */
  lemma ResultAsWrittenReadsBack(encode: MetricsEncoder, t: nat, c: String)
    requires t < |MODEL_TIERS|
    ensures var open := ResultOpen(t, MODEL_TIERS[t].tierLabel);
      Field(RenderAsWritten(encode, ResultLine(t, MODEL_TIERS[t].tierLabel, c)), open)
      == if '\r' in c then None else Some(c)
  {
    FieldOf(ResultOpen(t, MODEL_TIERS[t].tierLabel), EscapeContentAsWritten(c));
  }

  /** A tier whose content is `"a\r\nb"` (a Windows line ending) gives a
      result event that does not read back as written, and does with the
      corrected escape. */
  lemma CrLfResultBreaksEvent(encode: MetricsEncoder, t: nat)
    requires t < |MODEL_TIERS|
    ensures var open := ResultOpen(t, MODEL_TIERS[t].tierLabel);
      && Field(RenderAsWritten(encode, ResultLine(t, MODEL_TIERS[t].tierLabel, "a\r\nb")), open) == None
      && Field(Render(encode, ResultLine(t, MODEL_TIERS[t].tierLabel, "a\r\nb")), open) == Some("a\r\nb")
  {
    var c := "a\r\nb";
    assert c[1] == '\r';
    ResultAsWrittenReadsBack(encode, t, c);
    ResultReadsBack(encode, t, c);
  }

  /** As written, a tier whose exception message is a single backslash
      yields an error event that does not read back: the backslash escapes
      the closing quote. */
  lemma TierBackslashBreaksEvent(encode: MetricsEncoder, t: nat)
    requires t < |MODEL_TIERS|
    ensures Field(RenderAsWritten(encode, TierErrorLine(t, MODEL_TIERS[t].tierLabel, "\\")), ERROR_OPEN) == None
  {
    var tierLabel := MODEL_TIERS[t].tierLabel;
    var p := tierLabel + ": ";
    var x := EscapeErrorAsWritten("\\");
    ErrorEscapeLosesTrailingBackslash();
    TierLabelsPlain(t);
    ColonPlain(": ");
    PlainConcat(tierLabel, ": ");
    PlainPrefixReads(p, x);
    assert ERROR_OPEN + tierLabel + ": " + x + CLOSE == ERROR_OPEN + (p + x) + CLOSE;
    FieldOf(ERROR_OPEN, p + x);
  }
}
