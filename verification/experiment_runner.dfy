/**
 * The Day-8 experiment runner: a sequential state machine that sends the
 * steps of a fixture to an agent, one at a time, and records what came
 * back. The agent is any function from the history so far to a reply; the
 * logger, `delay` and timestamps are observers and are not modelled.
 *
 * `runExperiment` sends every step until the first error, then, while no
 * step failed and the peak token count stays below 120000, replays the
 * messages for up to three cycles. `runOverflowExperiment` loads two
 * fixtures in four phases and replays messages in up to ten rounds driven
 * by the LAST reported token count.
 */
module ExperimentRunner {
  import opened Wrappers
  import opened Text
  import opened TestCase
  import opened ExperimentModels

  /** The peak (`runExperiment`) or last (`runOverflowExperiment`) total
      below which another cycle or round starts. */
  const REPEAT_LIMIT := 120000
  /** The last total below which a Phase 3 step is sent. */
  const ROUND_SEND_LIMIT := 125000
  const MAX_CYCLES: nat := 3
  const MAX_ROUNDS: nat := 10

  /** The mutable locals of one run: the history sent to the agent, the
      step results, the conversation log, `peakTokens` and
      `lastTotalTokens` (the latter only read by the overflow run). */
  datatype Run = Run(
    history: seq<ChatMessage>,
    results: seq<StepResult>,
    log: seq<ConversationEntry>,
    peakTokens: int,
    lastTotalTokens: int)

  const Start := Run([], [], [], 0, 0)

  // ---------------------------------------------------------------------------
  // What a sequence of results implies about the rest of the state

  /** The largest reported total, starting from 0. */
  function MaxReported(rs: seq<StepResult>): int {
    if rs == [] then 0
    else
      var m := MaxReported(rs[..|rs| - 1]);
      match rs[|rs| - 1].usage
      case Some(u) => if u.totalTokens > m then u.totalTokens else m
      case None => m
  }

  /** The most recently reported total, or 0 when none was reported. */
  function LastReported(rs: seq<StepResult>): int {
    if rs == [] then 0
    else
      match rs[|rs| - 1].usage
      case Some(u) => u.totalTokens
      case None => LastReported(rs[..|rs| - 1])
  }

  /** The turns one step leaves in the history: the user turn, and the
      assistant's reply when there was no error. */
  function TurnsOf(r: StepResult): seq<ChatMessage> {
    [ChatMessage(User, r.userMessage)]
    + (if Failed(r) then [] else [ChatMessage(Assistant, r.assistantResponse.GetOr(""))])
  }

  function EntriesOf(r: StepResult): seq<ConversationEntry> {
    [ConversationEntry(User, r.userMessage, r.stepId, r.stepType, None)]
    + (if Failed(r) then []
       else [ConversationEntry(Assistant, r.assistantResponse.GetOr(""), r.stepId, r.stepType, r.usage)])
  }

  function HistoryOf(rs: seq<StepResult>): seq<ChatMessage> {
    if rs == [] then [] else HistoryOf(rs[..|rs| - 1]) + TurnsOf(rs[|rs| - 1])
  }

  function LogOf(rs: seq<StepResult>): seq<ConversationEntry> {
    if rs == [] then [] else LogOf(rs[..|rs| - 1]) + EntriesOf(rs[|rs| - 1])
  }

  /** `x` records what the agent answered when it was given history `h`
      followed by the new user turn, and the history size just after. */
  predicate RecordedFor(agent: Agent, h: seq<ChatMessage>, x: StepResult) {
    var resp := agent(h + [ChatMessage(User, x.userMessage)]);
    && x.usage == resp.usage
    && x.httpStatus == resp.httpStatus
    && x.errorMessage == resp.errorMessage
    && x.assistantResponse == NonEmpty(resp.content)
    && x.conversationLength == |h| + |TurnsOf(x)|
  }

  /** Every result records the agent's answer to the history of the
      results before it. */
  predicate Replayed(agent: Agent, rs: seq<StepResult>) {
    rs == [] || (Replayed(agent, rs[..|rs| - 1]) && RecordedFor(agent, HistoryOf(rs[..|rs| - 1]), rs[|rs| - 1]))
  }

  /** Result `i` records what the agent answered when it was given the
      history of the results before it followed by the new user turn. */
  predicate Answered(agent: Agent, rs: seq<StepResult>, i: int)
    requires 0 <= i < |rs|
  {
    var resp := agent(HistoryOf(rs[..i]) + [ChatMessage(User, rs[i].userMessage)]);
    && rs[i].usage == resp.usage
    && rs[i].httpStatus == resp.httpStatus
    && rs[i].errorMessage == resp.errorMessage
    && rs[i].assistantResponse == NonEmpty(resp.content)
  }

  /** What `Replayed` says about each result: the agent always received
      the history ending with that step's user turn, and the recorded
      `conversationLength` is the history size just after the step. */
  lemma {:induction false} ReplayedMeans(agent: Agent, rs: seq<StepResult>)
    requires Replayed(agent, rs)
    ensures forall i :: 0 <= i < |rs| ==> Answered(agent, rs, i)
    ensures forall i :: 0 <= i < |rs| ==> rs[i].conversationLength == |HistoryOf(rs[..i + 1])|
  {
    if rs != [] {
      var p := rs[..|rs| - 1];
      ReplayedMeans(agent, p);
      forall i | 0 <= i < |rs|
        ensures Answered(agent, rs, i)
        ensures rs[i].conversationLength == |HistoryOf(rs[..i + 1])|
      {
        if i < |p| {
          assert rs[..i] == p[..i] && rs[..i + 1] == p[..i + 1] && rs[i] == p[i];
          assert Answered(agent, p, i);
        } else {
          assert rs[..i] == p && rs[..i + 1] == rs;
          assert RecordedFor(agent, HistoryOf(p), rs[i]);
          assert HistoryOf(rs) == HistoryOf(p) + TurnsOf(rs[i]);
        }
      }
    }
  }

  /** The invariant every state of a run satisfies. */
  predicate WellFormed(agent: Agent, run: Run) {
    && run.history == HistoryOf(run.results)
    && run.log == LogOf(run.results)
    && run.peakTokens == MaxReported(run.results)
    && run.lastTotalTokens == LastReported(run.results)
    && Replayed(agent, run.results)
  }

  /** `peakTokens` and `lastTotalTokens` agree with the results. */
  predicate Tracked(run: Run) {
    run.peakTokens == MaxReported(run.results) && run.lastTotalTokens == LastReported(run.results)
  }

  /** `b` continues `a`: it keeps every earlier result. */
  predicate Extends(a: Run, b: Run) {
    |a.results| <= |b.results| && b.results[..|a.results|] == a.results
  }

  // ---------------------------------------------------------------------------
  // sendStep

  /** The local `sendStep`: append the user turn, ask the agent with the
      whole history, append its reply only when there was no error, track
      the reported total, and record the step. */
  function SendStep(agent: Agent, run: Run, q: Request): Run {
    var history := run.history + [ChatMessage(User, q.userMessage)];
    var log := run.log + [ConversationEntry(User, q.userMessage, q.stepId, q.stepType, None)];
    var resp := agent(history);
    var history' :=
      if resp.errorMessage == None then history + [ChatMessage(Assistant, resp.content)] else history;
    var log' :=
      if resp.errorMessage == None
      then log + [ConversationEntry(Assistant, resp.content, q.stepId, q.stepType, resp.usage)]
      else log;
    var peak := match resp.usage
      case Some(u) => if u.totalTokens > run.peakTokens then u.totalTokens else run.peakTokens
      case None => run.peakTokens;
    var last := match resp.usage
      case Some(u) => u.totalTokens
      case None => run.lastTotalTokens;
    var result := StepResult(
      q.stepId, q.stepType, q.failureMode, q.userMessage, NonEmpty(resp.content),
      resp.usage, resp.httpStatus, resp.errorMessage, |history'|);
    Run(history', run.results + [result], log', peak, last)
  }

  /** One step adds exactly one result, labelled with the request that was
      sent, and keeps `peakTokens` and `lastTotalTokens` in step with the
      results. */
  lemma SendStepAppends(agent: Agent, run: Run, q: Request)
    ensures var r := SendStep(agent, run, q);
      && |r.results| == |run.results| + 1 && Extends(run, r)
      && RequestOf(r.results[|run.results|]) == q
      && (Tracked(run) ==> Tracked(r))
  {
    var r := SendStep(agent, run, q);
    assert r.results[..|r.results| - 1] == run.results;
  }

  /** One step keeps the whole invariant. */
  lemma SendStepPreserves(agent: Agent, run: Run, q: Request)
    requires WellFormed(agent, run)
    ensures WellFormed(agent, SendStep(agent, run, q))
  {
    var r := SendStep(agent, run, q);
    var rs := run.results;
    var x := r.results[|rs|];
    assert r.results == rs + [x];
    assert r.results[..|r.results| - 1] == rs;
    var c := agent(run.history + [ChatMessage(User, q.userMessage)]).content;
    assert NonEmpty(c).GetOr("") == c;
  }

  /** Each step adds one user turn, plus one assistant turn when it did not
      fail: the history holds `2 * steps - failed` messages. */
  lemma {:induction false} HistoryLength(rs: seq<StepResult>)
    ensures |HistoryOf(rs)| == 2 * |rs| - CountFailed(rs)
  {
    if rs != [] {
      HistoryLength(rs[..|rs| - 1]);
    }
  }

  /** `peakTokens` is the maximum reported total, or 0 when none was
      reported (or all were negative). */
  lemma {:induction false} PeakIsMaximum(rs: seq<StepResult>)
    ensures MaxReported(rs) >= 0
    ensures forall i :: 0 <= i < |rs| && rs[i].usage.Some? ==>
      rs[i].usage.value.totalTokens <= MaxReported(rs)
    ensures MaxReported(rs) == 0 || exists i :: (0 <= i < |rs| && rs[i].usage.Some? &&
      rs[i].usage.value.totalTokens == MaxReported(rs))
  {
    if rs != [] {
      var p := rs[..|rs| - 1];
      PeakIsMaximum(p);
      forall i | 0 <= i < |rs| && rs[i].usage.Some?
        ensures rs[i].usage.value.totalTokens <= MaxReported(rs)
      {
        if i < |p| {
          assert rs[i] == p[i];
        }
      }
      if MaxReported(rs) != 0 {
        if MaxReported(rs) == MaxReported(p) {
          var i :| 0 <= i < |p| && p[i].usage.Some? && p[i].usage.value.totalTokens == MaxReported(p);
          assert rs[i] == p[i];
        } else {
          assert rs[|rs| - 1].usage.Some?;
        }
      }
    }
  }

  /** `lastTotalTokens` is the total of the latest step that reported one,
      or 0 when no step did. */
  lemma {:induction false} LastIsLatest(rs: seq<StepResult>)
    ensures (forall i :: 0 <= i < |rs| ==> rs[i].usage.None?) ==> LastReported(rs) == 0
    ensures forall i :: (0 <= i < |rs| && rs[i].usage.Some?
      && (forall j :: i < j < |rs| ==> rs[j].usage.None?)) ==>
      LastReported(rs) == rs[i].usage.value.totalTokens
  {
    if rs != [] {
      var p := rs[..|rs| - 1];
      LastIsLatest(p);
      NoneReportedInit(rs, p);
      forall i | 0 <= i < |rs| && rs[i].usage.Some? && (forall j :: i < j < |rs| ==> rs[j].usage.None?)
        ensures LastReported(rs) == rs[i].usage.value.totalTokens
      {
        if i < |p| {
          LatestInInit(rs, p, i);
        }
      }
    }
  }

  lemma NoneReportedInit(rs: seq<StepResult>, p: seq<StepResult>)
    requires rs != [] && p == rs[..|rs| - 1]
    ensures (forall i :: 0 <= i < |rs| ==> rs[i].usage.None?) ==> forall i :: 0 <= i < |p| ==> p[i].usage.None?
  {
    assert forall i :: 0 <= i < |p| ==> p[i] == rs[i];
  }

  /** A report before the last result is the latest one only if the last
      result reported nothing, and then it is the latest of the others. */
  lemma LatestInInit(rs: seq<StepResult>, p: seq<StepResult>, i: int)
    requires rs != [] && p == rs[..|rs| - 1]
    requires 0 <= i < |p| && rs[i].usage.Some?
    requires forall j :: i < j < |rs| ==> rs[j].usage.None?
    ensures p[i] == rs[i]
    ensures forall j :: i < j < |p| ==> p[j].usage.None?
    ensures LastReported(rs) == LastReported(p)
  {
    assert rs[|rs| - 1].usage.None?;
    assert forall j :: i < j < |p| ==> p[j] == rs[j];
  }

  /** The result record: `totalMessages` is the history size, `totalSteps`
      the result count, `failedSteps` the failures. */
  function Finish(run: Run, name: String): ExperimentResult {
    ExperimentResult(name, run.results, run.log, |run.history|, run.peakTokens,
                     |run.results|, CountFailed(run.results))
  }

  /** What every finished result states about itself. */
  predicate Bookkept(agent: Agent, e: ExperimentResult) {
    && e.totalSteps == |e.steps|
    && e.failedSteps == CountFailed(e.steps)
    && e.totalMessages == 2 * e.totalSteps - e.failedSteps
    && e.peakTokens == MaxReported(e.steps)
    && e.conversationLog == LogOf(e.steps)
    && (forall i :: 0 <= i < |e.steps| ==>
          e.steps[i].conversationLength == |HistoryOf(e.steps[..i + 1])|)
    && (forall i :: 0 <= i < |e.steps| ==> Answered(agent, e.steps, i))
  }

  lemma FinishBookkept(agent: Agent, run: Run, name: String)
    requires WellFormed(agent, run)
    ensures Bookkept(agent, Finish(run, name)) && Finish(run, name).caseName == name
  {
    HistoryLength(run.results);
    ReplayedMeans(agent, run.results);
  }

  // ---------------------------------------------------------------------------
  // Sending a list of requests

  /** The check a loop makes before each send. */
  datatype Guard = Always | PeakBelow(limit: int) | LastBelow(limit: int)

  predicate Allows(g: Guard, run: Run) {
    match g
    case Always => true
    case PeakBelow(l) => run.peakTokens < l
    case LastBelow(l) => run.lastTotalTokens < l
  }

  /** The same check, judged from the results sent so far. */
  predicate AllowsAfter(g: Guard, rs: seq<StepResult>) {
    match g
    case Always => true
    case PeakBelow(l) => MaxReported(rs) < l
    case LastBelow(l) => LastReported(rs) < l
  }

  /** The inner loops of both runs: send the requests in order while the
      guard allows, and stop after the first error, reporting whether one
      occurred. */
  function SendWhile(agent: Agent, run: Run, qs: seq<Request>, g: Guard): (Run, bool)
    decreases |qs|
  {
    if qs == [] || !Allows(g, run) then (run, false)
    else
      var r1 := SendStep(agent, run, qs[0]);
      if Failed(r1.results[|r1.results| - 1]) then (r1, true)
      else SendWhile(agent, r1, qs[1..], g)
  }

  /** Results `from..` of `r` were sent, in order, for a prefix of `plan`. */
  predicate SentPrefix(r: Run, from: int, plan: seq<Request>)
    requires 0 <= from <= |r.results|
  {
    && |r.results| - from <= |plan|
    && forall j :: from <= j < |r.results| ==> RequestOf(r.results[j]) == plan[j - from]
  }

  /** Among results `from..` of `r`, only the last may have failed. */
  predicate OnlyLastFails(r: Run, from: int)
    requires 0 <= from <= |r.results|
  {
    forall j :: from <= j < |r.results| - 1 ==> !Failed(r.results[j])
  }

  /** Each of results `from..` of `r` was sent when the guard allowed it. */
  predicate SentAllowed(r: Run, from: int, g: Guard)
    requires 0 <= from <= |r.results|
  {
    forall j :: from <= j < |r.results| ==> AllowsAfter(g, r.results[..j])
  }

  lemma {:induction false} SendWhileWellFormed(agent: Agent, run: Run, qs: seq<Request>, g: Guard)
    requires WellFormed(agent, run)
    ensures WellFormed(agent, SendWhile(agent, run, qs, g).0)
    decreases |qs|
  {
    if qs != [] && Allows(g, run) {
      SendStepPreserves(agent, run, qs[0]);
      var r1 := SendStep(agent, run, qs[0]);
      if !Failed(r1.results[|r1.results| - 1]) {
        SendWhileWellFormed(agent, r1, qs[1..], g);
      }
    }
  }

  /** What a guarded loop from `run` leaves behind: it sent a prefix of
      its requests in order, each while the guard allowed it; only its last
      send may have failed, it reports an error exactly when that one did,
      and it stops early without error only because the guard said no. */
  predicate WhileShape(run: Run, r: Run, aborted: bool, qs: seq<Request>, g: Guard) {
    && Tracked(r) && Extends(run, r)
    && SentPrefix(r, |run.results|, qs)
    && OnlyLastFails(r, |run.results|)
    && SentAllowed(r, |run.results|, g)
    && (aborted <==> |r.results| > |run.results| && Failed(r.results[|r.results| - 1]))
    && (!aborted && |r.results| < |run.results| + |qs| ==> !Allows(g, r))
  }

  lemma {:induction false} SendWhileShape(agent: Agent, run: Run, qs: seq<Request>, g: Guard)
    requires Tracked(run)
    ensures var (r, aborted) := SendWhile(agent, run, qs, g); WhileShape(run, r, aborted, qs, g)
    decreases |qs|
  {
    if qs != [] && Allows(g, run) {
      var r1 := SendStep(agent, run, qs[0]);
      SendStepAppends(agent, run, qs[0]);
      AllowsTracked(g, run);
      if Failed(r1.results[|run.results|]) {
        FirstSent(run, r1, r1, qs, g);
      } else {
        SendWhileShape(agent, r1, qs[1..], g);
        var (r, aborted) := SendWhile(agent, r1, qs[1..], g);
        FirstSentThenMore(run, r1, r, aborted, qs, g);
      }
    }
  }

  /** A first send that did not fail, then a guarded loop over the rest. */
  lemma FirstSentThenMore(run: Run, r1: Run, r: Run, aborted: bool, qs: seq<Request>, g: Guard)
    requires qs != [] && Allows(g, run) && AllowsAfter(g, run.results)
    requires |r1.results| == |run.results| + 1 && Extends(run, r1) && Tracked(r1)
    requires RequestOf(r1.results[|run.results|]) == qs[0] && !Failed(r1.results[|run.results|])
    requires WhileShape(r1, r, aborted, qs[1..], g)
    ensures WhileShape(run, r, aborted, qs, g)
  {
    FirstSent(run, r1, r, qs, g);
    if |r.results| == |run.results| + 1 {
      assert r.results[|r.results| - 1] == r1.results[|run.results|];
    }
  }

  lemma AllowsTracked(g: Guard, run: Run)
    requires Tracked(run)
    ensures Allows(g, run) <==> AllowsAfter(g, run.results)
  {
  }

  /** A first send followed by a stretch of sends reads as one stretch. */
  lemma FirstSent(run: Run, r1: Run, r: Run, qs: seq<Request>, g: Guard)
    requires qs != []
    requires |r1.results| == |run.results| + 1 && Extends(run, r1)
    requires RequestOf(r1.results[|run.results|]) == qs[0]
    requires AllowsAfter(g, run.results)
    requires Extends(r1, r)
    requires r == r1 || !Failed(r1.results[|run.results|])
    requires SentPrefix(r, |r1.results|, qs[1..])
    requires OnlyLastFails(r, |r1.results|) && SentAllowed(r, |r1.results|, g)
    ensures Extends(run, r) && r.results[|run.results|] == r1.results[|run.results|]
    ensures SentPrefix(r, |run.results|, qs)
    ensures OnlyLastFails(r, |run.results|) && SentAllowed(r, |run.results|, g)
  {
    var n := |run.results|;
    assert r.results[n] == r1.results[n] by {
      assert r.results[n] == r.results[..n + 1][n];
    }
    assert r.results[..n] == run.results by {
      assert r.results[..n] == r.results[..n + 1][..n];
    }
    forall j | n < j < |r.results| ensures RequestOf(r.results[j]) == qs[j - n] {
      assert qs[1..][j - (n + 1)] == qs[j - n];
    }
  }

  /** Two consecutive stretches of sends read as one stretch. */
  lemma Chain(a: Run, b: Run, c: Run, g: Guard)
    requires Extends(a, b) && Extends(b, c)
    requires OnlyLastFails(b, |a.results|) && OnlyLastFails(c, |b.results|)
    requires c == b || |b.results| == |a.results| || !Failed(b.results[|b.results| - 1])
    requires SentAllowed(b, |a.results|, g) && SentAllowed(c, |b.results|, g)
    ensures Extends(a, c) && OnlyLastFails(c, |a.results|) && SentAllowed(c, |a.results|, g)
  {
    assert c.results[..|a.results|] == c.results[..|b.results|][..|a.results|];
    forall j | |a.results| <= j < |b.results|
      ensures c.results[j] == b.results[j] && c.results[..j] == b.results[..j]
    {
      assert c.results[j] == c.results[..|b.results|][j];
      assert c.results[..j] == c.results[..|b.results|][..j];
    }
  }

  /** Phase 4: send every request whatever the replies. */
  function SendAll(agent: Agent, run: Run, qs: seq<Request>): Run
    decreases |qs|
  {
    if qs == [] then run else SendAll(agent, SendStep(agent, run, qs[0]), qs[1..])
  }

  lemma {:induction false} SendAllWellFormed(agent: Agent, run: Run, qs: seq<Request>)
    requires WellFormed(agent, run)
    ensures WellFormed(agent, SendAll(agent, run, qs))
    decreases |qs|
  {
    if qs != [] {
      SendStepPreserves(agent, run, qs[0]);
      SendAllWellFormed(agent, SendStep(agent, run, qs[0]), qs[1..]);
    }
  }

  /** Phase 4 sends all its requests, in order, one result each. */
  lemma {:induction false} SendAllShape(agent: Agent, run: Run, qs: seq<Request>)
    ensures var r := SendAll(agent, run, qs);
      && Extends(run, r)
      && |r.results| == |run.results| + |qs|
      && SentPrefix(r, |run.results|, qs)
    decreases |qs|
  {
    if qs != [] {
      var r1 := SendStep(agent, run, qs[0]);
      SendStepAppends(agent, run, qs[0]);
      SendAllShape(agent, r1, qs[1..]);
      FirstSentAll(run, r1, SendAll(agent, r1, qs[1..]), qs);
    }
  }

  /** A first send followed by sends of the rest is a send of them all. */
  lemma FirstSentAll(run: Run, r1: Run, r: Run, qs: seq<Request>)
    requires qs != []
    requires |r1.results| == |run.results| + 1 && Extends(run, r1)
    requires RequestOf(r1.results[|run.results|]) == qs[0]
    requires Extends(r1, r) && SentPrefix(r, |r1.results|, qs[1..])
    ensures Extends(run, r) && SentPrefix(r, |run.results|, qs)
  {
    var n := |run.results|;
    assert r.results[n] == r1.results[n] by {
      assert r.results[n] == r.results[..n + 1][n];
    }
    assert r.results[..n] == run.results by {
      assert r.results[..n] == r.results[..n + 1][..n];
    }
    forall j | n < j < |r.results| ensures RequestOf(r.results[j]) == qs[j - n] {
      assert qs[1..][j - (n + 1)] == qs[j - n];
    }
  }

  // ---------------------------------------------------------------------------
  // Requests

  /** A fixture step as `sendStep` arguments. */
  function StepRequest(s: TestStep): Request {
    Request(s.Content(), s.Id(), s.Type(), s.FailureMode())
  }

  function StepRequests(steps: seq<TestStep>): seq<Request> {
    seq(|steps|, i requires 0 <= i < |steps| => StepRequest(steps[i]))
  }

  /** The replay of a message in cycle `cycle` of `runExperiment`. */
  function RepeatRequest(m: TestStep, cycle: nat): Request {
    Request("REPEAT: " + m.Content(), m.Id() + "-R" + NatToString(cycle), "message", None)
  }

  /** The replay of a message in round `round` of Phase 3. */
  function RoundRequest(m: TestStep, round: nat): Request {
    Request("REPEAT R" + NatToString(round) + ": " + m.Content(),
            m.Id() + "-R" + NatToString(round), "message", None)
  }

  function CyclePlan(msgs: seq<TestStep>, cycle: nat): seq<Request> {
    seq(|msgs|, i requires 0 <= i < |msgs| => RepeatRequest(msgs[i], cycle))
  }

  /** Cycles `cycle..3` in full. */
  function RepeatPlan(msgs: seq<TestStep>, cycle: nat): seq<Request>
    decreases MAX_CYCLES + 1 - cycle
  {
    if cycle > MAX_CYCLES then [] else CyclePlan(msgs, cycle) + RepeatPlan(msgs, cycle + 1)
  }

  lemma {:induction false} RepeatPlanLength(msgs: seq<TestStep>, cycle: nat)
    requires 1 <= cycle <= MAX_CYCLES + 1
    ensures |RepeatPlan(msgs, cycle)| == (MAX_CYCLES + 1 - cycle) * |msgs|
    decreases MAX_CYCLES + 1 - cycle
  {
    if cycle <= MAX_CYCLES {
      RepeatPlanLength(msgs, cycle + 1);
      assert (MAX_CYCLES + 1 - cycle) * |msgs| == |msgs| + (MAX_CYCLES - cycle) * |msgs|;
    }
  }

  function RoundPlan(msgs: seq<TestStep>, round: nat): seq<Request> {
    seq(|msgs|, i requires 0 <= i < |msgs| => RoundRequest(msgs[i], round))
  }

  /** Rounds `round..10` in full. */
  function RoundsPlan(msgs: seq<TestStep>, round: nat): seq<Request>
    decreases MAX_ROUNDS + 1 - round
  {
    if round > MAX_ROUNDS then [] else RoundPlan(msgs, round) + RoundsPlan(msgs, round + 1)
  }

  lemma {:induction false} RoundsPlanLength(msgs: seq<TestStep>, round: nat)
    requires 1 <= round <= MAX_ROUNDS + 1
    ensures |RoundsPlan(msgs, round)| == (MAX_ROUNDS + 1 - round) * |msgs|
    decreases MAX_ROUNDS + 1 - round
  {
    if round <= MAX_ROUNDS {
      RoundsPlanLength(msgs, round + 1);
      assert (MAX_ROUNDS + 1 - round) * |msgs| == |msgs| + (MAX_ROUNDS - round) * |msgs|;
    }
  }

  /** Appending a sent prefix of `q` after a full `p` gives a sent prefix
      of `p + q`; a sent prefix of `p` alone is one of `p + q` too. */
  lemma SentPrefixConcat(a: Run, b: Run, c: Run, p: seq<Request>, q: seq<Request>)
    requires Extends(a, b) && Extends(b, c)
    requires SentPrefix(b, |a.results|, p)
    requires SentPrefix(c, |b.results|, q)
    requires |b.results| == |a.results| + |p| || c == b
    ensures SentPrefix(c, |a.results|, p + q)
  {
    forall j | |a.results| <= j < |c.results|
      ensures RequestOf(c.results[j]) == (p + q)[j - |a.results|]
    {
      if j < |b.results| {
        assert c.results[j] == c.results[..|b.results|][j];
      }
    }
  }

  // ---------------------------------------------------------------------------
  // runExperiment

  /** The cycles loop: cycles `cycle..3`, each starting only while nothing
      failed and the peak is below the limit, each replaying the messages
      while the peak stays below it. */
  function RepeatCycles(agent: Agent, run: Run, msgs: seq<TestStep>, cycle: nat, aborted: bool): Run
    decreases MAX_CYCLES + 1 - cycle
  {
    if cycle > MAX_CYCLES || aborted || run.peakTokens >= REPEAT_LIMIT then run
    else
      var (r1, aborted1) := SendWhile(agent, run, CyclePlan(msgs, cycle), PeakBelow(REPEAT_LIMIT));
      RepeatCycles(agent, r1, msgs, cycle + 1, aborted1)
  }

  lemma {:induction false} RepeatCyclesWellFormed(agent: Agent, run: Run, msgs: seq<TestStep>, cycle: nat, aborted: bool)
    requires WellFormed(agent, run)
    ensures WellFormed(agent, RepeatCycles(agent, run, msgs, cycle, aborted))
    decreases MAX_CYCLES + 1 - cycle
  {
    var r := RepeatCycles(agent, run, msgs, cycle, aborted);
    if cycle > MAX_CYCLES || aborted || run.peakTokens >= REPEAT_LIMIT {
      assert r == run;
    } else {
      var pr := SendWhile(agent, run, CyclePlan(msgs, cycle), PeakBelow(REPEAT_LIMIT));
      SendWhileWellFormed(agent, run, CyclePlan(msgs, cycle), PeakBelow(REPEAT_LIMIT));
      RepeatCyclesWellFormed(agent, pr.0, msgs, cycle + 1, pr.1);
      assert r == RepeatCycles(agent, pr.0, msgs, cycle + 1, pr.1);
    }
  }

  /** What the cycles from `run` leave behind: a replayed prefix of the
      full plan, only the last replay possibly failed, each sent while the
      peak was below 120000, and nothing sent once something failed or the
      peak reached it. Unless an earlier step had failed, the cycles end
      only on a failed replay, with the whole plan replayed, or with the
      peak at 120000 or more. */
  predicate CyclesShape(run: Run, r: Run, msgs: seq<TestStep>, cycle: nat, aborted: bool) {
    && Tracked(r) && Extends(run, r)
    && SentPrefix(r, |run.results|, RepeatPlan(msgs, cycle))
    && OnlyLastFails(r, |run.results|)
    && SentAllowed(r, |run.results|, PeakBelow(REPEAT_LIMIT))
    && (aborted || run.peakTokens >= REPEAT_LIMIT ==> r == run)
    && (!aborted ==>
          || (|r.results| > |run.results| && Failed(r.results[|r.results| - 1]))
          || |r.results| == |run.results| + |RepeatPlan(msgs, cycle)|
          || r.peakTokens >= REPEAT_LIMIT)
  }

  lemma {:induction false} RepeatCyclesShape(agent: Agent, run: Run, msgs: seq<TestStep>, cycle: nat, aborted: bool)
    requires Tracked(run)
    ensures CyclesShape(run, RepeatCycles(agent, run, msgs, cycle, aborted), msgs, cycle, aborted)
    decreases MAX_CYCLES + 1 - cycle
  {
    if !(cycle > MAX_CYCLES || aborted || run.peakTokens >= REPEAT_LIMIT) {
      var g := PeakBelow(REPEAT_LIMIT);
      SendWhileShape(agent, run, CyclePlan(msgs, cycle), g);
      var (r1, aborted1) := SendWhile(agent, run, CyclePlan(msgs, cycle), g);
      RepeatCyclesShape(agent, r1, msgs, cycle + 1, aborted1);
      CycleThenMore(run, r1, aborted1, RepeatCycles(agent, r1, msgs, cycle + 1, aborted1), msgs, cycle);
    }
  }

  /** One cycle followed by the remaining cycles reads as the cycles. */
  lemma CycleThenMore(run: Run, r1: Run, aborted1: bool, r: Run, msgs: seq<TestStep>, cycle: nat)
    requires cycle <= MAX_CYCLES && run.peakTokens < REPEAT_LIMIT
    requires WhileShape(run, r1, aborted1, CyclePlan(msgs, cycle), PeakBelow(REPEAT_LIMIT))
    requires CyclesShape(r1, r, msgs, cycle + 1, aborted1)
    ensures CyclesShape(run, r, msgs, cycle, false)
  {
    assert RepeatPlan(msgs, cycle) == CyclePlan(msgs, cycle) + RepeatPlan(msgs, cycle + 1);
    Chain(run, r1, r, PeakBelow(REPEAT_LIMIT));
    SentPrefixConcat(run, r1, r, CyclePlan(msgs, cycle), RepeatPlan(msgs, cycle + 1));
    var c, more := |CyclePlan(msgs, cycle)|, |RepeatPlan(msgs, cycle + 1)|;
    assert !aborted1 ==> StoppedFor(r1, r, more);
    CycleThenMoreEnds(run, r1, aborted1, r, c, more);
    assert StoppedFor(run, r, |RepeatPlan(msgs, cycle)|);
  }

  /** From `run` to `r`: a failed last send, all `planned` requests sent,
      or the peak at 120000 or more. */
  predicate StoppedFor(run: Run, r: Run, planned: nat) {
    || (|r.results| > |run.results| && Failed(r.results[|r.results| - 1]))
    || |r.results| == |run.results| + planned
    || r.peakTokens >= REPEAT_LIMIT
  }

  /** The reason the cycles end carries over from the later cycles. */
  lemma CycleThenMoreEnds(run: Run, r1: Run, aborted1: bool, r: Run, c: nat, more: nat)
    requires |run.results| <= |r1.results| <= |run.results| + c && |r1.results| <= |r.results|
    requires aborted1 <==> |r1.results| > |run.results| && Failed(r1.results[|r1.results| - 1])
    requires !aborted1 && |r1.results| < |run.results| + c ==> r1.peakTokens >= REPEAT_LIMIT
    requires aborted1 || r1.peakTokens >= REPEAT_LIMIT ==> r == r1
    requires !aborted1 ==> StoppedFor(r1, r, more)
    ensures StoppedFor(run, r, c + more)
  {
    if !aborted1 && r1.peakTokens < REPEAT_LIMIT {
      assert |r1.results| == |run.results| + c;
    }
  }

  /** `runExperiment`'s state after both loops. */
  function ExperimentRun(agent: Agent, tc: TestCase): Run {
    var (main, aborted) := SendWhile(agent, Start, StepRequests(tc.steps), Always);
    if !aborted && main.peakTokens < REPEAT_LIMIT
    then RepeatCycles(agent, main, Messages(tc.steps), 1, aborted)
    else main
  }

  /** `runExperiment`. */
  function RunExperiment(agent: Agent, tc: TestCase): ExperimentResult {
    Finish(ExperimentRun(agent, tc), tc.name)
  }

  /** The result of `runExperiment` is consistent: counts, peak, log, and
      what the agent was asked at each step. */
  lemma RunExperimentBookkept(agent: Agent, tc: TestCase)
    ensures Bookkept(agent, RunExperiment(agent, tc)) && RunExperiment(agent, tc).caseName == tc.name
  {
    var (main, aborted) := SendWhile(agent, Start, StepRequests(tc.steps), Always);
    SendWhileWellFormed(agent, Start, StepRequests(tc.steps), Always);
    if !aborted && main.peakTokens < REPEAT_LIMIT {
      RepeatCyclesWellFormed(agent, main, Messages(tc.steps), 1, aborted);
    }
    FinishBookkept(agent, ExperimentRun(agent, tc), tc.name);
  }

  /** At most the last step failed. */
  predicate FailsOnlyAtEnd(steps: seq<StepResult>) {
    forall i :: 0 <= i < |steps| - 1 ==> !Failed(steps[i])
  }

  /** The fixture's steps come first and in order, stopping early only at
      a failure. */
  predicate StepsFirst(tc: TestCase, steps: seq<StepResult>) {
    && (forall i :: 0 <= i < |steps| && i < |tc.steps| ==>
          RequestOf(steps[i]) == StepRequest(tc.steps[i]))
    && (|steps| < |tc.steps| ==> |steps| > 0 && Failed(steps[|steps| - 1]))
  }

  /** Whatever follows the fixture's steps replays the messages cycle by
      cycle, at most three times, each replay sent while the peak was
      below 120000. */
  predicate CyclesAfter(tc: TestCase, steps: seq<StepResult>) {
    |steps| > |tc.steps| ==>
      && |steps| - |tc.steps| <= MAX_CYCLES * |Messages(tc.steps)|
      && (forall j :: |tc.steps| <= j < |steps| ==>
            && RequestOf(steps[j]) == RepeatPlan(Messages(tc.steps), 1)[j - |tc.steps|]
            && MaxReported(steps[..j]) < REPEAT_LIMIT)
  }

  /** The run stops only on a failed step, once the peak reached 120000,
      or after every step and all three cycles of replays. */
  predicate EndsForAReason(tc: TestCase, steps: seq<StepResult>) {
    || (|steps| > 0 && Failed(steps[|steps| - 1]))
    || MaxReported(steps) >= REPEAT_LIMIT
    || |steps| == |tc.steps| + MAX_CYCLES * |Messages(tc.steps)|
  }

  /** What `runExperiment` sends: at most the last step failed; the
      fixture's steps come first and in order, stopping early only at a
      failure; whatever follows replays the messages cycle by cycle; and
      it stops only for one of the three reasons above. */
  predicate ExperimentSends(tc: TestCase, steps: seq<StepResult>) {
    FailsOnlyAtEnd(steps) && StepsFirst(tc, steps) && CyclesAfter(tc, steps) && EndsForAReason(tc, steps)
  }

  lemma RunExperimentSends(agent: Agent, tc: TestCase)
    ensures ExperimentSends(tc, RunExperiment(agent, tc).steps)
  {
    var qs := StepRequests(tc.steps);
    SendWhileShape(agent, Start, qs, Always);
    var (main, aborted) := SendWhile(agent, Start, qs, Always);
    var r := ExperimentRun(agent, tc);
    if !aborted && main.peakTokens < REPEAT_LIMIT {
      var msgs := Messages(tc.steps);
      assert r == RepeatCycles(agent, main, msgs, 1, aborted);
      RepeatCyclesShape(agent, main, msgs, 1, aborted);
      StepsThenCycles(tc, main, r);
    } else {
      StepsOnly(tc, main, aborted);
    }
  }

  /** The fixture's steps alone satisfy `ExperimentSends`. */
  lemma StepsOnly(tc: TestCase, main: Run, aborted: bool)
    requires WhileShape(Start, main, aborted, StepRequests(tc.steps), Always)
    requires aborted || main.peakTokens >= REPEAT_LIMIT
    ensures ExperimentSends(tc, main.results)
  {
  }

  /** The fixture's steps followed by the cycles satisfy
      `ExperimentSends`. */
  lemma StepsThenCycles(tc: TestCase, main: Run, r: Run)
    requires WhileShape(Start, main, false, StepRequests(tc.steps), Always)
    requires main.peakTokens < REPEAT_LIMIT && CyclesShape(main, r, Messages(tc.steps), 1, false)
    ensures ExperimentSends(tc, r.results)
  {
    KeepsSteps(tc, main, r);
    CyclesFailOnlyAtEnd(tc, main, r);
    CyclesAfterSteps(tc, main, r);
    CyclesEndForAReason(tc, main, r);
  }

  lemma KeepsSteps(tc: TestCase, main: Run, r: Run)
    requires WhileShape(Start, main, false, StepRequests(tc.steps), Always)
    requires Extends(main, r)
    ensures |main.results| == |tc.steps| && StepsFirst(tc, r.results)
    ensures forall i :: 0 <= i < |tc.steps| ==> r.results[i] == main.results[i]
  {
    var n := |tc.steps|;
    forall i | 0 <= i < n ensures r.results[i] == main.results[i] {
      assert r.results[i] == r.results[..n][i];
    }
  }

  lemma CyclesFailOnlyAtEnd(tc: TestCase, main: Run, r: Run)
    requires WhileShape(Start, main, false, StepRequests(tc.steps), Always)
    requires |main.results| == |tc.steps| && Extends(main, r) && OnlyLastFails(r, |main.results|)
    requires forall i :: 0 <= i < |tc.steps| ==> r.results[i] == main.results[i]
    ensures FailsOnlyAtEnd(r.results)
  {
    var n := |tc.steps|;
    forall i | 0 <= i < |r.results| - 1 ensures !Failed(r.results[i]) {
      if i < n {
        assert r.results[i] == main.results[i];
        if i == n - 1 {
          assert !Failed(main.results[|main.results| - 1]);
        }
      }
    }
  }

  lemma CyclesAfterSteps(tc: TestCase, main: Run, r: Run)
    requires |main.results| == |tc.steps|
    requires CyclesShape(main, r, Messages(tc.steps), 1, false)
    ensures CyclesAfter(tc, r.results)
  {
    RepeatPlanLength(Messages(tc.steps), 1);
  }

  lemma CyclesEndForAReason(tc: TestCase, main: Run, r: Run)
    requires |main.results| == |tc.steps|
    requires CyclesShape(main, r, Messages(tc.steps), 1, false)
    ensures EndsForAReason(tc, r.results)
  {
    RepeatPlanLength(Messages(tc.steps), 1);
    assert r.peakTokens == MaxReported(r.results);
  }

  // ---------------------------------------------------------------------------
  // runOverflowExperiment

  /** The Phase 3 loop after `done` rounds: start another round while the
      last reported total is below 120000 and fewer than ten rounds ran;
      within a round, send while the last total is below 125000; an error
      in a round ends the phase. */
  function Rounds(agent: Agent, run: Run, msgs: seq<TestStep>, done: nat): Run
    decreases MAX_ROUNDS - done
  {
    if !(run.lastTotalTokens < REPEAT_LIMIT && done < MAX_ROUNDS) then run
    else
      var (r1, error) := SendWhile(agent, run, RoundPlan(msgs, done + 1), LastBelow(ROUND_SEND_LIMIT));
      if error then r1 else Rounds(agent, r1, msgs, done + 1)
  }

  lemma {:induction false} RoundsWellFormed(agent: Agent, run: Run, msgs: seq<TestStep>, done: nat)
    requires WellFormed(agent, run)
    ensures WellFormed(agent, Rounds(agent, run, msgs, done))
    decreases MAX_ROUNDS - done
  {
    if run.lastTotalTokens < REPEAT_LIMIT && done < MAX_ROUNDS {
      var (r1, error) := SendWhile(agent, run, RoundPlan(msgs, done + 1), LastBelow(ROUND_SEND_LIMIT));
      SendWhileWellFormed(agent, run, RoundPlan(msgs, done + 1), LastBelow(ROUND_SEND_LIMIT));
      if !error {
        RoundsWellFormed(agent, r1, msgs, done + 1);
      }
    }
  }

  /** Where round `k` of a Phase 3 stretch begins, counting rounds from 0
      and results from `base`, with `m` replays per round. */
  function RoundStart(base: nat, k: nat, m: nat): nat {
    base + k * m
  }

  lemma RoundStartShift(base: nat, k: nat, m: nat)
    ensures RoundStart(base + m, k, m) == RoundStart(base, k + 1, m)
    ensures RoundStart(base, k + 1, m) >= base + m
  {
    assert (k + 1) * m == k * m + m;
  }

  /** Every round of `r` after result `base` that sent anything started
      while the last reported total was below 120000. */
  predicate RoundsStartedBelow(r: Run, base: nat, m: nat, rounds: nat) {
    forall k :: 0 <= k < rounds && RoundStart(base, k, m) < |r.results| ==>
      LastReported(r.results[..RoundStart(base, k, m)]) < REPEAT_LIMIT
  }

  /** `r` holds whole rounds after result `base`: fewer than `rounds`. */
  predicate AtRoundEnd(r: Run, base: nat, m: nat, rounds: nat) {
    exists k :: 0 <= k < rounds && RoundStart(base, k, m) == |r.results|
  }

  /** What Phase 3 from `run` after `done` rounds leaves behind: a
      replayed prefix of rounds `done+1..10`, each step sent while the last
      total was below 125000, each round begun while it was below 120000,
      with only the last step possibly failed. It ends on an error, after
      all the rounds, in the middle of a round once the last total reached
      125000, or between rounds once it reached 120000. */
  predicate RoundsShape(run: Run, r: Run, msgs: seq<TestStep>, done: nat)
    requires done <= MAX_ROUNDS
  {
    && Tracked(r) && Extends(run, r)
    && SentPrefix(r, |run.results|, RoundsPlan(msgs, done + 1))
    && OnlyLastFails(r, |run.results|)
    && SentAllowed(r, |run.results|, LastBelow(ROUND_SEND_LIMIT))
    && RoundsStartedBelow(r, |run.results|, |msgs|, MAX_ROUNDS - done)
    && (run.lastTotalTokens >= REPEAT_LIMIT ==> r == run)
    && (|| (|r.results| > |run.results| && Failed(r.results[|r.results| - 1]))
        || |r.results| == RoundStart(|run.results|, MAX_ROUNDS - done, |msgs|)
        || r.lastTotalTokens >= ROUND_SEND_LIMIT
        || (r.lastTotalTokens >= REPEAT_LIMIT && AtRoundEnd(r, |run.results|, |msgs|, MAX_ROUNDS - done)))
  }

  lemma {:induction false} RoundsShaped(agent: Agent, run: Run, msgs: seq<TestStep>, done: nat)
    requires Tracked(run)
    requires done <= MAX_ROUNDS
    ensures RoundsShape(run, Rounds(agent, run, msgs, done), msgs, done)
    decreases MAX_ROUNDS - done
  {
    if run.lastTotalTokens < REPEAT_LIMIT && done < MAX_ROUNDS {
      var g := LastBelow(ROUND_SEND_LIMIT);
      SendWhileShape(agent, run, RoundPlan(msgs, done + 1), g);
      var (r1, error) := SendWhile(agent, run, RoundPlan(msgs, done + 1), g);
      if error {
        RoundThenStop(run, r1, msgs, done);
      } else {
        RoundsShaped(agent, r1, msgs, done + 1);
        RoundThenMore(run, r1, Rounds(agent, r1, msgs, done + 1), msgs, done);
      }
    } else {
      NoRound(run, msgs, done);
    }
  }

  /** Phase 3 that starts no round leaves the run as it was. */
  lemma NoRound(run: Run, msgs: seq<TestStep>, done: nat)
    requires Tracked(run) && done <= MAX_ROUNDS
    requires run.lastTotalTokens >= REPEAT_LIMIT || done == MAX_ROUNDS
    ensures RoundsShape(run, run, msgs, done)
  {
    var n := |run.results|;
    assert RoundStart(n, 0, |msgs|) == n;
    forall k | 0 <= k < MAX_ROUNDS - done ensures RoundStart(n, k, |msgs|) >= n {
      assert k * |msgs| >= 0;
    }
  }

  /** The rounds a single round `r1` holds started below 120000: only its
      own start lies before its end. */
  lemma OneRoundStarted(run: Run, r1: Run, msgs: seq<TestStep>, rounds: nat)
    requires Tracked(run) && run.lastTotalTokens < REPEAT_LIMIT
    requires Extends(run, r1) && |r1.results| <= |run.results| + |msgs|
    ensures RoundsStartedBelow(r1, |run.results|, |msgs|, rounds)
  {
    var n := |run.results|;
    forall k | 0 <= k < rounds && RoundStart(n, k, |msgs|) < |r1.results|
      ensures LastReported(r1.results[..RoundStart(n, k, |msgs|)]) < REPEAT_LIMIT
    {
      if k == 0 {
        assert RoundStart(n, k, |msgs|) == n;
      } else {
        RoundStartShift(n, k - 1, |msgs|);
      }
    }
  }

  /** A round that ended on an error ends Phase 3. */
  lemma RoundThenStop(run: Run, r1: Run, msgs: seq<TestStep>, done: nat)
    requires Tracked(run)
    requires done < MAX_ROUNDS && run.lastTotalTokens < REPEAT_LIMIT
    requires WhileShape(run, r1, true, RoundPlan(msgs, done + 1), LastBelow(ROUND_SEND_LIMIT))
    ensures RoundsShape(run, r1, msgs, done)
  {
    SentPrefixConcat(run, r1, r1, RoundPlan(msgs, done + 1), RoundsPlan(msgs, done + 2));
    OneRoundStarted(run, r1, msgs, MAX_ROUNDS - done);
  }

  /** A round without error followed by the remaining rounds reads as
      Phase 3. */
  lemma RoundThenMore(run: Run, r1: Run, r: Run, msgs: seq<TestStep>, done: nat)
    requires Tracked(run)
    requires done < MAX_ROUNDS && run.lastTotalTokens < REPEAT_LIMIT
    requires WhileShape(run, r1, false, RoundPlan(msgs, done + 1), LastBelow(ROUND_SEND_LIMIT))
    requires RoundsShape(r1, r, msgs, done + 1)
    ensures RoundsShape(run, r, msgs, done)
  {
    Chain(run, r1, r, LastBelow(ROUND_SEND_LIMIT));
    SentPrefixConcat(run, r1, r, RoundPlan(msgs, done + 1), RoundsPlan(msgs, done + 2));
    if |r1.results| < |run.results| + |msgs| {
      assert r == r1;
      OneRoundStarted(run, r1, msgs, MAX_ROUNDS - done);
    } else {
      LaterRoundsStarted(run, r1, r, msgs, MAX_ROUNDS - done);
      LaterRoundsEnd(run, r1, r, msgs, MAX_ROUNDS - done);
    }
  }

  /** After a full first round, the later rounds' starts are the starts
      of the rounds that follow it. */
  lemma LaterRoundsStarted(run: Run, r1: Run, r: Run, msgs: seq<TestStep>, rounds: nat)
    requires Tracked(run) && run.lastTotalTokens < REPEAT_LIMIT && rounds >= 1
    requires Extends(run, r1) && Extends(r1, r) && Extends(run, r)
    requires |r1.results| == |run.results| + |msgs|
    requires RoundsStartedBelow(r, |r1.results|, |msgs|, rounds - 1)
    ensures RoundsStartedBelow(r, |run.results|, |msgs|, rounds)
  {
    var n := |run.results|;
    var m := |msgs|;
    forall k | 0 <= k < rounds && RoundStart(n, k, m) < |r.results|
      ensures LastReported(r.results[..RoundStart(n, k, m)]) < REPEAT_LIMIT
    {
      if k == 0 {
        assert RoundStart(n, k, m) == n;
        assert r.results[..n] == run.results;
      } else {
        RoundStartShift(n, k - 1, m);
        assert RoundStart(n, k, m) == RoundStart(|r1.results|, k - 1, m);
      }
    }
  }

  lemma LaterRoundsEnd(run: Run, r1: Run, r: Run, msgs: seq<TestStep>, rounds: nat)
    requires rounds >= 1 && Extends(r1, r)
    requires |r1.results| == |run.results| + |msgs|
    requires || (|r.results| > |r1.results| && Failed(r.results[|r.results| - 1]))
             || |r.results| == RoundStart(|r1.results|, rounds - 1, |msgs|)
             || r.lastTotalTokens >= ROUND_SEND_LIMIT
             || (r.lastTotalTokens >= REPEAT_LIMIT && AtRoundEnd(r, |r1.results|, |msgs|, rounds - 1))
    ensures || (|r.results| > |run.results| && Failed(r.results[|r.results| - 1]))
            || |r.results| == RoundStart(|run.results|, rounds, |msgs|)
            || r.lastTotalTokens >= ROUND_SEND_LIMIT
            || (r.lastTotalTokens >= REPEAT_LIMIT && AtRoundEnd(r, |run.results|, |msgs|, rounds))
  {
    var n := |run.results|;
    var m := |msgs|;
    RoundStartShift(n, rounds - 1, m);
    if r.lastTotalTokens >= REPEAT_LIMIT && AtRoundEnd(r, |r1.results|, m, rounds - 1) {
      var k :| 0 <= k < rounds - 1 && RoundStart(|r1.results|, k, m) == |r.results|;
      RoundStartShift(n, k, m);
      assert RoundStart(n, k + 1, m) == |r.results|;
    }
  }

  /** The state after each phase of `runOverflowExperiment`, and whether
      Phase 1 hit an error. */
  datatype OverflowPhases = OverflowPhases(
    loaded1: Run, phase1Error: bool, loaded2: Run, repeated: Run, verified: Run)

  /** `(case2.steps + case3.steps).filterIsInstance<TestStep.Message>()`. */
  function AllMessages(case2: TestCase, case3: TestCase): seq<TestStep> {
    Messages(case2.steps + case3.steps)
  }

  function AllVerifications(case2: TestCase, case3: TestCase): seq<TestStep> {
    Verifications(case2.steps) + Verifications(case3.steps)
  }

  function OverflowRun(agent: Agent, case2: TestCase, case3: TestCase): OverflowPhases {
    var (p1, error1) := SendWhile(agent, Start, StepRequests(NonVerifications(case2.steps)), Always);
    var p2 := if !error1
      then SendWhile(agent, p1, StepRequests(NonVerifications(case3.steps)), Always).0
      else p1;
    var p3 := Rounds(agent, p2, AllMessages(case2, case3), 0);
    var p4 := SendAll(agent, p3, StepRequests(AllVerifications(case2, case3)));
    OverflowPhases(p1, error1, p2, p3, p4)
  }

  /** `runOverflowExperiment`. */
  function RunOverflowExperiment(agent: Agent, case2: TestCase, case3: TestCase): ExperimentResult {
    Finish(OverflowRun(agent, case2, case3).verified, "case_3_overflow_fixed")
  }

  /** Every phase keeps the invariant. */
  lemma OverflowWellFormed(agent: Agent, case2: TestCase, case3: TestCase)
    ensures var ph := OverflowRun(agent, case2, case3);
      && WellFormed(agent, ph.loaded1) && WellFormed(agent, ph.loaded2)
      && WellFormed(agent, ph.repeated) && WellFormed(agent, ph.verified)
  {
    var ph := OverflowRun(agent, case2, case3);
    SendWhileWellFormed(agent, Start, StepRequests(NonVerifications(case2.steps)), Always);
    if !ph.phase1Error {
      SendWhileWellFormed(agent, ph.loaded1, StepRequests(NonVerifications(case3.steps)), Always);
    }
    RoundsWellFormed(agent, ph.loaded2, AllMessages(case2, case3), 0);
    SendAllWellFormed(agent, ph.repeated, StepRequests(AllVerifications(case2, case3)));
  }

  /** The overflow result's record is consistent and names the case. */
  lemma RunOverflowExperimentBookkept(agent: Agent, case2: TestCase, case3: TestCase)
    ensures var e := RunOverflowExperiment(agent, case2, case3);
      && Bookkept(agent, e) && e.caseName == "case_3_overflow_fixed"
      && e.steps == OverflowRun(agent, case2, case3).verified.results
  {
    OverflowWellFormed(agent, case2, case3);
    FinishBookkept(agent, OverflowRun(agent, case2, case3).verified, "case_3_overflow_fixed");
  }

  /** Phases 1 and 2 from the start: `p1` sent the non-verification steps
      `q1` of case 2 in order, stopping after its first error (`error1`
      says whether there was one) and only then stopping early; `p2` then
      sent those of case 3, `q2`, the same way (in order, stopping after
      its first error and only then stopping early), unless Phase 1 had
      an error, in which case Phase 2 sent nothing. */
  predicate LoadShape(q1: seq<Request>, q2: seq<Request>, p1: Run, error1: bool, p2: Run) {
    && Tracked(p2) && Extends(p1, p2)
    && SentPrefix(p1, 0, q1)
    && OnlyLastFails(p1, 0)
    && (error1 <==> |p1.results| > 0 && Failed(p1.results[|p1.results| - 1]))
    && (!error1 ==> |p1.results| == |q1|)
    && (error1 ==> p2 == p1)
    && (!error1 ==> SentPrefix(p2, |p1.results|, q2) && OnlyLastFails(p2, |p1.results|))
    && (!error1 && (|p2.results| == |p1.results| || !Failed(p2.results[|p2.results| - 1])) ==>
          |p2.results| == |p1.results| + |q2|)
  }

  lemma OverflowLoadSends(agent: Agent, case2: TestCase, case3: TestCase)
    ensures var ph := OverflowRun(agent, case2, case3);
      LoadShape(StepRequests(NonVerifications(case2.steps)), StepRequests(NonVerifications(case3.steps)),
                ph.loaded1, ph.phase1Error, ph.loaded2)
  {
    var ph := OverflowRun(agent, case2, case3);
    var q1 := StepRequests(NonVerifications(case2.steps));
    var q2 := StepRequests(NonVerifications(case3.steps));
    SendWhileShape(agent, Start, q1, Always);
    var (p1, error1) := SendWhile(agent, Start, q1, Always);
    assert ph.loaded1 == p1 && ph.phase1Error == error1;
    if error1 {
      assert ph.loaded2 == p1;
      LoadedOnce(q1, q2, p1);
    } else {
      SendWhileShape(agent, p1, q2, Always);
      var (p2, error2) := SendWhile(agent, p1, q2, Always);
      assert ph.loaded2 == p2;
      LoadedTwice(q1, q2, p1, p2, error2);
    }
  }

  lemma LoadedOnce(q1: seq<Request>, q2: seq<Request>, p1: Run)
    requires WhileShape(Start, p1, true, q1, Always)
    ensures LoadShape(q1, q2, p1, true, p1)
  {
  }

  lemma LoadedTwice(q1: seq<Request>, q2: seq<Request>, p1: Run, p2: Run, error2: bool)
    requires WhileShape(Start, p1, false, q1, Always)
    requires WhileShape(p1, p2, error2, q2, Always)
    ensures LoadShape(q1, q2, p1, false, p2)
  {
  }

  /** Phase 3 starts from wherever Phase 2 left off, error or not, and
      replays a prefix of rounds 1..10 over all messages of both cases:
      at most ten rounds, each step sent while the last reported total was
      below 125000 and each round begun while it was below 120000, ending
      on an error, after ten rounds, in the middle of a round once the last
      total reached 125000, or between rounds once it reached 120000. */
  lemma OverflowRepeatSends(agent: Agent, case2: TestCase, case3: TestCase)
    ensures var ph := OverflowRun(agent, case2, case3);
      var msgs := AllMessages(case2, case3);
      && RoundsShape(ph.loaded2, ph.repeated, msgs, 0)
      && |ph.repeated.results| - |ph.loaded2.results| <= MAX_ROUNDS * |msgs|
  {
    OverflowLoadSends(agent, case2, case3);
    var ph := OverflowRun(agent, case2, case3);
    var msgs := AllMessages(case2, case3);
    assert ph.repeated == Rounds(agent, ph.loaded2, msgs, 0);
    RoundsShaped(agent, ph.loaded2, msgs, 0);
    RoundsPlanLength(msgs, 1);
  }

  /** Phase 4 sends every verification of case 2 and then of case 3,
      exactly once each, whatever happened before. */
  lemma OverflowVerifySends(agent: Agent, case2: TestCase, case3: TestCase)
    ensures var ph := OverflowRun(agent, case2, case3);
      var vs := AllVerifications(case2, case3);
      && Extends(ph.repeated, ph.verified)
      && |ph.verified.results| == |ph.repeated.results| + |vs|
      && (forall k :: 0 <= k < |vs| ==>
            RequestOf(ph.verified.results[|ph.repeated.results| + k]) == StepRequest(vs[k]))
  {
    var ph := OverflowRun(agent, case2, case3);
    var vs := AllVerifications(case2, case3);
    SendAllShape(agent, ph.repeated, StepRequests(vs));
    forall k | 0 <= k < |vs|
      ensures RequestOf(ph.verified.results[|ph.repeated.results| + k]) == StepRequest(vs[k])
    {
      assert StepRequests(vs)[|ph.repeated.results| + k - |ph.repeated.results|] == StepRequest(vs[k]);
    }
  }

  /** An error in Phase 1 skips only Phase 2: when the last reported total
      is still below 120000 and there is a message, Phase 3 sends at least
      one replay, and Phase 4 sends every verification. */
  lemma Phase1ErrorSkipsOnlyPhase2(agent: Agent, case2: TestCase, case3: TestCase)
    requires OverflowRun(agent, case2, case3).phase1Error
    ensures var ph := OverflowRun(agent, case2, case3);
      && ph.loaded2 == ph.loaded1
      && (ph.loaded1.lastTotalTokens < REPEAT_LIMIT && |AllMessages(case2, case3)| > 0 ==>
            |ph.repeated.results| > |ph.loaded2.results|)
      && |ph.verified.results| == |ph.repeated.results| + |AllVerifications(case2, case3)|
  {
    OverflowLoadSends(agent, case2, case3);
    OverflowVerifySends(agent, case2, case3);
    var ph := OverflowRun(agent, case2, case3);
    var msgs := AllMessages(case2, case3);
    if ph.loaded1.lastTotalTokens < REPEAT_LIMIT && |msgs| > 0 {
      FirstRoundSends(agent, ph.loaded2, msgs);
    }
  }

  /** Phase 3 sends something whenever it starts with a message to send. */
  lemma FirstRoundSends(agent: Agent, run: Run, msgs: seq<TestStep>)
    requires Tracked(run) && run.lastTotalTokens < REPEAT_LIMIT && |msgs| > 0
    ensures |Rounds(agent, run, msgs, 0).results| > |run.results|
  {
    var g := LastBelow(ROUND_SEND_LIMIT);
    SendWhileShape(agent, run, RoundPlan(msgs, 1), g);
    var (r1, error) := SendWhile(agent, run, RoundPlan(msgs, 1), g);
    SendsSomething(run, r1, error, RoundPlan(msgs, 1), g);
    if !error {
      RoundsShaped(agent, r1, msgs, 1);
    }
  }

  /** A guarded loop with a request to send and a guard that allows it
      sends at least one. */
  lemma SendsSomething(run: Run, r: Run, aborted: bool, qs: seq<Request>, g: Guard)
    requires Tracked(run) && Allows(g, run) && qs != []
    requires WhileShape(run, r, aborted, qs, g)
    ensures |r.results| > |run.results|
  {
    ExtendsNothing(run, r);
  }

  lemma ExtendsNothing(a: Run, b: Run)
    requires Extends(a, b)
    ensures |b.results| == |a.results| ==> b.results == a.results
  {
    assert b.results[..|a.results|] == a.results;
    if |b.results| == |a.results| {
      assert b.results == b.results[..|a.results|];
    }
  }

  /** An agent that always answers without error and reports no usage. */
  function Quiet(h: seq<ChatMessage>): AgentResponse {
    AgentResponse("ok", None, "", 200, None)
  }

  /** With an agent that never fails and never reports usage, Phase 3 runs
      all ten rounds: the round cap is ten, not five. */
  lemma QuietAgentRunsTenRounds(case2: TestCase, case3: TestCase)
    ensures var ph := OverflowRun(Quiet, case2, case3);
      |ph.repeated.results| - |ph.loaded2.results| == MAX_ROUNDS * |AllMessages(case2, case3)|
  {
    OverflowWellFormed(Quiet, case2, case3);
    OverflowRepeatSends(Quiet, case2, case3);
    var ph := OverflowRun(Quiet, case2, case3);
    var rs := ph.repeated.results;
    ReplayedMeans(Quiet, rs);
    assert forall i :: 0 <= i < |rs| ==> rs[i].usage.None? && !Failed(rs[i]) by {
      forall i | 0 <= i < |rs| ensures rs[i].usage.None? && !Failed(rs[i]) {
        assert Answered(Quiet, rs, i);
      }
    }
    LastIsLatest(rs);
  }
}
