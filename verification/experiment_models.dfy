/**
 * The records the experiment runner reads and writes: token usage, the
 * agent's reply, one result per step sent, the conversation log, and the
 * final experiment result. Timestamps are not part of this model.
 */
module ExperimentModels {
  import opened Wrappers
  import opened Text

  /** Token counts reported by the upstream API for one call. */
  datatype TokenUsage = TokenUsage(
    promptTokens: int,
    completionTokens: int,
    totalTokens: int,
    promptCacheHitTokens: int,
    promptCacheMissTokens: int)

  datatype Role = User | Assistant

  /** One turn of the conversation history sent to the agent. */
  datatype ChatMessage = ChatMessage(role: Role, content: String)

  /** What the agent's `chat` returns: it never throws, a failure is a
      non-null `errorMessage`. */
  datatype AgentResponse = AgentResponse(
    content: String,
    usage: Option<TokenUsage>,
    rawResponseBody: String,
    httpStatus: int,
    errorMessage: Option<String>)

  /** The agent: any function from the history so far to a reply. */
  type Agent = seq<ChatMessage> -> AgentResponse

  /** What one step asks the agent: the user text and how it is labelled. */
  datatype Request = Request(
    userMessage: String,
    stepId: String,
    stepType: String,
    failureMode: Option<String>)

  /** The record kept for every step sent. */
  datatype StepResult = StepResult(
    stepId: String,
    stepType: String,
    failureMode: Option<String>,
    userMessage: String,
    assistantResponse: Option<String>,
    usage: Option<TokenUsage>,
    httpStatus: int,
    errorMessage: Option<String>,
    conversationLength: nat)

  /** A log-only mirror of each user or assistant turn. */
  datatype ConversationEntry = ConversationEntry(
    role: Role,
    content: String,
    stepId: String,
    stepType: String,
    usage: Option<TokenUsage>)

  datatype ExperimentResult = ExperimentResult(
    caseName: String,
    steps: seq<StepResult>,
    conversationLog: seq<ConversationEntry>,
    totalMessages: nat,
    peakTokens: int,
    totalSteps: nat,
    failedSteps: nat)

  /** The request a result was recorded for. */
  function RequestOf(r: StepResult): Request {
    Request(r.userMessage, r.stepId, r.stepType, r.failureMode)
  }

  predicate Failed(r: StepResult) {
    r.errorMessage.Some?
  }

  /** `count { it.errorMessage != null }`: none counted exactly when no
      result failed, all exactly when every one did. */
  function CountFailed(rs: seq<StepResult>): (n: nat)
    ensures n <= |rs|
    ensures n == 0 <==> forall i :: 0 <= i < |rs| ==> !Failed(rs[i])
    ensures n == |rs| <==> forall i :: 0 <= i < |rs| ==> Failed(rs[i])
  {
    if rs == [] then 0
    else
      var p := rs[..|rs| - 1];
      assert forall i :: 0 <= i < |p| ==> p[i] == rs[i];
      CountFailed(p) + (if Failed(rs[|rs| - 1]) then 1 else 0)
  }

  /** The count is additive: the failures of two runs of results are
      those of each. */
  lemma {:induction false} CountFailedAppend(a: seq<StepResult>, b: seq<StepResult>)
    ensures CountFailed(a + b) == CountFailed(a) + CountFailed(b)
    decreases |b|
  {
    if b == [] {
      assert a + b == a;
    } else {
      var n := |b| - 1;
      assert (a + b)[..|a + b| - 1] == a + b[..n];
      assert (a + b)[|a + b| - 1] == b[n];
      CountFailedAppend(a, b[..n]);
    }
  }

  /** One result counts one exactly when it failed. */
  lemma CountFailedOne(x: StepResult)
    ensures CountFailed([x]) == if Failed(x) then 1 else 0
  {
    assert [x][..0] == [];
  }

  /** `takeIf { it.isNotEmpty() }`. */
  function NonEmpty(s: String): Option<String> {
    if |s| > 0 then Some(s) else None
  }
}
