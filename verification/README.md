# Day-8 experiment engine, SSE streams and response formatter in Dafny

This project models the logic of a Kotlin Multiplatform "AI challenge" application in Dafny and proves properties of the model. The application has a Ktor server and a Compose client.

- **Fixture parser.** `parseTestData` cuts a fixture text into `=== HEADER ===` sections. Each header becomes the system prompt, a dropped note, or a typed `TestStep` (`Message`, `Checkpoint`, `Verification`) with total `id`/`content`/`failureMode`/`type` accessors (`test_data_parser.dfy`, `test_case.dfy`).
- **Experiment runner.** `Day8ExperimentRunner.runExperiment` and `runOverflowExperiment`, with their local `sendStep` (`experiment_runner.dfy`, records in `experiment_models.dfy`).
  - The agent is an oracle: any function from the history so far to a reply `(content, usage?, httpStatus, errorMessage?)`.
  - Each run is a fold over that oracle's replies. Its state is the history, the step results, the conversation log, `peakTokens` and `lastTotalTokens`.
- **Temperature relay.** The `/api/temperature/stream` route turns upstream SSE lines into `content`, `[DONE]` and `error` events (`temperature_routes.dfy`).
  - The upstream exchange is an input and chunk decoding is an oracle.
  - Emission is kept apart from the event text, so that the text can be read back.
- **Model-tier route.** The `/api/models/stream` route writes three `model_start` events, drains the three tier results in an arbitrary completion order, and ends with `done`. An exception escaping the block ends the stream with an `error` event instead (`model_routes.dfy`).
- **JSON escaping.** The hand-written escaping both routes use, with a reader for JSON string bodies that states when the text survives a JSON decoder (`json_escape.dfy`).
- **Client decoders.** `TemperatureApi.streamTemperatureResult` and `ModelApi.streamModelComparison` are loops over the response lines (`temperature_api.dfy`, `model_api.dfy`).
  - Each loop is a method proved equal to a reference fold.
  - The lines read are an input, and so is how the body ends (`http_body.dfy`): closed, or failed by a read error or a timeout, which raises.
  - The JSON decoders are oracles.
- **Text formatter.** `formatAiResponse` is a pipeline of literal and regular-expression replaces (`text_formatter.dfy`).
  - Each regular expression is modelled by what it matches at one position, with `java.util.regex` semantics.
  - Each replace is a left-to-right, non-overlapping scan.
- **Shared modules.** `text.dfy` holds Kotlin's `trim()`, `startsWith`, `removePrefix`, literal `replace` and integer printing. `wrappers.dfy` holds `Option`.

Where the code and its documentation disagree, the model follows the code. The KDoc of `runOverflowExperiment` promises "max 5 rounds" (Day8ExperimentRunner.kt line 164), but the Phase 3 loop caps at 10 rounds (line 266). `ExperimentRunner.MAX_ROUNDS` is 10, and `ExperimentRunner.QuietAgentRunsTenRounds` shows that all ten rounds are run. Likewise, an error in Phase 1 skips only Phase 2; Phases 3 and 4 still run (`ExperimentRunner.Phase1ErrorSkipsOnlyPhase2`).

## Model

| member | source | states |
|---|---|---|
| TestDataParser.SplitLines | server/src/main/kotlin/com/portfolio/ai_challenge/experiment/TestDataParser.kt:12 | `lines()` gives at least one line and no line holds a line break |
| TestDataParser.SplitLinesJoin | server/src/main/kotlin/com/portfolio/ai_challenge/experiment/TestDataParser.kt:12 | for text without carriage returns, joining the lines with `\n` gives the text back |
| TestDataParser.MatchTagged | server/src/main/kotlin/com/portfolio/ai_challenge/experiment/TestDataParser.kt:44-51 | models matching a header against the CHECKPOINT or VERIFICATION pattern `^<keyword>(<lead>[\w-]+) \((.+)\)$`, yielding id and mode; its meaning is stated by `MatchTaggedSound` and `MatchTaggedComplete` |
| TestDataParser.Classify | server/src/main/kotlin/com/portfolio/ai_challenge/experiment/TestDataParser.kt:36-51 | models the `when` over a section header, in branch order; its meaning is stated by `ClassifySound` |
| TestDataParser.SplitSections | server/src/main/kotlin/com/portfolio/ai_challenge/experiment/TestDataParser.kt:15-31 | models the line loop with its `currentHeader`/`currentBody` state; `SplitSectionsRef` equates it with a reference definition |
| TestDataParser.SplitSectionsRef | server/src/main/kotlin/com/portfolio/ai_challenge/experiment/TestDataParser.kt:18-31 | for every input, the line loop yields the same sections as the reference cut: one section per divider, whose body is the lines up to the next divider, each followed by `\n`, then trimmed; lines before the first divider are dropped |
| TestDataParser.DividerOpensSection | server/src/main/kotlin/com/portfolio/ai_challenge/experiment/TestDataParser.kt:18-31 | a divider line followed by divider-free lines and then a divider or the end is one section, with that divider's header and the trimmed text of those lines; what comes before and after yields its own sections |
| TestDataParser.DividerHeader | server/src/main/kotlin/com/portfolio/ai_challenge/experiment/TestDataParser.kt:19-23 | the header of a divider line is the text between `=== ` and ` ===`, never empty |
| TestDataParser.MatchTaggedSound | server/src/main/kotlin/com/portfolio/ai_challenge/experiment/TestDataParser.kt:44-51 | whatever the CHECKPOINT/VERIFICATION matcher accepts has the shape `<keyword><lead>[\w-]+ (<mode>)` with the captured id and mode |
| TestDataParser.MatchTaggedComplete | server/src/main/kotlin/com/portfolio/ai_challenge/experiment/TestDataParser.kt:44-51 | every header of that shape is accepted, with exactly its id and mode |
| TestDataParser.ClassifySound | server/src/main/kotlin/com/portfolio/ai_challenge/experiment/TestDataParser.kt:37-51 | the `when` classifies a header as system prompt exactly when it equals `SYSTEM PROMPT`, and each other class implies the header's syntax |
| TestDataParser.SectionsFollowDividers | server/src/main/kotlin/com/portfolio/ai_challenge/experiment/TestDataParser.kt:18-31 | there is one section per divider line, in input order, headed by that divider's header |
| TestDataParser.SectionBodiesTrimmed | server/src/main/kotlin/com/portfolio/ai_challenge/experiment/TestDataParser.kt:18-31 | every section body is trimmed |
| TestDataParser.PreambleDiscarded | server/src/main/kotlin/com/portfolio/ai_challenge/experiment/TestDataParser.kt:15-27 | lines before the first divider do not affect the sections |
| TestDataParser.DispatchAllSpec | server/src/main/kotlin/com/portfolio/ai_challenge/experiment/TestDataParser.kt:33-53 | the dispatch loop appends the steps of the step-yielding sections in section order and keeps the body of the last `SYSTEM PROMPT` section |
| TestDataParser.StepOf | server/src/main/kotlin/com/portfolio/ai_challenge/experiment/TestDataParser.kt:36-53 | models one branch of the `when` per header class: message, checkpoint, verification or nothing; its per-class meaning is stated by the `…SectionStep` lemmas |
| TestDataParser.DispatchAll | server/src/main/kotlin/com/portfolio/ai_challenge/experiment/TestDataParser.kt:33-53 | models the `for` over the sections with its steps list and system prompt; `DispatchAllSpec` states what it accumulates |
| TestDataParser.StepsOfCount | server/src/main/kotlin/com/portfolio/ai_challenge/experiment/TestDataParser.kt:36-53 | the number of steps is the number of headers that match MESSAGE, CHECKPOINT or VERIFICATION |
| TestDataParser.ParseTestData | server/src/main/kotlin/com/portfolio/ai_challenge/experiment/TestDataParser.kt:11-56 | the parsed case keeps the given name; its steps are the steps of the reference sections of the input lines, in order; its system prompt is the body of the last SYSTEM PROMPT section, or empty |
| TestDataParser.ParseWithoutDivider | server/src/main/kotlin/com/portfolio/ai_challenge/experiment/TestDataParser.kt:15-34 | input without a divider parses to an empty system prompt and no steps |
| TestDataParser.ParseTrimmed | server/src/main/kotlin/com/portfolio/ai_challenge/experiment/TestDataParser.kt:18-55 | the system prompt and every step's content are trimmed |
| TestDataParser.ParseSteps | server/src/main/kotlin/com/portfolio/ai_challenge/experiment/TestDataParser.kt:11-56 | the number of steps is the number of divider headers matching the MESSAGE, CHECKPOINT or VERIFICATION patterns |
| TestDataParser.MessageSectionStep | server/src/main/kotlin/com/portfolio/ai_challenge/experiment/TestDataParser.kt:40-42 | a `MESSAGE <digits>` section yields a message with id `M<digits>` and the body as content |
| TestDataParser.CheckpointSectionStep | server/src/main/kotlin/com/portfolio/ai_challenge/experiment/TestDataParser.kt:44-46 | a `CHECKPOINT <id> (<mode>)` section yields a checkpoint with that id, mode and body |
| TestDataParser.VerificationSectionStep | server/src/main/kotlin/com/portfolio/ai_challenge/experiment/TestDataParser.kt:48-50 | a `VERIFICATION <id> (<mode>)` section yields a verification with that id, mode and body |
| TestDataParser.NoteSectionDropped | server/src/main/kotlin/com/portfolio/ai_challenge/experiment/TestDataParser.kt:39 | a `NOTE FOR AUTOTEST…` section yields no step |
| TestCase.TestStep.Id | server/src/main/kotlin/com/portfolio/ai_challenge/experiment/models/TestCase.kt:9-13 | the id field of whichever variant |
| TestCase.TestStep.Content | server/src/main/kotlin/com/portfolio/ai_challenge/experiment/models/TestCase.kt:15-19 | the content field of whichever variant |
| TestCase.TestStep.FailureMode | server/src/main/kotlin/com/portfolio/ai_challenge/experiment/models/TestCase.kt:21-25 | null exactly for a message, otherwise the stored failure mode |
| TestCase.TestStep.Type | server/src/main/kotlin/com/portfolio/ai_challenge/experiment/models/TestCase.kt:27-31 | `message` exactly for a message, `checkpoint` exactly for a checkpoint, `verification` exactly for a verification |
| TestCase.TypeIdentifiesVariant | server/src/main/kotlin/com/portfolio/ai_challenge/experiment/models/TestCase.kt:27-31 | two steps have the same type string exactly when they are the same variant |
| TestCase.Messages | server/src/main/kotlin/com/portfolio/ai_challenge/experiment/models/TestCase.kt:3-7 | `filterIsInstance<Message>`: exactly the messages of the list, in order; a one-step list gives itself or nothing |
| TestCase.Verifications | server/src/main/kotlin/com/portfolio/ai_challenge/experiment/models/TestCase.kt:3-7 | `filterIsInstance<Verification>`: exactly the verifications of the list, in order; a one-step list gives itself or nothing |
| TestCase.NonVerifications | server/src/main/kotlin/com/portfolio/ai_challenge/experiment/models/TestCase.kt:3-7 | `filter { it !is Verification }`: exactly the non-verification steps, in order; a one-step list gives itself or nothing |
| TestCase.MessagesConcat | server/src/main/kotlin/com/portfolio/ai_challenge/experiment/models/TestCase.kt:3-7 | selecting messages from a concatenation selects from each part in turn |
| TestCase.VerificationsConcat | server/src/main/kotlin/com/portfolio/ai_challenge/experiment/models/TestCase.kt:3-7 | selecting verifications from a concatenation selects from each part in turn |
| TestCase.NonVerificationsConcat | server/src/main/kotlin/com/portfolio/ai_challenge/experiment/models/TestCase.kt:3-7 | selecting non-verification steps from a concatenation selects from each part in turn |
| TestCase.SelectionsPartition | server/src/main/kotlin/com/portfolio/ai_challenge/experiment/models/TestCase.kt:3-7 | verifications and non-verification steps together account for every step once, and the messages all lie among the non-verification steps |
| ExperimentModels.CountFailed | server/src/main/kotlin/com/portfolio/ai_challenge/experiment/Day8ExperimentRunner.kt:153 | `count { it.errorMessage != null }`: at most the number of results, zero exactly when no result failed, and all of them exactly when every result failed |
| ExperimentModels.CountFailedAppend | server/src/main/kotlin/com/portfolio/ai_challenge/experiment/Day8ExperimentRunner.kt:153 | the failures of two runs of results add up |
| ExperimentRunner.SendStep | server/src/main/kotlin/com/portfolio/ai_challenge/experiment/Day8ExperimentRunner.kt:39-84 | models `sendStep`: append the user turn and its log entry, call the agent with the whole history, append the assistant turn and its log entry only when there was no error, update peak and last total, record the result; `SendStepAppends` and `ReplayedMeans` state what it records |
| ExperimentRunner.ReplayedMeans | server/src/main/kotlin/com/portfolio/ai_challenge/experiment/Day8ExperimentRunner.kt:39-84 | each recorded result holds what the agent answered to the history ending with that step's user turn, and its `conversationLength` is the history size just after |
| ExperimentRunner.SendStepAppends | server/src/main/kotlin/com/portfolio/ai_challenge/experiment/Day8ExperimentRunner.kt:39-84 | one step adds exactly one result, labelled with the request sent, and keeps `peakTokens` and `lastTotalTokens` in step with the results |
| ExperimentRunner.SendStepPreserves | server/src/main/kotlin/com/portfolio/ai_challenge/experiment/Day8ExperimentRunner.kt:178-226 | one step keeps history, log, peak, last total and replay in agreement with the results |
| ExperimentRunner.HistoryLength | server/src/main/kotlin/com/portfolio/ai_challenge/experiment/Day8ExperimentRunner.kt:39-66 | the history holds two turns per step minus one per failed step |
| ExperimentRunner.PeakIsMaximum | server/src/main/kotlin/com/portfolio/ai_challenge/experiment/Day8ExperimentRunner.kt:207-210 | `peakTokens` is the largest reported total, or 0 when none was reported |
| ExperimentRunner.LastIsLatest | server/src/main/kotlin/com/portfolio/ai_challenge/experiment/Day8ExperimentRunner.kt:207-210 | `lastTotalTokens` is the total of the latest step that reported usage, or 0 |
| ExperimentRunner.FinishBookkept | server/src/main/kotlin/com/portfolio/ai_challenge/experiment/Day8ExperimentRunner.kt:146-156 | the result's totalSteps, failedSteps, totalMessages = 2·steps − failed, peak, log and per-step lengths agree with the results |
| ExperimentRunner.SendWhile | server/src/main/kotlin/com/portfolio/ai_challenge/experiment/Day8ExperimentRunner.kt:86-306 | models the guarded send loops of both runs: send in order while the guard allows, stop after the first error; `SendWhileShape` states what it sends |
| ExperimentRunner.SendWhileShape | server/src/main/kotlin/com/portfolio/ai_challenge/experiment/Day8ExperimentRunner.kt:88-113 | a guarded send loop sends a prefix of its requests in order, each while the guard allowed it, only its last send may fail, it reports an error exactly then, and stops early otherwise only because the guard said no |
| ExperimentRunner.SendAllShape | server/src/main/kotlin/com/portfolio/ai_challenge/experiment/Day8ExperimentRunner.kt:297-306 | sending every request regardless of errors records exactly one result per request, in order |
| ExperimentRunner.RepeatCycles | server/src/main/kotlin/com/portfolio/ai_challenge/experiment/Day8ExperimentRunner.kt:115-144 | models the three replay cycles with their peak check and error stop; `RepeatCyclesShape` states what they send |
| ExperimentRunner.RepeatCyclesShape | server/src/main/kotlin/com/portfolio/ai_challenge/experiment/Day8ExperimentRunner.kt:116-144 | the cycles replay a prefix of cycles 1..3 in order, each replay sent while the peak was below 120000, nothing after an error, and nothing at all once the peak reached 120000; unless an earlier step failed, they end only on a failed replay, with every cycle replayed, or with the peak at 120000 or more |
| ExperimentRunner.RunExperiment | server/src/main/kotlin/com/portfolio/ai_challenge/experiment/Day8ExperimentRunner.kt:32-157 | models `runExperiment`: the main loop, then the cycles unless it aborted or the peak reached 120000, then the result; `RunExperimentBookkept` and `RunExperimentSends` state what it yields |
| ExperimentRunner.RunExperimentBookkept | server/src/main/kotlin/com/portfolio/ai_challenge/experiment/Day8ExperimentRunner.kt:32-157 | the `runExperiment` result is consistent: counts, peak, log, lengths, replayed answers, case name |
| ExperimentRunner.RunExperimentSends | server/src/main/kotlin/com/portfolio/ai_challenge/experiment/Day8ExperimentRunner.kt:86-144 | `runExperiment` sends the fixture's steps first and in order, stopping only at a failure; at most the last result failed; any further results replay the messages as `<id>-R<cycle>` / `REPEAT: <content>`, at most three cycles, each while the peak was below 120000; the run ends only on a failure, with the peak at 120000 or more, or after every step and all three cycles |
| ExperimentRunner.RoundsShaped | server/src/main/kotlin/com/portfolio/ai_challenge/experiment/Day8ExperimentRunner.kt:266-290 | Phase 3 replays a prefix of rounds 1..10, each step sent only while the last total was below 125000 and each round begun only while it was below 120000; it sends nothing if the last total was already 120000; it ends on an error, after all ten rounds, in the middle of a round once the last total reached 125000, or at a round boundary once it reached 120000 |
| ExperimentRunner.Rounds | server/src/main/kotlin/com/portfolio/ai_challenge/experiment/Day8ExperimentRunner.kt:263-291 | models the Phase 3 `while` with its inner send loop and both limits; `RoundsShaped` states what it sends |
| ExperimentRunner.RunOverflowExperiment | server/src/main/kotlin/com/portfolio/ai_challenge/experiment/Day8ExperimentRunner.kt:167-320 | models `runOverflowExperiment` as four phases over one run; the `Overflow…` lemmas state what each phase sends |
| ExperimentRunner.OverflowWellFormed | server/src/main/kotlin/com/portfolio/ai_challenge/experiment/Day8ExperimentRunner.kt:167-320 | every phase of `runOverflowExperiment` keeps the run invariant |
| ExperimentRunner.RunOverflowExperimentBookkept | server/src/main/kotlin/com/portfolio/ai_challenge/experiment/Day8ExperimentRunner.kt:309-319 | the overflow result is consistent and named `case_3_overflow_fixed` |
| ExperimentRunner.OverflowLoadSends | server/src/main/kotlin/com/portfolio/ai_challenge/experiment/Day8ExperimentRunner.kt:228-261 | Phase 1 sends case 2's non-verification steps in order, stopping early only after an error; Phase 2 then sends case 3's non-verification steps in order, again stopping early only after an error, or nothing if Phase 1 had an error |
| ExperimentRunner.OverflowRepeatSends | server/src/main/kotlin/com/portfolio/ai_challenge/experiment/Day8ExperimentRunner.kt:263-290 | Phase 3 starts from wherever Phase 2 stopped and sends at most ten rounds over all messages of both cases, with the sending and stopping rules of `RoundsShaped` |
| ExperimentRunner.OverflowVerifySends | server/src/main/kotlin/com/portfolio/ai_challenge/experiment/Day8ExperimentRunner.kt:293-306 | Phase 4 sends every verification of case 2, then of case 3, exactly once each, whatever happened before |
| ExperimentRunner.Phase1ErrorSkipsOnlyPhase2 | server/src/main/kotlin/com/portfolio/ai_challenge/experiment/Day8ExperimentRunner.kt:228-306 | after a Phase 1 error Phase 2 sends nothing, Phase 3 still sends when the last total is below 120000 and there are messages, and Phase 4 still sends every verification |
| ExperimentRunner.FirstRoundSends | server/src/main/kotlin/com/portfolio/ai_challenge/experiment/Day8ExperimentRunner.kt:266-280 | Phase 3 sends something whenever it starts below 120000 with a message to send |
| ExperimentRunner.QuietAgentRunsTenRounds | server/src/main/kotlin/com/portfolio/ai_challenge/experiment/Day8ExperimentRunner.kt:266 | with an agent that never fails and reports no usage, Phase 3 runs exactly ten full rounds |
| TemperatureRoutes.DoneIndex | server/src/main/kotlin/com/portfolio/ai_challange_with_love/routes/TemperatureRoutes.kt:59-65 | the position of the first `[DONE]` line: no earlier line is one |
| TemperatureRoutes.RelayLines | server/src/main/kotlin/com/portfolio/ai_challange_with_love/routes/TemperatureRoutes.kt:52-81 | models the line loop of the relay: `data: ` lines, `[DONE]` stop, chunk decoding, content emission; `RelayLinesMeans` states its output |
| TemperatureRoutes.Relay | server/src/main/kotlin/com/portfolio/ai_challange_with_love/routes/TemperatureRoutes.kt:41-89 | models the route body: a failed upstream exchange or a non-OK status gives one error, otherwise the line loop; `RelayReadsBack` states what the client reads |
| TemperatureRoutes.RenderAsWritten | server/src/main/kotlin/com/portfolio/ai_challange_with_love/routes/TemperatureRoutes.kt:44-87 | the event text exactly as the route writes it, carriage returns left raw; the findings below state where it cannot be read back |
| TemperatureRoutes.Render | server/src/main/kotlin/com/portfolio/ai_challange_with_love/routes/TemperatureRoutes.kt:42-87 | the event text with content carriage returns written as `\r` and both error messages escaped like content; `RenderReadsBack` states that every event reads back |
| TemperatureRoutes.RelayLinesMeans | server/src/main/kotlin/com/portfolio/ai_challange_with_love/routes/TemperatureRoutes.kt:52-81 | the line loop emits the content of every content-bearing line before the first `[DONE]`, in order, then `[DONE]` if there is one; other lines, unparseable chunks and chunks without content emit nothing |
| TemperatureRoutes.DoneStops | server/src/main/kotlin/com/portfolio/ai_challange_with_love/routes/TemperatureRoutes.kt:61-65 | after a `[DONE]` line, later lines change nothing |
| TemperatureRoutes.RelayLinesAppend | server/src/main/kotlin/com/portfolio/ai_challange_with_love/routes/TemperatureRoutes.kt:52-81 | before any `[DONE]`, the output for two runs of lines is the output of each in turn |
| TemperatureRoutes.EndsWithoutMarker | server/src/main/kotlin/com/portfolio/ai_challange_with_love/routes/TemperatureRoutes.kt:52-57 | a stream that ends or fails to read before `[DONE]` emits only content and no end marker |
| TemperatureRoutes.RenderReadsBack | server/src/main/kotlin/com/portfolio/ai_challange_with_love/routes/TemperatureRoutes.kt:42-87 | every event of the corrected route reads back as what it means, carriage returns included: content exactly, error messages with newlines as spaces |
| TemperatureRoutes.RelayReadsBack | server/src/main/kotlin/com/portfolio/ai_challange_with_love/routes/TemperatureRoutes.kt:41-89 | end to end, for the corrected route and any content (carriage returns included): one error event for a failure or a non-OK status, otherwise each chunk's content before the first `[DONE]`, in order, then `[DONE]` |
| TemperatureRoutes.ContentAsWrittenReadsBack | server/src/main/kotlin/com/portfolio/ai_challange_with_love/routes/TemperatureRoutes.kt:70-74 | as written, a content event reads back as its content if and only if the content has no carriage return |
| TemperatureRoutes.CrLfContentBreaksEvent | server/src/main/kotlin/com/portfolio/ai_challange_with_love/routes/TemperatureRoutes.kt:70-74 | the content `a\r\nb` does not read back as written and does with the corrected escape |
| TemperatureRoutes.StatusBodyBreaksEvent | server/src/main/kotlin/com/portfolio/ai_challange_with_love/routes/TemperatureRoutes.kt:42-44 | as written, an error body holding a quote with no backslash before it yields an event that does not read back as the error message |
| TemperatureRoutes.FailureBackslashBreaksEvent | server/src/main/kotlin/com/portfolio/ai_challange_with_love/routes/TemperatureRoutes.kt:84-87 | as written, an exception message `\` yields an error event that does not read back |
| JsonEscape.EscapeContentAsWritten | server/src/main/kotlin/com/portfolio/ai_challange_with_love/routes/TemperatureRoutes.kt:70-73 | the backslash, quote, newline replaces equal the per-character escape and leave no raw newline or unescaped quote; the result reads back as the original if and only if the original has no carriage return |
| JsonEscape.EscapeContent | server/src/main/kotlin/com/portfolio/ai_challange_with_love/routes/TemperatureRoutes.kt:70-73 | the corrected content escape (also writing a carriage return as `\r`) leaves no raw line break or unescaped quote and reads back as the original for every text |
| JsonEscape.SafeEachReadsBack | server/src/main/kotlin/com/portfolio/ai_challange_with_love/routes/ModelRoutes.kt:112-115 | the per-character corrected content escape reads back as the original |
| JsonEscape.EscapeErrorAsWritten | server/src/main/kotlin/com/portfolio/ai_challange_with_love/routes/TemperatureRoutes.kt:84-86 | the quote-then-newline escape leaves no raw newline and escapes every quote; a message without backslashes reads back, newlines as spaces, if and only if it has no carriage return |
| JsonEscape.ErrorEscapeLosesTrailingBackslash | server/src/main/kotlin/com/portfolio/ai_challange_with_love/routes/ModelRoutes.kt:141-143 | a message of one backslash does not read back after the as-written escape |
| JsonEscape.EscapeError | server/src/main/kotlin/com/portfolio/ai_challange_with_love/routes/ModelRoutes.kt:141-143 | the corrected escape (backslash first, carriage return as `\r`) leaves no raw line break and reads back for every message, newlines as spaces |
| JsonEscape.ErrorEachReadsBack | server/src/main/kotlin/com/portfolio/ai_challange_with_love/routes/ModelRoutes.kt:141-143 | the per-character corrected error escape reads back for every message, carriage returns included, newlines as spaces |
| JsonEscape.EscapeEachReadsBack | server/src/main/kotlin/com/portfolio/ai_challange_with_love/routes/ModelRoutes.kt:112-115 | the per-character content escape as written reads back as the original if and only if the original has no carriage return |
| ModelRoutes.ResultOf | server/src/main/kotlin/com/portfolio/ai_challange_with_love/routes/ModelRoutes.kt:72-97 | each tier's record carries its own index and configuration |
| ModelRoutes.MetricsOf | server/src/main/kotlin/com/portfolio/ai_challange_with_love/routes/ModelRoutes.kt:120-133 | metrics carry the tier's id and label and the usage counts, zeros when no usage was reported |
| ModelRoutes.StartLines | server/src/main/kotlin/com/portfolio/ai_challange_with_love/routes/ModelRoutes.kt:53-55 | one `model_start` per tier, in `MODEL_TIERS` order |
| ModelRoutes.Arrivals | server/src/main/kotlin/com/portfolio/ai_challange_with_love/routes/ModelRoutes.kt:68-100 | the drained results are one per tier, in completion order |
| ModelRoutes.Normal | server/src/main/kotlin/com/portfolio/ai_challange_with_love/routes/ModelRoutes.kt:53-138 | models the route body without a fault: start lines, each tier's lines in completion order, then `done`; `EachTierOwnsItsLines` and `DoneOnce` state its shape |
| ModelRoutes.Stream | server/src/main/kotlin/com/portfolio/ai_challange_with_love/routes/ModelRoutes.kt:50-146 | models the route with a fault at a given write: the lines before it, then one error line; `FaultEndsWithError` states it |
| ModelRoutes.RenderAsWritten | server/src/main/kotlin/com/portfolio/ai_challange_with_love/routes/ModelRoutes.kt:54-144 | the event text exactly as the route writes it, carriage returns left raw; the findings below state where it cannot be read back |
| ModelRoutes.Render | server/src/main/kotlin/com/portfolio/ai_challange_with_love/routes/ModelRoutes.kt:54-144 | the event text with content carriage returns written as `\r` and error messages escaped backslash first; the `…ReadsBack` lemmas state that its events read back |
| ModelRoutes.TierLines | server/src/main/kotlin/com/portfolio/ai_challange_with_love/routes/ModelRoutes.kt:103-136 | a tier's lines: one error line when its call raised with a message, otherwise its result then its metrics |
| ModelRoutes.EachTierOwnsItsLines | server/src/main/kotlin/com/portfolio/ai_challange_with_love/routes/ModelRoutes.kt:53-139 | whatever the completion order, the lines carrying a tier's index are exactly that tier's own lines |
| ModelRoutes.FailedTierWritesOnlyError | server/src/main/kotlin/com/portfolio/ai_challange_with_love/routes/ModelRoutes.kt:104-109 | a tier that raised writes only `<label>: <msg>` as an error, no result and no metrics |
| ModelRoutes.MissingUsageCountsZero | server/src/main/kotlin/com/portfolio/ai_challange_with_love/routes/ModelRoutes.kt:120-122 | a tier answering without usage reports zero tokens in its metrics |
| ModelRoutes.ResultThenMetrics | server/src/main/kotlin/com/portfolio/ai_challange_with_love/routes/ModelRoutes.kt:112-145 | every result line is followed by its tier's metrics, unless that write raised and the error line follows |
| ModelRoutes.StartsFirst | server/src/main/kotlin/com/portfolio/ai_challange_with_love/routes/ModelRoutes.kt:53-56 | the three start lines come first, in tier order, and nowhere else |
| ModelRoutes.DoneOnce | server/src/main/kotlin/com/portfolio/ai_challange_with_love/routes/ModelRoutes.kt:138 | without a fault the stream ends with the only `done` and has no route-level error |
| ModelRoutes.FaultEndsWithError | server/src/main/kotlin/com/portfolio/ai_challange_with_love/routes/ModelRoutes.kt:140-145 | with a fault, the lines before it stand, one error line follows, and no `done` is written |
| ModelRoutes.ResultReadsBack | server/src/main/kotlin/com/portfolio/ai_challange_with_love/routes/ModelRoutes.kt:112-116 | with the corrected escape, a tier's result event reads back as its content, carriage returns included |
| ModelRoutes.ResultAsWrittenReadsBack | server/src/main/kotlin/com/portfolio/ai_challange_with_love/routes/ModelRoutes.kt:112-116 | as written, a tier's result event reads back as its content if and only if the content has no carriage return |
| ModelRoutes.CrLfResultBreaksEvent | server/src/main/kotlin/com/portfolio/ai_challange_with_love/routes/ModelRoutes.kt:112-116 | a result content `a\r\nb` does not read back as written and does with the corrected escape |
| ModelRoutes.TierErrorReadsBack | server/src/main/kotlin/com/portfolio/ai_challange_with_love/routes/ModelRoutes.kt:105-106 | with the corrected escape, a tier's error event reads back as `<label>: <msg>` for every message, carriage returns included, newlines as spaces |
| ModelRoutes.FailureReadsBack | server/src/main/kotlin/com/portfolio/ai_challange_with_love/routes/ModelRoutes.kt:141-144 | with the corrected escape, the route-level error event reads back as the message for every message, carriage returns included, newlines as spaces |
| ModelRoutes.TierBackslashBreaksEvent | server/src/main/kotlin/com/portfolio/ai_challange_with_love/routes/ModelRoutes.kt:105-106 | as written, a tier error message `\` yields an event that does not read back |
| ModelRoutes.TierLabelsPlain | server/src/main/kotlin/com/portfolio/ai_challange_with_love/routes/ModelRoutes.kt:27-31 | the tier labels need no JSON escaping |
| TemperatureApi.StreamTemperatureResult | composeApp/src/commonMain/kotlin/com/portfolio/ai_challenge/data/TemperatureApi.kt:43-77 | the tokens delivered are the contents of the content lines before the first `[DONE]` or error line; it raises with the error's message exactly when that line is an error; it raises a request failure exactly when the body failed or timed out before such a line; otherwise it returns the tokens concatenated |
| TemperatureApi.ActionOf | composeApp/src/commonMain/kotlin/com/portfolio/ai_challenge/data/TemperatureApi.kt:58-72 | models what one line does: skip, stop, raise or deliver; `SkipChangesNothing`, `ErrorChunkRaises` and `DoneStops` state its cases |
| TemperatureApi.Read | composeApp/src/commonMain/kotlin/com/portfolio/ai_challenge/data/TemperatureApi.kt:56-73 | the reference fold of the loop over the lines; `ReadMeans` states its result |
| TemperatureApi.EndIndexShape | composeApp/src/commonMain/kotlin/com/portfolio/ai_challenge/data/TemperatureApi.kt:58-68 | no line before the end index stops or raises, and the line at it does |
| TemperatureApi.ReadMeans | composeApp/src/commonMain/kotlin/com/portfolio/ai_challenge/data/TemperatureApi.kt:56-73 | the fold delivers the content lines before the end, and raises exactly when the end line is an error |
| TemperatureApi.EndIgnoresRest | composeApp/src/commonMain/kotlin/com/portfolio/ai_challenge/data/TemperatureApi.kt:60-68 | nothing after the first `[DONE]` or error line is read |
| TemperatureApi.ReadAppend | composeApp/src/commonMain/kotlin/com/portfolio/ai_challenge/data/TemperatureApi.kt:56-73 | reading is incremental over lines that end nothing |
| TemperatureApi.SkipChangesNothing | composeApp/src/commonMain/kotlin/com/portfolio/ai_challenge/data/TemperatureApi.kt:58-72 | a line without prefix, an undecodable payload, or a chunk with neither content nor error changes nothing |
| TemperatureApi.ErrorChunkRaises | composeApp/src/commonMain/kotlin/com/portfolio/ai_challenge/data/TemperatureApi.kt:66-68 | a chunk with an error raises with its message even if it has content, and nothing after it is delivered |
| TemperatureApi.DoneStops | composeApp/src/commonMain/kotlin/com/portfolio/ai_challenge/data/TemperatureApi.kt:59-60 | a `[DONE]` line, whatever trailing whitespace, stops reading whatever the decoder says |
| ModelApi.StreamModelComparison | composeApp/src/commonMain/kotlin/com/portfolio/ai_challange_with_love/data/ModelApi.kt:71-110 | the events delivered are the per-line events of all lines, in order, at most one per line; it raises exactly when the body failed or timed out |
| ModelApi.EventOf | composeApp/src/commonMain/kotlin/com/portfolio/ai_challange_with_love/data/ModelApi.kt:83-107 | models what one line delivers: nothing for a non-`data: ` or empty line, otherwise the event its `type` selects; `KindSelectsVariant` and `RejectedPayloadSkipped` state its cases |
| ModelApi.Events | composeApp/src/commonMain/kotlin/com/portfolio/ai_challange_with_love/data/ModelApi.kt:81-108 | the reference fold of the loop over the lines; `EventsFromLines` and `EventsAppend` state its result |
| ModelApi.EventsAppend | composeApp/src/commonMain/kotlin/com/portfolio/ai_challange_with_love/data/ModelApi.kt:81-108 | the events of two runs of lines are those of each in turn |
| ModelApi.EventsFromLines | composeApp/src/commonMain/kotlin/com/portfolio/ai_challange_with_love/data/ModelApi.kt:81-108 | every delivered event comes from a line, and every line with an event delivers it |
| ModelApi.DoneDoesNotStop | composeApp/src/commonMain/kotlin/com/portfolio/ai_challange_with_love/data/ModelApi.kt:102 | a `done` event does not end the reading |
| ModelApi.NonDataLinesIgnored | composeApp/src/commonMain/kotlin/com/portfolio/ai_challange_with_love/data/ModelApi.kt:83-85 | non-`data: ` lines and empty payloads yield nothing |
| ModelApi.KindSelectsVariant | composeApp/src/commonMain/kotlin/com/portfolio/ai_challange_with_love/data/ModelApi.kt:89-104 | the `type` selects the variant delivered in the line's place; an error without message is `Unknown error` |
| ModelApi.RejectedPayloadSkipped | composeApp/src/commonMain/kotlin/com/portfolio/ai_challange_with_love/data/ModelApi.kt:89-107 | an unknown type, a rejected decode or metrics without data is skipped and reading carries on |
| TextFormatter.FormatShape | composeApp/src/commonMain/kotlin/com/portfolio/ai_challenge/ui/TextFormatter.kt:73-75 | the formatted text is trimmed and has no run of three newlines |
| TextFormatter.Format | composeApp/src/commonMain/kotlin/com/portfolio/ai_challenge/ui/TextFormatter.kt:7-76 | models `formatAiResponse` as its stages in source order, then `trim()`; `FormatShape` states the shape of the result |
| TextFormatter.Scan | composeApp/src/commonMain/kotlin/com/portfolio/ai_challenge/ui/TextFormatter.kt:22-73 | models `Regex.replace`: a left-to-right scan that replaces each leftmost match and resumes after it; `ScanCopies` and `PassWithoutLead` state when it copies |
| TextFormatter.FracAt | composeApp/src/commonMain/kotlin/com/portfolio/ai_challenge/ui/TextFormatter.kt:22-23 | what `\\frac\{([^}]*)}\{([^}]*)}` matches at one position, and its replacement |
| TextFormatter.GroupAt | composeApp/src/commonMain/kotlin/com/portfolio/ai_challenge/ui/TextFormatter.kt:26-55 | what the one-group patterns `\\text{…}`, `\\sqrt{…}`, `_{…}` and `^{…}` match at one position |
| TextFormatter.HeaderAt | composeApp/src/commonMain/kotlin/com/portfolio/ai_challenge/ui/TextFormatter.kt:58 | what `^#{1,6}\s+` matches at one position, in multiline mode |
| TextFormatter.BoldAt | composeApp/src/commonMain/kotlin/com/portfolio/ai_challenge/ui/TextFormatter.kt:61 | what `\*\*([^*]+)\*\*` matches at one position |
| TextFormatter.ItalicAt | composeApp/src/commonMain/kotlin/com/portfolio/ai_challenge/ui/TextFormatter.kt:64 | what `\*([^*]+)\*` matches at one position |
| TextFormatter.RuleAt | composeApp/src/commonMain/kotlin/com/portfolio/ai_challenge/ui/TextFormatter.kt:67 | what `^-{3,}\s*$` matches at one position, in multiline mode |
| TextFormatter.CommandAt | composeApp/src/commonMain/kotlin/com/portfolio/ai_challenge/ui/TextFormatter.kt:70 | what `\\([a-zA-Z]+)` matches at one position |
| TextFormatter.BlankAt | composeApp/src/commonMain/kotlin/com/portfolio/ai_challenge/ui/TextFormatter.kt:73 | what `\n{3,}` matches at one position |
| TextFormatter.BlankScanShape | composeApp/src/commonMain/kotlin/com/portfolio/ai_challenge/ui/TextFormatter.kt:73 | the blank-line pass leaves no run of three newlines |
| TextFormatter.BlankIdle | composeApp/src/commonMain/kotlin/com/portfolio/ai_challenge/ui/TextFormatter.kt:73 | the blank-line pass changes nothing on text without three newlines in a row |
| TextFormatter.BlankIdempotent | composeApp/src/commonMain/kotlin/com/portfolio/ai_challenge/ui/TextFormatter.kt:73 | applying the blank-line pass twice is applying it once |
| TextFormatter.TrimKeepsNoTriple | composeApp/src/commonMain/kotlin/com/portfolio/ai_challenge/ui/TextFormatter.kt:75 | trimming keeps the absence of three newlines in a row |
| TextFormatter.NewlinesDecodedFirst | composeApp/src/commonMain/kotlin/com/portfolio/ai_challenge/ui/TextFormatter.kt:11 | literal `\n` decoding is the first rewrite, and formatting the decoded text is formatting the raw text |
| TextFormatter.DecodeLeavesNone | composeApp/src/commonMain/kotlin/com/portfolio/ai_challenge/ui/TextFormatter.kt:11 | after decoding no literal `\n` is left |
| TextFormatter.DecodeIdle | composeApp/src/commonMain/kotlin/com/portfolio/ai_challenge/ui/TextFormatter.kt:11 | decoding text with no literal `\n` changes nothing |
| TextFormatter.RunStagesAppend | composeApp/src/commonMain/kotlin/com/portfolio/ai_challenge/ui/TextFormatter.kt:7-76 | running two lists of stages is running one after the other |
| TextFormatter.LastStageIsBlank | composeApp/src/commonMain/kotlin/com/portfolio/ai_challenge/ui/TextFormatter.kt:73 | the pipeline ends with the blank-line pass |
| TextFormatter.ScanCopies | composeApp/src/commonMain/kotlin/com/portfolio/ai_challenge/ui/TextFormatter.kt:22-73 | a regex replace copies text where nothing matches |
| TextFormatter.PassWithoutLead | composeApp/src/commonMain/kotlin/com/portfolio/ai_challenge/ui/TextFormatter.kt:22-73 | a regex pass changes nothing on text lacking the character its matches start with |
| TextFormatter.ReplaceWithoutLead | composeApp/src/commonMain/kotlin/com/portfolio/ai_challenge/ui/TextFormatter.kt:11-47 | a literal replace changes nothing when its first character does not occur |
| TextFormatter.FracInstance | composeApp/src/commonMain/kotlin/com/portfolio/ai_challenge/ui/TextFormatter.kt:22-23 | `\frac{a}{b}` becomes `a/b` when neither part holds `}` |
| TextFormatter.TextInstance | composeApp/src/commonMain/kotlin/com/portfolio/ai_challenge/ui/TextFormatter.kt:26-27 | `\text{x}` becomes `x` |
| TextFormatter.SqrtInstance | composeApp/src/commonMain/kotlin/com/portfolio/ai_challenge/ui/TextFormatter.kt:30-31 | `\sqrt{x}` becomes `√(x)` |
| TextFormatter.ScriptInstances | composeApp/src/commonMain/kotlin/com/portfolio/ai_challenge/ui/TextFormatter.kt:50-55 | `_{x}` becomes `_x` and `^{x}` becomes `^x` |
| TextFormatter.EmphasisInstances | composeApp/src/commonMain/kotlin/com/portfolio/ai_challenge/ui/TextFormatter.kt:61-64 | `**x**` and `*x*` become `x` |
| TextFormatter.CommandInstance | composeApp/src/commonMain/kotlin/com/portfolio/ai_challenge/ui/TextFormatter.kt:70 | `\name` of an unknown command becomes `name` |
| TextFormatter.HeaderInstance | composeApp/src/commonMain/kotlin/com/portfolio/ai_challenge/ui/TextFormatter.kt:58 | one to six `#` and whitespace at a line start are removed |
| TextFormatter.LongHeaderKept | composeApp/src/commonMain/kotlin/com/portfolio/ai_challenge/ui/TextFormatter.kt:58 | seven or more `#` are not a header and are kept |
| TextFormatter.RuleInstance | composeApp/src/commonMain/kotlin/com/portfolio/ai_challenge/ui/TextFormatter.kt:67 | a line of three or more dashes and trailing spaces is removed |
| TextFormatter.RunPicksGlyph | composeApp/src/commonMain/kotlin/com/portfolio/ai_challenge/ui/TextFormatter.kt:34-47 | a run of literal replaces turns a token into its own glyph when no earlier pattern matches and no later one can |
| TextFormatter.SymbolTableShape | composeApp/src/commonMain/kotlin/com/portfolio/ai_challenge/ui/TextFormatter.kt:34-47 | every symbol pattern starts with a backslash and no glyph holds one |
| TextFormatter.PiInstance | composeApp/src/commonMain/kotlin/com/portfolio/ai_challenge/ui/TextFormatter.kt:34 | `\pi` becomes π |
| TextFormatter.TimesInstance | composeApp/src/commonMain/kotlin/com/portfolio/ai_challenge/ui/TextFormatter.kt:36 | `\times` becomes × |
| TextFormatter.LeqInstance | composeApp/src/commonMain/kotlin/com/portfolio/ai_challenge/ui/TextFormatter.kt:39 | `\leq` becomes ≤ |
| TextFormatter.NeqReadAsNewline | composeApp/src/commonMain/kotlin/com/portfolio/ai_challenge/ui/TextFormatter.kt:11-41 | the input `\neq` formats to `eq`: the literal `\n` decoding runs first, so the `\neq` stage never sees it |
| TextFormatter.PlainTextOnlyCollapsed | composeApp/src/commonMain/kotlin/com/portfolio/ai_challenge/ui/TextFormatter.kt:7-76 | text with none of `\ _ ^ # * -` is only collapsed and trimmed |

## Left out

- Timestamps, `System.currentTimeMillis`, elapsed times and `delay(1000)`: clocks and waiting do not change what is sent or recorded. `startedAt`/`finishedAt` and `responseTimeMs` are not carried.
- `ExperimentLogger`: a pure observer, modelled as doing nothing.
- The HTTP calls and `Day8Agent.chat`: the agent is an oracle over the history. The upstream responses of the routes and the client response bodies are inputs (status, body, lines read). How a client body ends is an input too (`HttpBody.BodyEnd`): closed, or failed by a read error or by the request timeout (120 s in `TemperatureApi`, 300 s in `ModelApi`). The clock behind the timeout is not modelled, only that it raises.
- JSON encoding and decoding with kotlinx.serialization: decoders are oracles (`ChunkDecoder`, `Decoders`). The metrics JSON encoder is an oracle (`MetricsEncoder`). The reader `JsonEscape.ReadStringBody` covers only the escapes the routes write.
- The concurrency of `/api/models/stream` (`coroutineScope`, `launch`, `Channel`): modelled as an arbitrary completion order of the three results. A failure escaping the outer block is modelled as the write at a given position raising (`ModelRoutes.Fault`).
- `estimateCost`, `estimatedCost`, temperatures and cost formatting: floating point.
- A tier whose call raised an exception without a message behaves like a success with empty content and no usage, because its record has a null error. The model keeps this behaviour (`ModelRoutes.TierLines`); it does not flag it.
- TemperatureRoutes.Relay: writes to the client are taken to succeed. A failed content write would be swallowed by the chunk `catch` (TemperatureRoutes.kt:66-79). A failed `[DONE]` or status write would reach the outer `catch` (TemperatureRoutes.kt:83-89), which tries to write one more error event. Neither case is modelled.
- `onToken` and `onEvent` are assumed not to raise. `streamModelComparison` would swallow such an exception in its `catch`.
- `ModelApi.StreamModelComparison` keeps reading after a `done` event, as the code does (`ModelApi.DoneDoesNotStop`); the channel closing after `done` is not modelled.
- The analyze endpoints, the non-streaming `/api/temperature` route, `runFullExperiment` and `saveResults`: prompt building, file I/O and resource loading.
- `Day8ExperimentRunner`'s per-step `when` over checkpoints and verifications only logs, so it is not modelled.
- Kotlin `Int` overflow of token counts is not modelled: totals are unbounded integers, as the upstream never reports totals near 2^31.
- TextFormatter.FracInstance, TextFormatter.TextInstance, TextFormatter.SqrtInstance, TextFormatter.ScriptInstances, TextFormatter.EmphasisInstances, TextFormatter.CommandInstance, TextFormatter.HeaderInstance and TextFormatter.RuleInstance each state one pass alone, applied to text that is exactly one construct. They do not describe the pipeline on arbitrary text, where earlier passes can change the construct first.
- TextFormatter.PiInstance, TextFormatter.TimesInstance and TextFormatter.LeqInstance state the symbol stages on a token alone; the other eleven glyphs are covered only by `TextFormatter.RunPicksGlyph` and `TextFormatter.SymbolTableShape`.

## Findings

| source | as written | input that shows it | evidently intended | confidence | as-written member | corrected member |
|---|---|---|---|---|---|---|
| server/src/main/kotlin/com/portfolio/ai_challange_with_love/routes/TemperatureRoutes.kt:42-44 | a non-OK upstream status splices the raw error body into `data: {"error":"…"}` | an error body holding a quote, e.g. `{"error":{"message":"x"}}` | the message escaped like JSON string content, so the client reads the error | not executed | TemperatureRoutes.StatusBodyBreaksEvent | TemperatureRoutes.RenderReadsBack |
| server/src/main/kotlin/com/portfolio/ai_challange_with_love/routes/TemperatureRoutes.kt:84-86 | exception messages get quotes escaped and newlines turned to spaces, but backslashes are left alone | the exception message `\` (one backslash), which escapes the closing quote | backslashes escaped first, as the content escape does | not executed | TemperatureRoutes.FailureBackslashBreaksEvent | JsonEscape.EscapeError |
| server/src/main/kotlin/com/portfolio/ai_challange_with_love/routes/ModelRoutes.kt:105-106 | a tier's error message gets the same quote-and-newline escape without backslash escaping | a tier call raising with message `\` | backslashes escaped first, so the `error` event reads back as `<label>: <message>` | not executed | ModelRoutes.TierBackslashBreaksEvent | ModelRoutes.TierErrorReadsBack |
| server/src/main/kotlin/com/portfolio/ai_challange_with_love/routes/ModelRoutes.kt:141-143 | the route-level error message gets the same escape | an exception message `\` | backslashes escaped first | not executed | JsonEscape.ErrorEscapeLosesTrailingBackslash | ModelRoutes.FailureReadsBack |
| server/src/main/kotlin/com/portfolio/ai_challange_with_love/routes/TemperatureRoutes.kt:70-74 | content gets backslash, quote and newline escaped, but a carriage return is written raw, and an SSE reader ends a line at a lone carriage return | the content `a\r\nb`, a Windows line ending | the carriage return written as `\r` too, so the content event reads back | not executed | TemperatureRoutes.CrLfContentBreaksEvent | TemperatureRoutes.RenderReadsBack |
| server/src/main/kotlin/com/portfolio/ai_challange_with_love/routes/ModelRoutes.kt:112-116 | a tier's result content gets the same escape, with the carriage return written raw | a tier whose reply holds `a\r\nb` | the carriage return written as `\r` too, so the `model_result` event reads back | not executed | ModelRoutes.CrLfResultBreaksEvent | ModelRoutes.ResultReadsBack |

The corrected definitions are what the rest of the model uses.
- `TemperatureRoutes.Render` escapes both error messages with `JsonEscape.EscapeError`, and `ModelRoutes.Render` escapes error messages the same way. Both escape content with `JsonEscape.EscapeContent`, which also writes a carriage return as `\r`; `JsonEscape.EscapeError` does too.
- The as-written renderings are `TemperatureRoutes.RenderAsWritten` and `ModelRoutes.RenderAsWritten`. They use `JsonEscape.EscapeErrorAsWritten` and `JsonEscape.EscapeContentAsWritten`, which leave a carriage return raw.
- `JsonEscape.ReadStringBody` rejects a raw carriage return. Ktor's `readUTF8Line`, which both clients use, and an SSE parser (section 9.2.5 of the WHATWG HTML standard) both end a line there. The event is then cut in two.
- A client's JSON decoder rejects such an event, and both clients skip a chunk that does not decode. The error or the content is therefore lost silently.
